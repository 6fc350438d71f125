/**
 The journal as a value (internal/ota/store.go, internal/ota/engine.go): what every snapshot must
 satisfy, how events enter and leave the outbox, and which jobs a snapshot may move to the archive.
 */
module Journal {
  import opened Model

  /** The outbox never grows beyond this. */
  const OUTBOX_LIMIT := 10000
  /** No job is accepted while the outbox holds more than this. */
  const OUTBOX_HIGH_WATER := 9000

  /** Appends the event for a job's state; fails on a full outbox. */
  function AddEvent(d: Database, j: Job, now: int): Option<Database> {
    if |d.events| >= OUTBOX_LIMIT then None
    else Some(d.(eventSequence := d.eventSequence + 1,
                 events := d.events + [Event(d.eventSequence + 1, j.assignment.jobID, j.state, now)]))
  }

  /** Drops the leading events numbered up to `sequence`. */
  function DropAcked(events: seq<Event>, sequence: nat): seq<Event> {
    if events == [] || events[0].sequence > sequence then events else DropAcked(events[1..], sequence)
  }

  function Acked(d: Database, sequence: nat): Option<Database> {
    if sequence > d.eventSequence then None else Some(d.(events := DropAcked(d.events, sequence)))
  }

  predicate EventsOrdered(events: seq<Event>, last: nat) {
    && (forall i | 0 <= i < |events| :: 0 < events[i].sequence <= last)
    && (forall i, k | 0 <= i < k < |events| :: events[i].sequence < events[k].sequence)
  }

  predicate JobConsistent(d: Database, id: string)
    requires id in d.jobs
  {
    var j := d.jobs[id];
    && id == j.assignment.jobID
    && j.fingerprint == FingerprintOf(j.assignment)
    && j.release.sequence <= d.highSequence
    && (!Terminal(j.state) ==> d.active == id)
  }

  /** The integrity check every snapshot passes before it is written and after it is read. */
  predicate Valid(limit: nat, d: Database) {
    && d.schema == 1
    && |d.jobs| <= limit + 1
    && |d.events| <= OUTBOX_LIMIT
    && (forall id | id in d.jobs :: JobConsistent(d, id))
    && (d.active != "" ==> d.active in d.jobs && !Terminal(d.jobs[d.active].state))
    && EventsOrdered(d.events, d.eventSequence)
  }

  /** A job that compaction may move: finished and not active. */
  predicate Spillable(d: Database, id: string) {
    id in d.jobs && id != d.active && Terminal(d.jobs[id].state)
  }

  /** `ids` is exactly the excess over the limit, oldest finished jobs first. */
  ghost predicate Spills(limit: nat, d: Database, ids: set<string>) {
    && (forall id | id in ids :: Spillable(d, id))
    && |ids| == (if |d.jobs| > limit then |d.jobs| - limit else 0)
    && (forall a, b | a in ids && Spillable(d, b) && b !in ids :: d.jobs[a].updated <= d.jobs[b].updated)
  }

  /** A commit succeeds, fails without effect, or takes effect and still reports failure. */
  datatype Outcome = Durable | FailedLost | FailedKept

  function Without(d: Database, ids: set<string>): Database {
    d.(jobs := d.jobs - ids)
  }

  lemma {:induction false} DropAckedSuffix(events: seq<Event>, sequence: nat)
    ensures |DropAcked(events, sequence)| <= |events|
    ensures DropAcked(events, sequence) == events[|events| - |DropAcked(events, sequence)|..]
  {
    if events != [] && events[0].sequence <= sequence {
      DropAckedSuffix(events[1..], sequence);
    }
  }

  /** Acknowledging removes exactly the events numbered up to the acknowledgment. */
  lemma {:induction false} DropAckedExact(events: seq<Event>, last: nat, sequence: nat)
    requires EventsOrdered(events, last)
    ensures EventsOrdered(DropAcked(events, sequence), last)
    ensures forall e :: e in DropAcked(events, sequence) <==> e in events && e.sequence > sequence
  {
    if events != [] && events[0].sequence <= sequence {
      DropAckedExact(events[1..], last, sequence);
      assert events == [events[0]] + events[1..];
    }
  }
}
