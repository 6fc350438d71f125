/**
 The event endpoint of the reference fleet server (internal/fleetref/server.go), for one device: idempotent
 insertion and contiguous acknowledgment.
 */
module Fleet {
  import opened Model

  const BATCH_LIMIT := 100

  /** Stored under its sequence number, an event agrees with another on job and state. */
  predicate Agrees(store: map<nat, Event>, e: Event) {
    e.sequence in store ==> store[e.sequence].jobID == e.jobID && store[e.sequence].state == e.state
  }

  /** Inserts events in order, keeping the first under each number; None at the first conflict. */
  function Inserted(store: map<nat, Event>, batch: seq<Event>): Option<map<nat, Event>>
    decreases |batch|
  {
    if batch == [] then Some(store)
    else if !Agrees(store, batch[0]) then None
    else Inserted(if batch[0].sequence in store then store else store[batch[0].sequence := batch[0]], batch[1..])
  }

  /** What is in the store after the events before the first conflict. */
  function InsertedUpToConflict(store: map<nat, Event>, batch: seq<Event>): map<nat, Event>
    decreases |batch|
  {
    if batch == [] || !Agrees(store, batch[0]) then store
    else InsertedUpToConflict(if batch[0].sequence in store then store
                              else store[batch[0].sequence := batch[0]], batch[1..])
  }

  function Above(store: map<nat, Event>, acked: nat): set<nat> {
    set n | n in store && n > acked
  }

  lemma AboveShrinks(store: map<nat, Event>, acked: nat)
    requires acked + 1 in store
    ensures Above(store, acked + 1) < Above(store, acked)
  {
    assert acked + 1 in Above(store, acked);
  }

  /** The end of the unbroken run of stored numbers that starts after `acked`. */
  function Advanced(store: map<nat, Event>, acked: nat): (r: nat)
    ensures r >= acked && r + 1 !in store
    ensures forall n | acked < n <= r :: n in store
    decreases Above(store, acked)
  {
    if acked + 1 in store then
      AboveShrinks(store, acked);
      Advanced(store, acked + 1)
    else acked
  }

  function Min(a: nat, b: nat): nat {
    if a < b then a else b
  }

  lemma {:induction false} InsertedFacts(store: map<nat, Event>, batch: seq<Event>)
    ensures Inserted(store, batch).Some? ==> InsertedUpToConflict(store, batch) == Inserted(store, batch).value
    ensures store.Keys <= InsertedUpToConflict(store, batch).Keys
    ensures forall n | n in store :: InsertedUpToConflict(store, batch)[n] == store[n]
    ensures forall n | n in InsertedUpToConflict(store, batch) && n !in store ::
              InsertedUpToConflict(store, batch)[n] in batch && InsertedUpToConflict(store, batch)[n].sequence == n
    ensures Inserted(store, batch).Some? ==> forall e | e in batch :: e.sequence in Inserted(store, batch).value
    decreases |batch|
  {
    if batch != [] && Agrees(store, batch[0]) {
      InsertedFacts(if batch[0].sequence in store then store else store[batch[0].sequence := batch[0]], batch[1..]);
      assert batch == [batch[0]] + batch[1..];
    }
  }

  predicate SameOutcome(a: Event, b: Event) {
    a.jobID == b.jobID && a.state == b.state
  }

  /** A batch is accepted exactly when it contradicts neither the store nor itself, whatever the order of its events. */
  lemma {:induction false} AcceptedExactly(store: map<nat, Event>, batch: seq<Event>)
    ensures Inserted(store, batch).Some? <==>
              && (forall i | 0 <= i < |batch| :: Agrees(store, batch[i]))
              && (forall i, k | 0 <= i < k < |batch| && batch[i].sequence == batch[k].sequence ::
                  SameOutcome(batch[i], batch[k]))
    decreases |batch|
  {
    if batch != [] && Agrees(store, batch[0]) {
      var e, rest := batch[0], batch[1..];
      var next := if e.sequence in store then store else store[e.sequence := e];
      AcceptedExactly(next, rest);
      assert forall i | 0 <= i < |rest| :: rest[i] == batch[i + 1];
      assert forall i | 0 < i < |batch| :: batch[i] == rest[i - 1];
      if Inserted(next, rest).Some? {
        forall i | 0 <= i < |batch|
          ensures Agrees(store, batch[i]) && (e.sequence == batch[i].sequence ==> SameOutcome(e, batch[i]))
        {
          assert i > 0 ==> Agrees(next, rest[i - 1]);
        }
        forall i, k | 0 <= i < k < |batch| && batch[i].sequence == batch[k].sequence
          ensures SameOutcome(batch[i], batch[k])
        {
          if i > 0 {
            assert rest[i - 1].sequence == rest[k - 1].sequence;
          }
        }
      } else if forall i | 0 <= i < |batch| :: Agrees(store, batch[i]) {
        if i :| 0 <= i < |rest| && !Agrees(next, rest[i]) {
          assert Agrees(store, batch[i + 1]) && batch[0].sequence == batch[i + 1].sequence;
        } else {
          var i, k :| 0 <= i < k < |rest| && rest[i].sequence == rest[k].sequence && !SameOutcome(rest[i], rest[k]);
          assert batch[i + 1].sequence == batch[k + 1].sequence;
        }
      }
    }
  }

  lemma {:induction false} InsertedNext(store: map<nat, Event>, batch: seq<Event>, e: Event)
    requires Inserted(store, batch).Some?
    ensures var s := Inserted(store, batch).value;
            && Inserted(store, batch + [e])
               == (if !Agrees(s, e) then None else if e.sequence in s then Some(s) else Some(s[e.sequence := e]))
            && (!Agrees(s, e) ==> InsertedUpToConflict(store, batch + [e]) == s)
    decreases |batch|
  {
    if batch == [] {
      assert ([] + [e])[1..] == [];
    } else {
      assert (batch + [e])[1..] == batch[1..] + [e];
      InsertedNext(if batch[0].sequence in store then store else store[batch[0].sequence := batch[0]], batch[1..], e);
    }
  }

  lemma {:induction false} ConflictStays(store: map<nat, Event>, batch: seq<Event>, more: seq<Event>)
    requires Inserted(store, batch).None?
    ensures Inserted(store, batch + more).None?
    ensures InsertedUpToConflict(store, batch + more) == InsertedUpToConflict(store, batch)
    decreases |batch|
  {
    if batch != [] && Agrees(store, batch[0]) {
      assert (batch + more)[1..] == batch[1..] + more;
      ConflictStays(if batch[0].sequence in store then store
                    else store[batch[0].sequence := batch[0]], batch[1..], more);
    }
  }

  datatype Reply = BadBatch | Conflict | AckUpTo(sequence: nat)

  /** The events of one device and the acknowledgment last given for them. */
  datatype Log = Log(store: map<nat, Event>, acked: nat)

  function Posted(l: Log, batch: seq<Event>): (Log, Reply) {
    if |batch| == 0 || |batch| > BATCH_LIMIT then (l, BadBatch)
    else match Inserted(l.store, batch)
      case None => (l.(store := InsertedUpToConflict(l.store, batch)), Conflict)
      case Some(s) =>
        var acked := Min(Advanced(s, l.acked), batch[|batch| - 1].sequence);
        (Log(s, acked), AckUpTo(acked))
  }

  /**
   What a request does to a device's log: nothing stored is ever removed or changed; a batch of the wrong size is
   refused without effect; a batch is refused as conflicting exactly if it contradicts the store or itself, and only the
   events before the contradiction are then added; otherwise the whole batch is stored.
   */
  lemma PostedFacts(l: Log, batch: seq<Event>)
    ensures var (m, r) := Posted(l, batch);
            && (forall n | n in l.store :: n in m.store && m.store[n] == l.store[n])
            && (forall n | n in m.store && n !in l.store :: m.store[n] in batch && m.store[n].sequence == n)
            && (r.BadBatch? <==> |batch| == 0 || |batch| > BATCH_LIMIT)
            && (r.BadBatch? ==> m == l)
            && (r.Conflict? <==> !r.BadBatch? && Contradicts(l.store, batch))
            && (r.Conflict? ==> m.acked == l.acked)
            && (r.AckUpTo? ==> r.sequence == m.acked && forall e | e in batch :: e.sequence in m.store)
  {
    InsertedFacts(l.store, batch);
    AcceptedExactly(l.store, batch);
  }

  /** Two events of one number differ in job or state, one of them stored or both in the batch. */
  predicate Contradicts(store: map<nat, Event>, batch: seq<Event>) {
    || (exists i | 0 <= i < |batch| ::
          batch[i].sequence in store && !SameOutcome(store[batch[i].sequence], batch[i]))
    || (exists i, k | 0 <= i < k < |batch| ::
          batch[i].sequence == batch[k].sequence && !SameOutcome(batch[i], batch[k]))
  }

  /** The acknowledgment kept for a device falls exactly when an accepted batch ends below it. */
  lemma AckFallsExactly(l: Log, batch: seq<Event>)
    requires Posted(l, batch).1.AckUpTo?
    ensures Posted(l, batch).0.acked == Posted(l, batch).1.sequence <= batch[|batch| - 1].sequence
    ensures Posted(l, batch).0.acked < l.acked <==> batch[|batch| - 1].sequence < l.acked
  {
  }

  /** Walks up from the last acknowledgment while the next number is stored. */
  method Advance(store: map<nat, Event>, acked: nat) returns (a: nat)
    ensures a == Advanced(store, acked)
  {
    a := acked;
    while a + 1 in store
      invariant Advanced(store, a) == Advanced(store, acked)
      decreases Above(store, a)
    {
      AboveShrinks(store, a);
      a := a + 1;
    }
  }

  class Server {
    var events: map<nat, Event>
    var acked: nat

    ghost function Contents(): Log
      reads this
    {
      Log(events, acked)
    }

    method PostEvents(batch: seq<Event>) returns (r: Reply)
      modifies this
      ensures (Contents(), r) == Posted(old(Contents()), batch)
    {
      if |batch| == 0 || |batch| > BATCH_LIMIT {
        return BadBatch;
      }
      for n := 0 to |batch|
        invariant acked == old(acked) && Inserted(old(events), batch[..n]) == Some(events)
      {
        var ev := batch[n];
        assert batch[..n + 1] == batch[..n] + [ev];
        InsertedNext(old(events), batch[..n], ev);
        if ev.sequence in events {
          if events[ev.sequence].jobID != ev.jobID || events[ev.sequence].state != ev.state {
            assert batch == batch[..n + 1] + batch[n + 1..];
            ConflictStays(old(events), batch[..n + 1], batch[n + 1..]);
            return Conflict;
          }
        } else {
          events := events[ev.sequence := ev];
        }
      }
      assert batch[..|batch|] == batch;
      var a := Advance(events, acked);
      var last := batch[|batch| - 1].sequence;
      if a > last {
        a := last;
      }
      acked := a;
      r := AckUpTo(a);
    }
  }
}
