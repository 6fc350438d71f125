/**
 The event outbox as a two-party protocol: the journal of the agent (internal/ota/engine.go), its synchronisation
 client (internal/ota/fleet.go) and the fleet server (internal/fleetref/server.go). Requests may be lost, late or
 repeated, replies may be lost, commits may fail with or without effect, the agent may crash, and events may be
 journalled while a request is under way.
 */
module Outbox {
  import opened Model
  import opened Journal
  import Fleet

  /** The part of a journal snapshot that the protocol is about. */
  datatype Box = Box(last: nat, events: seq<Event>)

  function BoxOf(d: Database): Box {
    Box(d.eventSequence, d.events)
  }

  function Pushed(b: Box, e: Event): Box {
    Box(b.last + 1, b.events + [e])
  }

  datatype Net = Net(
    disk: Box, mem: Box, poisoned: bool,                       // the agent's journal
    waiting: Option<seq<Event>>,                               // the batch whose reply the client awaits
    log: Fleet.Log,                                            // the server
    // history
    journal: seq<Event>,                                       // every event that ever became durable
    sent: set<seq<Event>>, replies: set<(seq<Event>, nat)>,    // every request sent, every reply given
    released: set<nat>                                         // numbers an operator acknowledged by hand
  )

  datatype Step =
    | Append(jobID: string, state: JobState, time: int, outcome: Outcome)
    | Operator(sequence: nat, outcome: Outcome)
    | Send
    | Deliver(batch: seq<Event>)
    | Receive(sequence: nat, outcome: Outcome)
    | GiveUp
    | Crash

  /** At most a hundred events leave in one request. */
  function FirstBatch(events: seq<Event>): seq<Event> {
    if |events| > Fleet.BATCH_LIMIT then events[..Fleet.BATCH_LIMIT] else events
  }

  function Last(batch: seq<Event>): nat
    requires batch != []
  {
    batch[|batch| - 1].sequence
  }

  function NumbersUpTo(events: seq<Event>, sequence: nat): set<nat> {
    set i | 0 <= i < |events| && events[i].sequence <= sequence :: events[i].sequence
  }

  predicate Enabled(n: Net, s: Step) {
    match s
    case Send => n.waiting.None? && n.mem.events != []
    case Deliver(b) => b in n.sent
    case Receive(a, _) => n.waiting.Some? && (n.waiting.value, a) in n.replies && n.waiting.value != []
    case _ => true
  }

  /** The acknowledgment of events up to `sequence`, by the client or by an operator. */
  function Drop(n: Net, sequence: nat, outcome: Outcome): Net {
    if n.poisoned || sequence > n.mem.last then n
    else
      var next := Box(n.mem.last, DropAcked(n.mem.events, sequence));
      match outcome
      case Durable => n.(disk := next, mem := next)
      case FailedLost => n.(poisoned := true)
      case FailedKept => n.(disk := next, poisoned := true)
  }

  function AppendEvent(n: Net, e: Event, outcome: Outcome): Net {
    if n.poisoned || |n.mem.events| >= OUTBOX_LIMIT then n
    else
      var next := Pushed(n.mem, e);
      match outcome
      case Durable => n.(disk := next, mem := next, journal := n.journal + [e])
      case FailedLost => n.(poisoned := true)
      case FailedKept => n.(disk := next, journal := n.journal + [e], poisoned := true)
  }

  function Apply(n: Net, s: Step): Net
    requires Enabled(n, s)
  {
    match s
    case Append(id, state, time, outcome) => AppendEvent(n, Event(n.mem.last + 1, id, state, time), outcome)
    case Operator(sequence, outcome) =>
      var v := Drop(n, sequence, outcome);
      v.(released := if v.disk == n.disk then n.released else n.released + NumbersUpTo(n.mem.events, sequence))
    case Send =>
      var b := FirstBatch(n.mem.events);
      n.(waiting := Some(b), sent := n.sent + {b})
    case Deliver(b) =>
      var (log, r) := Fleet.Posted(n.log, b);
      n.(log := log, replies := if r.AckUpTo? then n.replies + {(b, r.sequence)} else n.replies)
    case Receive(a, outcome) =>
      if a > Last(n.waiting.value) then n.(waiting := None) else Drop(n, a, outcome).(waiting := None)
    case GiveUp => n.(waiting := None)
    case Crash => n.(mem := n.disk, poisoned := false, waiting := None)
  }

  predicate Init(n: Net) {
    && n.disk == Box(0, []) && n.mem == n.disk && !n.poisoned && n.waiting.None? && n.log == Fleet.Log(map[], 0)
    && n.journal == [] && n.sent == {} && n.replies == {} && n.released == {}
  }

  ghost predicate IsRun(ns: seq<Net>, ss: seq<Step>) {
    && |ns| == |ss| + 1 && Init(ns[0])
    && forall i | 0 <= i < |ss| :: Enabled(ns[i], ss[i]) && ns[i + 1] == Apply(ns[i], ss[i])
  }

  // ---------------------------------------------------------------- invariant

  /** `events` is an unbroken piece of the journal. */
  predicate Piece(journal: seq<Event>, events: seq<Event>) {
    events != [] ==>
      && 0 < events[0].sequence && events[0].sequence - 1 + |events| <= |journal|
      && events == journal[events[0].sequence - 1..events[0].sequence - 1 + |events|]
  }

  predicate Numbered(journal: seq<Event>) {
    forall i | 0 <= i < |journal| :: journal[i].sequence == i + 1
  }

  /** A journal copy holds the newest events up to its own counter. */
  predicate Copy(journal: seq<Event>, b: Box) {
    b.last <= |journal| && |b.events| <= b.last && b.events == journal[b.last - |b.events|..b.last]
  }

  /** Every number not in the copy's outbox is stored at the server or was released by hand. */
  predicate Safe(b: Box, store: map<nat, Event>, released: set<nat>) {
    forall k | 0 < k <= b.last - |b.events| :: k in store || k in released
  }

  ghost predicate Inv(n: Net) {
    && Numbered(n.journal) && n.disk.last == |n.journal|
    && Copy(n.journal, n.disk) && Copy(n.journal, n.mem) && (!n.poisoned ==> n.mem == n.disk)
    && Safe(n.disk, n.log.store, n.released) && Safe(n.mem, n.log.store, n.released)
    && (forall b | b in n.sent :: SentRight(n, b))
    && (n.waiting.Some? ==> n.waiting.value in n.sent)
    && (forall k | k in n.log.store :: 0 < k <= |n.journal| && n.log.store[k] == n.journal[k - 1])
    && (forall k | 0 < k <= n.log.acked :: k in n.log.store)
    && (forall r, k | r in n.replies && 0 < k <= r.1 :: k in n.log.store)
  }

  /** A request carries a piece of the journal, and what came before it is accounted for. */
  predicate SentRight(n: Net, b: seq<Event>) {
    && 0 < |b| <= Fleet.BATCH_LIMIT && Piece(n.journal, b)
    && forall k | 0 < k < b[0].sequence :: k in n.log.store || k in n.released
  }

  // ---------------------------------------------------------------- acknowledgments

  /** Dropping acknowledged events leaves a copy of the journal, shortened by exactly the acknowledged ones. */
  lemma {:induction false} DropKeepsCopy(journal: seq<Event>, b: Box, sequence: nat)
    requires Numbered(journal) && Copy(journal, b)
    ensures var c := Box(b.last, DropAcked(b.events, sequence));
            && Copy(journal, c)
            && (c.last - |c.events| == b.last - |b.events| || c.last - |c.events| <= sequence)
            && (forall k | b.last - |b.events| < k <= c.last - |c.events| :: k in NumbersUpTo(b.events, sequence))
    decreases |b.events|
  {
    var first := b.last - |b.events|;
    if b.events != [] && b.events[0].sequence <= sequence {
      assert b.events[0] == journal[first];
      DropKeepsCopy(journal, Box(b.last, b.events[1..]), sequence);
      forall k | k in NumbersUpTo(b.events[1..], sequence) ensures k in NumbersUpTo(b.events, sequence) {
        var i :| 0 <= i < |b.events[1..]| && b.events[1..][i].sequence == k && k <= sequence;
        assert b.events[i + 1].sequence == k;
      }
      assert b.events[0].sequence in NumbersUpTo(b.events, sequence);
    }
  }

  lemma KeepDrop(n: Net, sequence: nat, outcome: Outcome)
    requires Inv(n) && forall k | 0 < k <= sequence :: k in n.log.store
    ensures Inv(Drop(n, sequence, outcome))
  {
    DropKeepsCopy(n.journal, n.mem, sequence);
    assert forall b | b in n.sent :: SentRight(n, b);
  }

  lemma KeepOperator(n: Net, sequence: nat, outcome: Outcome)
    requires Inv(n)
    ensures Inv(Apply(n, Operator(sequence, outcome)))
  {
    DropKeepsCopy(n.journal, n.mem, sequence);
    var v := Apply(n, Operator(sequence, outcome));
    assert n.released <= v.released;
    assert forall b | b in n.sent :: SentRight(n, b);
  }

  // ---------------------------------------------------------------- requests

  lemma PushKeepsCopies(journal: seq<Event>, b: Box, e: Event)
    requires Copy(journal, b) && Numbered(journal) && e.sequence == |journal| + 1
    ensures Numbered(journal + [e]) && Copy(journal + [e], b)
    ensures b.last == |journal| ==> Copy(journal + [e], Pushed(b, e))
  {
    var more := journal + [e];
    assert b.events == more[b.last - |b.events|..b.last];
    if b.last == |journal| {
      assert b.events + [e] == more[b.last - |b.events|..b.last + 1];
    }
  }

  lemma PushKeepsSent(n: Net, v: Net, b: seq<Event>)
    requires SentRight(n, b) && n.journal <= v.journal && v.log == n.log && v.released == n.released
    ensures SentRight(v, b)
  {
    var first := b[0].sequence - 1;
    assert v.journal[first..first + |b|] == n.journal[first..first + |b|];
  }

  lemma KeepAppend(n: Net, e: Event, outcome: Outcome)
    requires Inv(n) && e.sequence == n.mem.last + 1
    ensures Inv(AppendEvent(n, e, outcome))
  {
    hide Copy, Numbered, SentRight;
    var v := AppendEvent(n, e, outcome);
    forall b | b in n.sent ensures SentRight(v, b) {
      PushKeepsSent(n, v, b);
    }
    if v.journal != n.journal {
      PushKeepsCopies(n.journal, n.mem, e);
    }
  }

  lemma KeepSend(n: Net)
    requires Inv(n) && Enabled(n, Send)
    ensures Inv(Apply(n, Send))
  {
    var v, b := Apply(n, Send), FirstBatch(n.mem.events);
    var first := n.mem.last - |n.mem.events|;
    assert b[0] == n.journal[first] && b == n.journal[first..first + |b|];
    assert SentRight(v, b);
    forall c | c in n.sent ensures SentRight(v, c) {
      assert SentRight(n, c);
    }
  }

  /** A genuine batch meets only genuine events: the server never sees a conflict. */
  lemma {:induction false} GenuineInserts(store: map<nat, Event>, journal: seq<Event>, batch: seq<Event>)
    requires Numbered(journal) && Piece(journal, batch)
    requires forall k | k in store :: 0 < k <= |journal| && store[k] == journal[k - 1]
    ensures Fleet.Inserted(store, batch).Some?
    ensures forall k | k in Fleet.Inserted(store, batch).value ::
              0 < k <= |journal| && Fleet.Inserted(store, batch).value[k] == journal[k - 1]
    decreases |batch|
  {
    if batch != [] {
      assert batch[0] == journal[batch[0].sequence - 1];
      if |batch| > 1 {
        assert batch[1] == journal[batch[0].sequence];
        assert batch[1..] == journal[batch[0].sequence..batch[0].sequence + |batch[1..]|];
      }
      GenuineInserts(if batch[0].sequence in store then store
                     else store[batch[0].sequence := batch[0]], journal, batch[1..]);
    }
  }

  lemma KeepDeliver(n: Net, b: seq<Event>)
    requires Inv(n) && b in n.sent
    ensures Inv(Apply(n, Deliver(b)))
  {
    assert SentRight(n, b);
    GenuineInserts(n.log.store, n.journal, b);
    Fleet.InsertedFacts(n.log.store, b);
    var v := Apply(n, Deliver(b));
    assert n.log.store.Keys <= v.log.store.Keys;
    forall c | c in n.sent ensures SentRight(v, c) {
      assert SentRight(n, c);
    }
  }

  lemma KeepWaiting(n: Net)
    requires Inv(n)
    ensures Inv(n.(waiting := None))
  {
    assert forall b | b in n.sent :: SentRight(n, b) == SentRight(n.(waiting := None), b);
  }

  lemma KeepReceive(n: Net, a: nat, outcome: Outcome)
    requires Inv(n) && Enabled(n, Receive(a, outcome))
    ensures Inv(Apply(n, Receive(a, outcome)))
  {
    hide Inv, Drop;
    KeepWaiting(n);
    RepliedIsStored(n, a, outcome);
    KeepDrop(n, a, outcome);
    KeepWaiting(Drop(n, a, outcome));
  }

  lemma RepliedIsStored(n: Net, a: nat, outcome: Outcome)
    requires Inv(n) && Enabled(n, Receive(a, outcome))
    ensures forall k | 0 < k <= a :: k in n.log.store
  {
  }

  lemma KeepCrash(n: Net)
    requires Inv(n)
    ensures Inv(Apply(n, Crash))
  {
    var v := Apply(n, Crash);
    assert forall b | b in n.sent :: SentRight(n, b) == SentRight(v, b);
  }

  lemma Keep(n: Net, s: Step)
    requires Inv(n) && Enabled(n, s)
    ensures Inv(Apply(n, s))
  {
    hide Inv, AppendEvent, Drop, FirstBatch, NumbersUpTo, Fleet.Posted;
    match s
    case Append(id, state, time, outcome) => KeepAppend(n, Event(n.mem.last + 1, id, state, time), outcome);
    case Operator(sequence, outcome) => KeepOperator(n, sequence, outcome);
    case Send => KeepSend(n);
    case Deliver(b) => KeepDeliver(n, b);
    case Receive(a, outcome) => KeepReceive(n, a, outcome);
    case GiveUp => KeepWaiting(n);
    case Crash => KeepCrash(n);
  }

  lemma {:induction false} Reachable(ns: seq<Net>, ss: seq<Step>, k: nat)
    requires IsRun(ns, ss) && k < |ns|
    ensures Inv(ns[k])
  {
    hide Inv, Apply, Init;
    if k == 0 {
      InitInv(ns[0]);
    } else {
      Reachable(ns, ss, k - 1);
      Keep(ns[k - 1], ss[k - 1]);
    }
  }

  lemma InitInv(n: Net)
    requires Init(n)
    ensures Inv(n)
  {
  }

  // ---------------------------------------------------------------- what the protocol guarantees

  /** Every event ever journalled is in the outbox, or stored at the server unchanged, or was released by hand. */
  lemma NoEventLost(ns: seq<Net>, ss: seq<Step>, k: nat, i: nat)
    requires IsRun(ns, ss) && k < |ns| && i < |ns[k].journal|
    ensures var n := ns[k]; var e := n.journal[i];
            || e in n.disk.events
            || (e.sequence in n.log.store && n.log.store[e.sequence] == e)
            || e.sequence in n.released
  {
    hide Inv;
    Reachable(ns, ss, k);
    JournalLength(ns[k]);
    Accounted(ns[k], i);
  }

  lemma Accounted(n: Net, i: nat)
    requires Inv(n) && i < n.disk.last
    ensures |n.journal| == n.disk.last && n.journal[i].sequence == i + 1
    ensures var e := n.journal[i];
            || e in n.disk.events
            || (e.sequence in n.log.store && n.log.store[e.sequence] == e)
            || e.sequence in n.released
  {
    var first := n.disk.last - |n.disk.events|;
    if i >= first {
      assert n.disk.events[i - first] == n.journal[i];
    }
  }

  lemma JournalLength(n: Net)
    requires Inv(n)
    ensures n.disk.last == |n.journal|
  {
  }

  /** However late or often a request arrives, it is well formed and conflicts with nothing stored. */
  lemma NeverConflicts(ns: seq<Net>, ss: seq<Step>, k: nat, b: seq<Event>)
    requires IsRun(ns, ss) && k < |ns| && b in ns[k].sent
    ensures Fleet.Posted(ns[k].log, b).1.AckUpTo?
  {
    Reachable(ns, ss, k);
    assert SentRight(ns[k], b);
    GenuineInserts(ns[k].log.store, ns[k].journal, b);
  }

  /** Without acknowledgments by hand, the server answers any request, however late, with its last event. */
  lemma AcksWholeBatch(n: Net, b: seq<Event>)
    requires Inv(n) && b in n.sent && n.released == {}
    ensures Fleet.Posted(n.log, b).1 == Fleet.AckUpTo(Last(b))
  {
    hide Copy, Safe;
    assert SentRight(n, b);
    GenuineInserts(n.log.store, n.journal, b);
    Fleet.InsertedFacts(n.log.store, b);
    PieceEnds(n.journal, b);
    var s := Fleet.Inserted(n.log.store, b).value;
    PieceStored(n.journal, b, s);
    AdvancedReaches(s, n.log.acked, Last(b));
  }

  lemma PieceEnds(journal: seq<Event>, b: seq<Event>)
    requires Numbered(journal) && Piece(journal, b) && b != []
    ensures Last(b) == b[0].sequence + |b| - 1
  {
    assert b[|b| - 1] == journal[b[0].sequence - 1 + |b| - 1];
  }

  lemma PieceStored(journal: seq<Event>, b: seq<Event>, s: map<nat, Event>)
    requires Numbered(journal) && Piece(journal, b) && b != [] && forall e | e in b :: e.sequence in s
    ensures forall k | b[0].sequence <= k <= Last(b) :: k in s
  {
    PieceEnds(journal, b);
    forall k | b[0].sequence <= k <= Last(b) ensures k in s {
      assert b[k - b[0].sequence] == journal[k - 1] && b[k - b[0].sequence] in b;
    }
  }

  lemma AdvancedReaches(s: map<nat, Event>, acked: nat, last: nat)
    requires forall k | 0 < k <= last :: k in s
    ensures Fleet.Min(Fleet.Advanced(s, acked), last) == last
  {
    var r := Fleet.Advanced(s, acked);
    assert r < last ==> 0 < r + 1 <= last;
  }

  ghost predicate RepliesWhole(n: Net) {
    n.released == {} ==> forall r | r in n.replies :: r.0 != [] && r.1 == Last(r.0)
  }

  lemma DeliverWhole(n: Net, b: seq<Event>)
    requires Inv(n) && b in n.sent && RepliesWhole(n)
    ensures RepliesWhole(Apply(n, Deliver(b)))
  {
    hide Fleet.Posted, Copy, Safe, Numbered, Piece;
    if n.released == {} {
      AcksWholeBatch(n, b);
      assert SentRight(n, b);
    }
  }

  lemma OthersWhole(n: Net, s: Step)
    requires Enabled(n, s) && !s.Deliver? && RepliesWhole(n)
    ensures RepliesWhole(Apply(n, s))
  {
    hide DropAcked, FirstBatch, NumbersUpTo;
  }

  lemma {:induction false} RepliesAreWhole(ns: seq<Net>, ss: seq<Step>, k: nat)
    requires IsRun(ns, ss) && k < |ns|
    ensures RepliesWhole(ns[k])
  {
    if k > 0 {
      hide Inv, Apply, RepliesWhole, Init;
      RepliesAreWhole(ns, ss, k - 1);
      Reachable(ns, ss, k - 1);
      if ss[k - 1].Deliver? {
        DeliverWhole(ns[k - 1], ss[k - 1].batch);
      } else {
        OthersWhole(ns[k - 1], ss[k - 1]);
      }
    }
  }

  /** A delivered round trip removes its whole batch from the outbox, and nothing else. */
  lemma RoundTripClearsBatch(ns: seq<Net>, ss: seq<Step>, k: nat)
    requires IsRun(ns, ss) && k < |ss| && ss[k].Receive? && ss[k].outcome == Durable && !ns[k].poisoned
    requires ns[k].released == {}
    ensures var b := ns[k].waiting.value;
            && b != [] && ss[k].sequence == Last(b)
            && forall e :: e in ns[k + 1].disk.events <==> e in ns[k].disk.events && e.sequence > Last(b)
  {
    Reachable(ns, ss, k);
    RepliesAreWhole(ns, ss, k);
    var n, b := ns[k], ns[k].waiting.value;
    assert Enabled(n, ss[k]) && ns[k + 1] == Apply(n, ss[k]);
    assert SentRight(n, b);
    assert b[|b| - 1] == n.journal[b[0].sequence - 1 + |b| - 1];
    assert ss[k].sequence == Last(b);
    CopyOrdered(n.journal, n.mem);
    DropAckedExact(n.mem.events, n.mem.last, Last(b));
    BatchNotNewer(ns, ss, k);
  }

  lemma CopyOrdered(journal: seq<Event>, b: Box)
    requires Numbered(journal) && Copy(journal, b)
    ensures EventsOrdered(b.events, b.last)
  {
    var first := b.last - |b.events|;
    assert forall i | 0 <= i < |b.events| :: b.events[i] == journal[first + i];
  }

  predicate WaitsForKnown(n: Net) {
    n.waiting.Some? && n.waiting.value != [] ==> Last(n.waiting.value) <= n.mem.last
  }

  lemma SendsKnown(n: Net)
    requires Inv(n) && Enabled(n, Send)
    ensures WaitsForKnown(Apply(n, Send))
  {
    var first := n.mem.last - |n.mem.events|;
    assert forall i | 0 <= i < |n.mem.events| :: n.mem.events[i] == n.journal[first + i];
  }

  lemma StaysKnown(n: Net, s: Step)
    requires WaitsForKnown(n) && Enabled(n, s) && !s.Send?
    ensures WaitsForKnown(Apply(n, s))
  {
    hide Fleet.Posted, DropAcked, NumbersUpTo;
  }

  /** The client never waits for events its journal copy does not know. */
  lemma {:induction false} BatchNotNewer(ns: seq<Net>, ss: seq<Step>, k: nat)
    requires IsRun(ns, ss) && k < |ns|
    ensures WaitsForKnown(ns[k])
  {
    if k > 0 {
      hide Inv, Apply, WaitsForKnown;
      BatchNotNewer(ns, ss, k - 1);
      Reachable(ns, ss, k - 1);
      if ss[k - 1].Send? {
        SendsKnown(ns[k - 1]);
      } else {
        StaysKnown(ns[k - 1], ss[k - 1]);
      }
    }
  }

  /** In every run the server has acknowledged only an unbroken prefix of the journal, which it stores unchanged. */
  lemma AckedIsPrefix(ns: seq<Net>, ss: seq<Step>, k: nat, i: nat)
    requires IsRun(ns, ss) && k < |ns| && 0 < i <= ns[k].log.acked
    ensures i <= |ns[k].journal| && i in ns[k].log.store && ns[k].log.store[i] == ns[k].journal[i - 1]
  {
    Reachable(ns, ss, k);
    assert i in ns[k].log.store;
  }

  /** In every run the acknowledgment falls exactly at deliveries of a batch that ends below it. */
  lemma AckFalls(ns: seq<Net>, ss: seq<Step>, k: nat)
    requires IsRun(ns, ss) && k < |ss|
    ensures ns[k + 1].log.acked < ns[k].log.acked <==>
              ss[k].Deliver? && ss[k].batch != [] && Last(ss[k].batch) < ns[k].log.acked
  {
    hide Fleet.Posted, DropAcked;
    assert Enabled(ns[k], ss[k]) && ns[k + 1] == Apply(ns[k], ss[k]);
    if ss[k].Deliver? {
      NeverConflicts(ns, ss, k, ss[k].batch);
      Fleet.AckFallsExactly(ns[k].log, ss[k].batch);
      NonEmptyAck(ns[k].log, ss[k].batch);
    }
  }

  lemma NonEmptyAck(l: Fleet.Log, b: seq<Event>)
    requires Fleet.Posted(l, b).1.AckUpTo?
    ensures b != []
  {
  }

  // ---------------------------------------------------------------- a run in which the acknowledgment falls

  /** The journal and the server's log along the run; the rest follows. */
  function Both(disk: Box, journal: seq<Event>, waiting: Option<seq<Event>>, log: Fleet.Log, sent: set<seq<Event>>,
                replies: set<(seq<Event>, nat)>): Net
  {
    Net(disk, disk, false, waiting, log, journal, sent, replies, {})
  }

  lemma Continues(ns: seq<Net>, ss: seq<Step>, s: Step, n: Net)
    requires IsRun(ns, ss) && Enabled(ns[|ss|], s) && n == Apply(ns[|ss|], s)
    ensures IsRun(ns + [n], ss + [s]) && (ns + [n])[|ss + [s]|] == n
  {
    hide Apply, Enabled, Init;
  }

  /** An event is journalled and its request is delivered, but the reply is lost. */
  lemma FirstTrip(e: Event) returns (ns: seq<Net>, ss: seq<Step>)
    requires e.sequence == 1
    ensures IsRun(ns, ss) && ns[|ss|] == Both(Box(1, [e]), [e], None, Fleet.Log(map[1 := e], 1), {[e]}, {([e], 1)})
  {
    hide Fleet.Posted, IsRun;
    Replays(e, e.(sequence := 2));
    var none, one := Fleet.Log(map[], 0), Fleet.Log(map[1 := e], 1);
    var n0 := Both(Box(0, []), [], None, none, {}, {});
    ns, ss := [n0], [];
    Starts(n0);
    var n1 := Both(Box(1, [e]), [e], None, none, {}, {});
    assert [] + [e] == [e];
    Continues(ns, ss, Append(e.jobID, e.state, e.time, Durable), n1);
    ns, ss := ns + [n1], ss + [Append(e.jobID, e.state, e.time, Durable)];
    var n2 := n1.(waiting := Some([e]), sent := {[e]});
    Continues(ns, ss, Send, n2);
    ns, ss := ns + [n2], ss + [Send];
    var n3 := n2.(log := one, replies := {([e], 1)});
    Continues(ns, ss, Deliver([e]), n3);
    ns, ss := ns + [n3], ss + [Deliver([e])];
    var n4 := n3.(waiting := None);
    Continues(ns, ss, GiveUp, n4);
    ns, ss := ns + [n4], ss + [GiveUp];
  }

  lemma Starts(n: Net)
    requires Init(n)
    ensures IsRun([n], [])
  {
  }

  /** A second event joins it, both are delivered, and then the first request arrives once more. */
  lemma AckedCanFall(e: Event, f: Event) returns (ns: seq<Net>, ss: seq<Step>)
    requires e.sequence == 1 && f.sequence == 2
    ensures IsRun(ns, ss) && |ss| > 0 && ns[|ss| - 1].log.acked == 2 && ns[|ss|].log.acked == 1
  {
    hide Fleet.Posted, IsRun;
    Replays(e, f);
    ns, ss := FirstTrip(e);
    RunLength(ns, ss);
    var two := Fleet.Log(map[1 := e, 2 := f], 2);
    var a, b := [e], [e, f];
    assert a + [f] == b;
    var n4 := ns[|ss|];
    var n5 := n4.(disk := Box(2, b), mem := Box(2, b), journal := b);
    Continues(ns, ss, Append(f.jobID, f.state, f.time, Durable), n5);
    ns, ss := ns + [n5], ss + [Append(f.jobID, f.state, f.time, Durable)];
    var n6 := n5.(waiting := Some(b), sent := n5.sent + {b});
    Continues(ns, ss, Send, n6);
    ns, ss := ns + [n6], ss + [Send];
    var n7 := n6.(log := two, replies := n6.replies + {(b, 2)});
    Continues(ns, ss, Deliver(b), n7);
    ns, ss := ns + [n7], ss + [Deliver(b)];
    var n8 := n7.(log := two.(acked := 1), replies := n7.replies + {(a, 1)});
    Continues(ns, ss, Deliver(a), n8);
    ns, ss := ns + [n8], ss + [Deliver(a)];
    RunLength(ns, ss);
  }

  lemma RunLength(ns: seq<Net>, ss: seq<Step>)
    requires IsRun(ns, ss)
    ensures |ns| == |ss| + 1
  {
  }

  lemma Replays(e: Event, f: Event)
    requires e.sequence == 1 && f.sequence == 2
    ensures Fleet.Posted(Fleet.Log(map[], 0), [e]) == (Fleet.Log(map[1 := e], 1), Fleet.AckUpTo(1))
    ensures Fleet.Posted(Fleet.Log(map[1 := e], 1), [e, f]) == (Fleet.Log(map[1 := e, 2 := f], 2), Fleet.AckUpTo(2))
    ensures Fleet.Posted(Fleet.Log(map[1 := e, 2 := f], 2), [e])
            == (Fleet.Log(map[1 := e, 2 := f], 1), Fleet.AckUpTo(1))
  {
    var one, two := map[1 := e], map[1 := e, 2 := f];
    assert Fleet.Inserted(map[], [e]) == Fleet.Inserted(one, [e][1..]);
    assert Fleet.Inserted(one, [e, f]) == Fleet.Inserted(one, [e, f][1..]) && [e, f][1..] == [f];
    assert Fleet.Inserted(one, [f]) == Fleet.Inserted(two, [f][1..]);
    assert Fleet.Inserted(two, [e]) == Fleet.Inserted(two, [e][1..]);
    assert Fleet.Advanced(one, 0) == Fleet.Advanced(one, 1) == 1;
    assert Fleet.Advanced(two, 1) == Fleet.Advanced(two, 2) == 2;
  }
}
