/**
 Emptying the outbox (internal/ota/fleet.go, internal/ota/engine.go, internal/fleetref/server.go): what undisturbed
 synchronisations achieve, one after the other, from any state the protocol can be in.
 */
module OutboxDrain {
  import opened Model
  import opened Journal
  import opened Outbox
  import Fleet

  /** Every number before the outbox has reached the server. */
  predicate Gapless(n: Net) {
    forall k | 0 < k <= n.mem.last - |n.mem.events| :: k in n.log.store
  }

  predicate Rested(n: Net) {
    n.waiting.None? && !n.poisoned
  }

  /** One synchronisation in which nothing goes wrong. */
  function Round(n: Net): (v: Net)
    requires n.waiting.None? && n.mem.events != []
    ensures v.waiting.None?
  {
    var b := FirstBatch(n.mem.events);
    var v := Apply(Apply(n, Send), Deliver(b));
    match Fleet.Posted(n.log, b).1
    case AckUpTo(a) => Apply(v, Receive(a, Durable))
    case _ => Apply(v, GiveUp)
  }

  function Rounds(n: Net, k: nat): Net
    requires n.waiting.None?
    decreases k
  {
    if k == 0 || n.mem.events == [] then n else Rounds(Round(n), k - 1)
  }

  // ---------------------------------------------------------------- the reply

  /** A request is answered with its last event if nothing before it is missing, and with less than its first if not. */
  lemma AnsweredExactly(n: Net, b: seq<Event>)
    requires Inv(n) && b in n.sent
    ensures b != [] && Fleet.Posted(n.log, b).1.AckUpTo?
    ensures var a := Fleet.Posted(n.log, b).1.sequence;
            if forall k | 0 < k < b[0].sequence :: k in n.log.store then a == Last(b) else a < b[0].sequence
  {
    hide Copy, Safe;
    assert SentRight(n, b);
    GenuineInserts(n.log.store, n.journal, b);
    Fleet.InsertedFacts(n.log.store, b);
    PieceEnds(n.journal, b);
    var s := Fleet.Inserted(n.log.store, b).value;
    if forall k | 0 < k < b[0].sequence :: k in n.log.store {
      PieceStored(n.journal, b, s);
      AdvancedReaches(s, n.log.acked, Last(b));
    } else {
      var k :| 0 < k < b[0].sequence && k !in n.log.store;
      NumberedFrom(n.journal, b);
      assert k !in s;
      assert n.log.acked < k;
    }
  }

  lemma NumberedFrom(journal: seq<Event>, b: seq<Event>)
    requires Numbered(journal) && Piece(journal, b) && b != []
    ensures forall i | 0 <= i < |b| :: b[i].sequence == b[0].sequence + i
  {
    forall i | 0 <= i < |b| ensures b[i].sequence == b[0].sequence + i {
      assert b[i] == journal[b[0].sequence - 1 + i];
    }
  }

  lemma {:induction false} DropsFirst(events: seq<Event>, m: nat)
    requires m <= |events| && forall i | 0 <= i < |events| :: events[i].sequence == events[0].sequence + i
    requires events != [] && events[0].sequence > 0
    ensures DropAcked(events, events[0].sequence + m - 1) == events[m..]
    decreases |events|
  {
    if m > 0 {
      var rest := events[1..];
      assert forall i | 0 <= i < |rest| :: rest[i] == events[i + 1];
      if rest != [] {
        DropsFirst(rest, m - 1);
        assert rest[m - 1..] == events[m..];
      }
    }
  }

  lemma DropsNone(events: seq<Event>, sequence: nat)
    requires events != [] && sequence < events[0].sequence
    ensures DropAcked(events, sequence) == events
  {
  }

  // ---------------------------------------------------------------- one round

  lemma FirstOfOutbox(n: Net)
    requires Inv(n) && n.mem.events != []
    ensures var events := n.mem.events;
            && events[0].sequence == n.mem.last - |events| + 1 > 0
            && (forall i | 0 <= i < |events| :: events[i].sequence == events[0].sequence + i)
  {
    var first := n.mem.last - |n.mem.events|;
    assert forall i | 0 <= i < |n.mem.events| :: n.mem.events[i] == n.journal[first + i];
  }

  /** How many events one request takes. */
  function Taken(events: seq<Event>): nat {
    if |events| > Fleet.BATCH_LIMIT then Fleet.BATCH_LIMIT else |events|
  }

  /** What a round sends, and what the journal copy is afterwards. */
  lemma RoundDrops(n: Net)
    requires Inv(n) && Rested(n) && n.mem.events != []
    ensures var m := Taken(n.mem.events);
            var left := if Gapless(n) then n.mem.events[m..] else n.mem.events;
            Round(n).mem == Round(n).disk == Box(n.mem.last, left)
    ensures Rested(Round(n)) && Round(n).journal == n.journal
    ensures Round(n).log == Fleet.Posted(n.log, n.mem.events[..Taken(n.mem.events)]).0
  {
    hide Fleet.Posted, Inv, DropAcked;
    var events, b := n.mem.events, FirstBatch(n.mem.events);
    assert b == events[..Taken(events)];
    Keep(n, Send);
    var s := Apply(n, Send);
    AnsweredExactly(s, b);
    FirstOfOutbox(n);
    assert b[0] == events[0] && Last(b) == events[0].sequence + Taken(events) - 1;
    var a := Fleet.Posted(n.log, b).1.sequence;
    if Gapless(n) {
      DropsFirst(events, Taken(events));
    } else {
      DropsNone(events, a);
    }
    MemIsDisk(n);
  }

  lemma MemIsDisk(n: Net)
    requires Inv(n) && !n.poisoned
    ensures n.mem == n.disk
  {
  }

  /** A round empties one batch and keeps the server complete, or, behind a gap, changes neither outbox nor gap. */
  lemma RoundExactly(n: Net)
    requires Inv(n) && Rested(n) && n.mem.events != []
    ensures var v := Round(n);
            && Inv(v) && Rested(v) && (Gapless(v) <==> Gapless(n)) && v.mem.last == n.mem.last && v.journal == n.journal
            && v.mem.events == (if Gapless(n) then n.mem.events[Taken(n.mem.events)..] else n.mem.events)
  {
    hide Inv, Apply, Fleet.Posted;
    RoundDrops(n);
    RoundKeeps(n);
    RoundFills(n);
  }

  lemma RoundKeeps(n: Net)
    requires Inv(n) && Rested(n) && n.mem.events != []
    ensures Inv(Round(n))
  {
    hide Inv, Fleet.Posted, Drop;
    var b := FirstBatch(n.mem.events);
    Keep(n, Send);
    var s := Apply(n, Send);
    Keep(s, Deliver(b));
    var t := Apply(s, Deliver(b));
    AnsweredExactly(s, b);
    Keep(t, Receive(Fleet.Posted(n.log, b).1.sequence, Durable));
  }

  lemma RoundFills(n: Net)
    requires Inv(n) && Rested(n) && n.mem.events != []
    ensures Gapless(Round(n)) <==> Gapless(n)
  {
    hide Inv, Round, Fleet.Posted;
    RoundDrops(n);
    FirstOfOutbox(n);
    var events := n.mem.events;
    var b := events[..Taken(events)];
    assert b == FirstBatch(events);
    Keep(n, Send);
    AnsweredExactly(Apply(n, Send), b);
    Fleet.PostedFacts(n.log, b);
    var v := Round(n);
    if Gapless(n) {
      forall k | 0 < k <= v.mem.last - |v.mem.events| ensures k in v.log.store {
        if k >= events[0].sequence {
          assert b[k - events[0].sequence].sequence == k && b[k - events[0].sequence] in b;
        }
      }
    } else {
      var k :| 0 < k <= n.mem.last - |events| && k !in n.log.store;
      assert forall i | 0 <= i < |b| :: b[i].sequence > k;
      assert k !in v.log.store;
    }
  }

  // ---------------------------------------------------------------- many rounds

  /**
   Each undisturbed synchronisation empties the next hundred events, and the server then holds them; unless a number
   before the outbox never reached the server, in which case no number of them removes a single event.
   */
  lemma {:induction false} Drains(n: Net, k: nat)
    requires Inv(n) && Rested(n)
    ensures var v := Rounds(n, k);
            var m := Fleet.BATCH_LIMIT * k;
            && Inv(v) && Rested(v) && (Gapless(v) <==> Gapless(n)) && v.mem.last == n.mem.last && v.journal == n.journal
            && v.mem.events == if !Gapless(n) then n.mem.events
                               else if m < |n.mem.events| then n.mem.events[m..] else []
    decreases k
  {
    hide Inv, Round, Gapless;
    if k > 0 && n.mem.events != [] {
      RoundExactly(n);
      Drains(Round(n), k - 1);
    }
  }

  /** The outbox can be emptied if and only if it is empty or without a gap; the server then has the whole journal. */
  lemma EmptiesExactly(n: Net)
    requires Inv(n) && Rested(n)
    ensures (exists k: nat :: Rounds(n, k).mem.events == []) <==> n.mem.events == [] || Gapless(n)
    ensures Gapless(n) ==> HoldsAll(Rounds(n, |n.mem.events|).log.store, n.journal)
  {
    hide Inv, Rounds, HoldsAll;
    forall k: nat ensures Rounds(n, k).mem.events == [] ==> n.mem.events == [] || Gapless(n) {
      Drains(n, k);
    }
    Drains(n, |n.mem.events|);
    Drains(n, 0);
    if Gapless(n) {
      assert Rounds(n, |n.mem.events|).mem.events == [];
      Complete(Rounds(n, |n.mem.events|));
    } else if n.mem.events == [] {
      assert Rounds(n, 0).mem.events == [];
    }
  }

  /** Each event ever journalled is stored under its number. */
  predicate HoldsAll(store: map<nat, Event>, journal: seq<Event>) {
    forall i | 0 <= i < |journal| :: i + 1 in store && store[i + 1] == journal[i]
  }

  lemma Complete(n: Net)
    requires Inv(n) && Rested(n) && Gapless(n) && n.mem.events == []
    ensures HoldsAll(n.log.store, n.journal)
  {
    hide Copy, Safe, SentRight;
    forall i | 0 <= i < |n.journal| ensures i + 1 in n.log.store && n.log.store[i + 1] == n.journal[i] {
      assert n.mem.last - |n.mem.events| == |n.journal|;
      assert i + 1 in n.log.store;
    }
  }

  /** Only an acknowledgment by hand opens a gap. */
  lemma GapsAreByHand(ns: seq<Net>, ss: seq<Step>, k: nat)
    requires IsRun(ns, ss) && k < |ns| && ns[k].released == {}
    ensures Gapless(ns[k])
  {
    Reachable(ns, ss, k);
  }

  /** And one is enough: an event acknowledged by hand before it was sent keeps all later ones in the outbox. */
  lemma ReleaseJams(e: Event, f: Event) returns (ns: seq<Net>, ss: seq<Step>)
    requires e.sequence == 1 && f.sequence == 2
    ensures IsRun(ns, ss) && |ss| == 3 && ns[3].mem.events == [f]
    ensures Rested(ns[3]) && forall k: nat :: Rounds(ns[3], k).mem.events == [f]
  {
    hide Inv, Rounds, IsRun;
    var log := Fleet.Log(map[], 0);
    var n0 := Both(Box(0, []), [], None, log, {}, {});
    ns, ss := [n0], [];
    Starts(n0);
    var n1 := Both(Box(1, [e]), [e], None, log, {}, {});
    assert [] + [e] == [e];
    Continues(ns, ss, Append(e.jobID, e.state, e.time, Durable), n1);
    ns, ss := ns + [n1], ss + [Append(e.jobID, e.state, e.time, Durable)];
    var n2 := Both(Box(1, []), [e], None, log, {}, {}).(released := {1});
    ReleasesOne(e);
    Continues(ns, ss, Operator(1, Durable), n2);
    ns, ss := ns + [n2], ss + [Operator(1, Durable)];
    var n3 := Both(Box(2, [f]), [e, f], None, log, {}, {}).(released := {1});
    assert [] + [f] == [f] && [e] + [f] == [e, f];
    Continues(ns, ss, Append(f.jobID, f.state, f.time, Durable), n3);
    ns, ss := ns + [n3], ss + [Append(f.jobID, f.state, f.time, Durable)];
    RunLength(ns, ss);
    Reachable(ns, ss, 3);
    assert 1 !in n3.log.store;
    forall k: nat ensures Rounds(n3, k).mem.events == [f] {
      Drains(n3, k);
    }
  }

  lemma ReleasesOne(e: Event)
    requires e.sequence == 1
    ensures DropAcked([e], 1) == [] && NumbersUpTo([e], 1) == {1}
  {
    assert DropAcked([e], 1) == DropAcked([e][1..], 1);
    assert [e][0].sequence in NumbersUpTo([e], 1);
  }
}
