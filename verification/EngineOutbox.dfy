/**
 The engine's journal as the client of the outbox protocol: engine steps, the network and the server side by side.
 */
module EngineOutbox {
  import opened Model
  import opened Journal
  import E = Engine
  import I = EngineInvariant
  import EngineWrites
  import EngineRuns
  import T = EngineTheorems
  import O = Outbox

  /** The agent's side of the protocol is the engine's journal. */
  predicate Matches(w: E.World, n: O.Net) {
    n.disk == O.BoxOf(w.disk) && n.mem == O.BoxOf(w.mem) && n.poisoned == w.poisoned
  }

  /** A journal write that only reports failure, seen from the outbox: an acknowledgment of nothing that fails. */
  const SILENT_FAILURE := O.Operator(0, FailedLost)

  /** What an engine step is to the protocol, if it is anything. An acknowledgment by hand is an operator's. */
  function ClientStep(cfg: E.Config, w: E.World, l: E.Label): Option<O.Step> {
    match l
    case Write(_, outcome) =>
      if w.poisoned || E.Change(w.todo, w.mem, w.clock).None? then None
      else if w.todo.AcceptJob? || w.todo.SaveJob? then
        Some(O.Append(w.todo.job.assignment.jobID, w.todo.job.state, w.clock, outcome))
      else if outcome.Durable? then None
      else Some(SILENT_FAILURE)
    case Ack(sequence, _, outcome) => Some(O.Operator(sequence, outcome))
    case Crash => Some(O.Crash)
    case DeviceBoots(_) => Some(O.Crash)
    case _ => None
  }

  ghost predicate Does(n: O.Net, s: Option<O.Step>, n': O.Net) {
    match s
    case None => n' == n
    case Some(step) => O.Enabled(n, step) && n' == O.Apply(n, step)
  }

  // ---------------------------------------------------------------- every engine step is a client step

  /** What an engine write does to the outbox. */
  lemma WriteBoxes(cfg: E.Config, w: E.World, spilled: set<string>, outcome: Outcome)
    requires I.Inv(cfg, w) && E.Enabled(cfg, w, E.Write(spilled, outcome))
    ensures var v := E.DoWrite(cfg, w, spilled, outcome); var c := E.Change(w.todo, w.mem, w.clock);
            if w.poisoned || c.None? then v.disk == w.disk && v.mem == w.mem && v.poisoned == w.poisoned
            else && O.BoxOf(v.disk) == (if outcome.FailedLost? then O.BoxOf(w.disk) else O.BoxOf(c.value))
                 && O.BoxOf(v.mem) == (if outcome.Durable? then O.BoxOf(c.value) else O.BoxOf(w.mem))
                 && v.poisoned == !outcome.Durable?
  {
    hide I.Inv, Journal.Valid, Spills, E.AfterWrite, E.Change, E.Committed', O.BoxOf;
    var c := E.Change(w.todo, w.mem, w.clock);
    if c.Some? && !w.poisoned {
      EngineRuns.WritesAreValid(cfg, w, spilled, outcome);
      EngineRuns.ChangeKeepsJobs(cfg, w.todo, w.mem, w.clock, spilled);
      BoxesMatch(w, c.value, spilled, outcome);
    }
  }

  lemma WriteMatches(cfg: E.Config, w: E.World, spilled: set<string>, outcome: Outcome, n: O.Net, n': O.Net)
    requires I.Inv(cfg, w) && Matches(w, n) && E.Enabled(cfg, w, E.Write(spilled, outcome))
    requires Does(n, ClientStep(cfg, w, E.Write(spilled, outcome)), n')
    ensures Matches(E.DoWrite(cfg, w, spilled, outcome), n')
  {
    hide I.Inv, Journal.Valid, Spills, E.Change, E.DoWrite, DropAcked;
    T.InSync(cfg, w);
    WriteBoxes(cfg, w, spilled, outcome);
    var c := E.Change(w.todo, w.mem, w.clock);
    if c.Some? && !w.poisoned {
      ChangeBox(w.todo, w.mem, w.clock);
      NothingAcked(cfg, w);
    }
  }

  lemma NothingAcked(cfg: E.Config, w: E.World)
    requires I.Inv(cfg, w)
    ensures DropAcked(w.mem.events, 0) == w.mem.events
  {
    hide I.Agrees, I.Increasing, I.InstallsOnce, I.Healthy, I.Synced, I.Allowed, I.WriterOwned;
  }

  lemma ChangeBox(t: E.Todo, d: Database, now: int)
    requires E.Change(t, d, now).Some?
    ensures var b := O.BoxOf(E.Change(t, d, now).value);
            if t.AcceptJob? || t.SaveJob?
            then b == O.Pushed(O.BoxOf(d), Event(d.eventSequence + 1, t.job.assignment.jobID, t.job.state, now))
                 && |d.events| < OUTBOX_LIMIT
            else b == O.BoxOf(d)
  {
  }

  lemma BoxesMatch(w: E.World, c: Database, spilled: set<string>, outcome: Outcome)
    requires spilled <= c.jobs.Keys
    ensures var v := E.Committed'(w, c, spilled, outcome);
            && O.BoxOf(v.disk) == (if outcome.FailedLost? then O.BoxOf(w.disk) else O.BoxOf(c))
            && O.BoxOf(v.mem) == (if outcome.Durable? then O.BoxOf(c) else O.BoxOf(w.mem))
            && v.poisoned == (w.poisoned || !outcome.Durable?)
  {
  }

  lemma AckMatches(cfg: E.Config, w: E.World, sequence: nat, spilled: set<string>, outcome: Outcome, n: O.Net)
    requires I.Inv(cfg, w) && Matches(w, n) && E.Enabled(cfg, w, E.Ack(sequence, spilled, outcome))
    ensures Matches(E.Apply(cfg, w, E.Ack(sequence, spilled, outcome)), O.Drop(n, sequence, outcome))
  {
    hide I.Inv, Journal.Valid, Spills, DropAcked, E.Committed';
    var c := Acked(w.mem, sequence);
    if c.Some? && !w.poisoned {
      EngineRuns.AcksAreValid(cfg, w, sequence, spilled, outcome);
      EngineRuns.AckKeepsJobs(cfg, w.mem, sequence, spilled);
      BoxesMatch(w, c.value, spilled, outcome);
    }
  }

  lemma RestMatches(cfg: E.Config, w: E.World, l: E.Label, n: O.Net, n': O.Net)
    requires Matches(w, n) && E.Enabled(cfg, w, l) && Does(n, ClientStep(cfg, w, l), n') && !l.Write? && !l.Ack?
    ensures Matches(E.Apply(cfg, w, l), n')
  {
    hide E.Decide, E.DecideSubmit, E.DecideReboot, E.DecideAbort, E.AfterInspect, Marked, FindSlot, E.IsLatest;
  }

  /** Every step of the engine is the step of the protocol that `ClientStep` names, or leaves the agent's side alone. */
  lemma EngineStepsAreClientSteps(cfg: E.Config, w: E.World, l: E.Label, w': E.World, n: O.Net, n': O.Net)
    requires I.Inv(cfg, w) && E.Next(cfg, w, l, w') && Matches(w, n) && Does(n, ClientStep(cfg, w, l), n')
    ensures Matches(w', n')
  {
    hide I.Inv, Journal.Valid, Spills, E.Decide, E.DecideSubmit, E.Begin, E.AfterInspect, Marked, FindSlot, DropAcked,
         E.Change, E.DoWrite, O.Drop, O.AppendEvent;
    if l.Write? {
      WriteMatches(cfg, w, l.spilled, l.outcome, n, n');
    } else if l.Ack? {
      AckMatches(cfg, w, l.sequence, l.spilled, l.outcome, n);
    } else {
      RestMatches(cfg, w, l, n, n');
    }
  }

  // ---------------------------------------------------------------- engine, network and server together

  datatype Move =
    | EngineMoves(l: E.Label)                                          // an acknowledgment among them is an operator's
    | NetworkMoves(s: O.Step)                                          // a request leaves, arrives or is given up
    | ReplyArrives(sequence: nat, spilled: set<string>, outcome: Outcome)

  ghost predicate JointNext(cfg: E.Config, w: E.World, n: O.Net, m: Move, w': E.World, n': O.Net) {
    match m
    case EngineMoves(l) => E.Next(cfg, w, l, w') && Does(n, ClientStep(cfg, w, l), n')
    case NetworkMoves(s) => (s.Send? || s.Deliver? || s.GiveUp?) && w' == w && Does(n, Some(s), n')
    case ReplyArrives(sequence, spilled, outcome) =>
      && Does(n, Some(O.Receive(sequence, outcome)), n')
      && (if sequence > O.Last(n.waiting.value) then w' == w
          else E.Next(cfg, w, E.Ack(sequence, spilled, outcome), w'))
  }

  ghost predicate JointMoves(cfg: E.Config, ws: seq<E.World>, ns: seq<O.Net>, ms: seq<Move>, i: nat)
    requires i < |ms| && |ws| == |ms| + 1 == |ns|
  {
    JointNext(cfg, ws[i], ns[i], ms[i], ws[i + 1], ns[i + 1])
  }

  ghost predicate IsJointRun(cfg: E.Config, ws: seq<E.World>, ns: seq<O.Net>, ms: seq<Move>) {
    && |ws| == |ms| + 1 == |ns| && E.Init(ws[0]) && O.Init(ns[0])
    && forall i | 0 <= i < |ms| :: JointMoves(cfg, ws, ns, ms, i)
  }

  lemma JointKeep(cfg: E.Config, w: E.World, n: O.Net, m: Move, w': E.World, n': O.Net)
    requires I.Inv(cfg, w) && O.Inv(n) && Matches(w, n) && JointNext(cfg, w, n, m, w', n')
    ensures I.Inv(cfg, w') && O.Inv(n') && Matches(w', n')
  {
    hide I.Inv, O.Inv, E.Enabled, E.Apply, ClientStep, O.Drop;
    match m
    case EngineMoves(l) =>
      EngineWrites.Keep(cfg, w, l);
      EngineStepsAreClientSteps(cfg, w, l, w', n, n');
      if ClientStep(cfg, w, l).Some? {
        O.Keep(n, ClientStep(cfg, w, l).value);
      }
    case NetworkMoves(s) =>
      O.Keep(n, s);
    case ReplyArrives(sequence, spilled, outcome) =>
      O.Keep(n, O.Receive(sequence, outcome));
      if sequence <= O.Last(n.waiting.value) {
        EngineWrites.Keep(cfg, w, E.Ack(sequence, spilled, outcome));
        AckMatches(cfg, w, sequence, spilled, outcome, n);
      }
  }

  lemma {:induction false} JointReachable(cfg: E.Config, ws: seq<E.World>, ns: seq<O.Net>, ms: seq<Move>, k: nat)
    requires IsJointRun(cfg, ws, ns, ms) && k < |ws|
    ensures I.Inv(cfg, ws[k]) && O.Inv(ns[k]) && Matches(ws[k], ns[k])
  {
    hide I.Inv, O.Inv, JointNext;
    if k == 0 {
      I.InitInv(cfg, ws[0]);
      O.InitInv(ns[0]);
    } else {
      JointReachable(cfg, ws, ns, ms, k - 1);
      assert JointMoves(cfg, ws, ns, ms, k - 1);
      JointKeep(cfg, ws[k - 1], ns[k - 1], ms[k - 1], ws[k], ns[k]);
    }
  }

  /**
   No event of the engine is lost: with crashes, reboots, failed commits, lost, late and repeated messages and events
   journalled meanwhile, each event the engine ever numbered is in its durable outbox, or stored at the server with
   the same content, or was released by an operator.
   */
  lemma NoEngineEventLost(cfg: E.Config, ws: seq<E.World>, ns: seq<O.Net>, ms: seq<Move>, k: nat, i: nat)
    requires IsJointRun(cfg, ws, ns, ms) && k < |ws| && i < ws[k].disk.eventSequence
    ensures |ns[k].journal| == ws[k].disk.eventSequence
    ensures var e := ns[k].journal[i];
            && e.sequence == i + 1
            && (|| e in ws[k].disk.events
                || (e.sequence in ns[k].log.store && ns[k].log.store[e.sequence] == e)
                || e.sequence in ns[k].released)
  {
    hide I.Inv, JointMoves;
    JointReachable(cfg, ws, ns, ms, k);
    O.Accounted(ns[k], i);
  }

  /** Every event in the engine's durable outbox is one of the numbered journal. */
  lemma OutboxIsJournal(cfg: E.Config, ws: seq<E.World>, ns: seq<O.Net>, ms: seq<Move>, k: nat, e: Event)
    requires IsJointRun(cfg, ws, ns, ms) && k < |ws| && e in ws[k].disk.events
    ensures 0 < e.sequence <= |ns[k].journal| && ns[k].journal[e.sequence - 1] == e
  {
    hide I.Inv, JointMoves;
    JointReachable(cfg, ws, ns, ms, k);
    var n := ns[k];
    var i :| 0 <= i < |n.disk.events| && n.disk.events[i] == e;
    assert n.disk.events[i] == n.journal[n.disk.last - |n.disk.events| + i];
  }
}
