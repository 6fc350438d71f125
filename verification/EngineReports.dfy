/**
 What the fleet learns about jobs (internal/ota/engine.go, internal/ota/fleet.go, internal/fleetref/server.go): the
 events of the engine's journal, taken together, tell the durable state of every job in the hot journal.
 */
module EngineReports {
  import opened Model
  import opened Journal
  import E = Engine
  import I = EngineInvariant
  import EngineRuns
  import T = EngineTheorems
  import O = Outbox
  import X = EngineOutbox
  import D = OutboxDrain

  predicate LastOf(journal: seq<Event>, i: nat, id: string) {
    && i < |journal| && journal[i].jobID == id
    && forall k | i < k < |journal| :: journal[k].jobID != id
  }

  /** The last event of the job tells this state. */
  ghost predicate Tells(journal: seq<Event>, id: string, state: JobState) {
    exists i: nat :: LastOf(journal, i, id) && journal[i].state == state
  }

  ghost predicate Reported(jobs: map<string, Job>, journal: seq<Event>) {
    forall id | id in jobs :: Tells(journal, id, jobs[id].state)
  }

  lemma TellsMore(journal: seq<Event>, e: Event, id: string, state: JobState)
    requires if e.jobID == id then e.state == state else Tells(journal, id, state)
    ensures Tells(journal + [e], id, state)
  {
    var more := journal + [e];
    if e.jobID == id {
      assert LastOf(more, |journal|, id);
    } else {
      var i: nat :| LastOf(journal, i, id) && journal[i].state == state;
      assert LastOf(more, i, id) && more[i] == journal[i];
    }
  }

  // ---------------------------------------------------------------- every step

  /** The jobs a pending write would leave: the job it saves, and the others as they are. */
  lemma ChangedJobs(t: E.Todo, d: Database, now: int)
    requires E.Change(t, d, now).Some?
    ensures var jobs := E.Change(t, d, now).value.jobs;
            if t.AcceptJob? || t.SaveJob? then
              && t.job.assignment.jobID in jobs && jobs[t.job.assignment.jobID].state == t.job.state
              && forall id | id in jobs && id != t.job.assignment.jobID :: id in d.jobs && jobs[id] == d.jobs[id]
            else jobs == d.jobs
  {
  }

  /** The hot journal after a write. */
  lemma JobsAfterWrite(cfg: E.Config, w: E.World, spilled: set<string>, outcome: Outcome)
    requires I.Inv(cfg, w) && E.Enabled(cfg, w, E.Write(spilled, outcome))
    ensures var c := E.Change(w.todo, w.mem, w.clock);
            E.DoWrite(cfg, w, spilled, outcome).disk.jobs
            == if w.poisoned || c.None? || outcome.FailedLost? then w.disk.jobs else c.value.jobs - spilled
  {
    hide I.Inv, Journal.Valid, Spills, E.Change, E.AfterWrite, E.Archived;
    var c := E.Change(w.todo, w.mem, w.clock);
    if c.Some? && !w.poisoned {
      EngineRuns.WritesAreValid(cfg, w, spilled, outcome);
      EngineRuns.ChangeKeepsJobs(cfg, w.todo, w.mem, w.clock, spilled);
    }
  }

  /** The numbered events after a write. */
  lemma JournalAfterWrite(cfg: E.Config, w: E.World, spilled: set<string>, outcome: Outcome, n: O.Net, n': O.Net)
    requires X.Matches(w, n) && X.Does(n, X.ClientStep(cfg, w, E.Write(spilled, outcome)), n')
    ensures var t := w.todo;
            n'.journal
            == if !w.poisoned && E.Change(t, w.mem, w.clock).Some? && !outcome.FailedLost?
                  && (t.AcceptJob? || t.SaveJob?)
               then n.journal + [Event(n.mem.last + 1, t.job.assignment.jobID, t.job.state, w.clock)]
               else n.journal
  {
    hide E.Change, O.Drop, O.NumbersUpTo;
    DropsNoHistory(n, 0, FailedLost);
    if E.Change(w.todo, w.mem, w.clock).Some? {
      X.ChangeBox(w.todo, w.mem, w.clock);
    }
  }

  lemma WriteReports(cfg: E.Config, w: E.World, spilled: set<string>, outcome: Outcome, n: O.Net, n': O.Net)
    requires I.Inv(cfg, w) && X.Matches(w, n) && E.Enabled(cfg, w, E.Write(spilled, outcome))
    requires X.Does(n, X.ClientStep(cfg, w, E.Write(spilled, outcome)), n')
    requires Reported(w.disk.jobs, n.journal)
    ensures Reported(E.DoWrite(cfg, w, spilled, outcome).disk.jobs, n'.journal)
  {
    hide I.Inv, X.Matches, X.Does, E.Enabled, E.Change, E.DoWrite, Tells;
    T.InSync(cfg, w);
    WriteIsApply(cfg, w, spilled, outcome);
    JobsAfterWrite(cfg, w, spilled, outcome);
    JournalAfterWrite(cfg, w, spilled, outcome, n, n');
    var c := E.Change(w.todo, w.mem, w.clock);
    if c.Some? && !w.poisoned && !outcome.FailedLost? {
      ChangedJobs(w.todo, w.mem, w.clock);
      if w.todo.AcceptJob? || w.todo.SaveJob? {
        var j := w.todo.job;
        var e := Event(n.mem.last + 1, j.assignment.jobID, j.state, w.clock);
        forall id | id in c.value.jobs ensures Tells(n.journal + [e], id, c.value.jobs[id].state) {
          TellsMore(n.journal, e, id, c.value.jobs[id].state);
        }
      }
    }
  }

  lemma DropsNoHistory(n: O.Net, sequence: nat, outcome: Outcome)
    ensures O.Drop(n, sequence, outcome).journal == n.journal
  {
  }

  lemma AckReports(cfg: E.Config, w: E.World, sequence: nat, spilled: set<string>, outcome: Outcome)
    requires I.Inv(cfg, w) && E.Enabled(cfg, w, E.Ack(sequence, spilled, outcome))
    ensures var jobs := E.Apply(cfg, w, E.Ack(sequence, spilled, outcome)).disk.jobs;
            forall id | id in jobs :: id in w.disk.jobs && jobs[id] == w.disk.jobs[id]
  {
    hide I.Inv, Journal.Valid, Spills, DropAcked, E.Archived;
    T.InSync(cfg, w);
    if Acked(w.mem, sequence).Some? {
      EngineRuns.AckKeepsJobs(cfg, w.mem, sequence, spilled);
    }
  }

  lemma RestReports(cfg: E.Config, w: E.World, l: E.Label, n: O.Net, n': O.Net)
    requires E.Enabled(cfg, w, l) && X.Does(n, X.ClientStep(cfg, w, l), n') && !l.Write? && !l.Ack?
    ensures E.Apply(cfg, w, l).disk == w.disk && n'.journal == n.journal
  {
    hide E.Decide, E.DecideSubmit, E.DecideReboot, E.DecideAbort, E.AfterInspect, Marked, FindSlot, E.IsLatest;
  }

  lemma ReportedStep(cfg: E.Config, w: E.World, n: O.Net, m: X.Move, w': E.World, n': O.Net)
    requires I.Inv(cfg, w) && X.Matches(w, n) && X.JointNext(cfg, w, n, m, w', n')
    requires Reported(w.disk.jobs, n.journal)
    ensures Reported(w'.disk.jobs, n'.journal)
  {
    hide I.Inv, E.Enabled, E.Apply, O.Drop, Tells, X.Matches, X.ClientStep;
    match m
    case EngineMoves(l) =>
      if l.Write? {
        WriteIsApply(cfg, w, l.spilled, l.outcome);
        WriteReports(cfg, w, l.spilled, l.outcome, n, n');
      } else if l.Ack? {
        AckReports(cfg, w, l.sequence, l.spilled, l.outcome);
        AckKeepsHistory(cfg, w, l, n, n');
      } else {
        RestReports(cfg, w, l, n, n');
      }
    case NetworkMoves(s) =>
    case ReplyArrives(sequence, spilled, outcome) =>
      DropsNoHistory(n, sequence, outcome);
      if sequence <= O.Last(n.waiting.value) {
        AckReports(cfg, w, sequence, spilled, outcome);
      }
  }

  lemma WriteIsApply(cfg: E.Config, w: E.World, spilled: set<string>, outcome: Outcome)
    requires E.Enabled(cfg, w, E.Write(spilled, outcome))
    ensures E.IsWrite(w.todo)
    ensures var c := E.Change(w.todo, w.mem, w.clock); c.Some? ==> spilled <= c.value.jobs.Keys
    ensures E.Apply(cfg, w, E.Write(spilled, outcome)) == E.DoWrite(cfg, w, spilled, outcome)
  {
    hide E.Change, E.DoWrite;
  }

  lemma AckKeepsHistory(cfg: E.Config, w: E.World, l: E.Label, n: O.Net, n': O.Net)
    requires l.Ack? && X.Does(n, X.ClientStep(cfg, w, l), n')
    ensures n'.journal == n.journal
  {
    hide O.Drop, O.NumbersUpTo;
    DropsNoHistory(n, l.sequence, l.outcome);
  }

  // ---------------------------------------------------------------- whole runs

  /**
   In every run, through crashes, reboots and failed commits, the last event that the journal ever numbered for a job
   tells that job's durable state.
   */
  lemma {:induction false} LastEventTellsState(cfg: E.Config, ws: seq<E.World>, ns: seq<O.Net>, ms: seq<X.Move>, k: nat)
    requires X.IsJointRun(cfg, ws, ns, ms) && k < |ws|
    ensures Reported(ws[k].disk.jobs, ns[k].journal)
  {
    hide I.Inv, O.Inv, X.JointNext, Tells;
    if k > 0 {
      LastEventTellsState(cfg, ws, ns, ms, k - 1);
      X.JointReachable(cfg, ws, ns, ms, k - 1);
      assert X.JointMoves(cfg, ws, ns, ms, k - 1);
      ReportedStep(cfg, ws[k - 1], ns[k - 1], ms[k - 1], ws[k], ns[k]);
    }
  }

  /** The stored event of the job with the largest number has this state. */
  ghost predicate ServerTells(store: map<nat, Event>, id: string, state: JobState) {
    exists m | m in store ::
      && store[m].jobID == id && store[m].state == state
      && forall o | o in store && o > m :: store[o].jobID != id
  }

  lemma StoredTells(n: O.Net, id: string, state: JobState)
    requires O.Inv(n) && D.HoldsAll(n.log.store, n.journal) && Tells(n.journal, id, state)
    ensures ServerTells(n.log.store, id, state)
  {
    hide O.Copy, O.Safe, O.SentRight;
    var i: nat :| LastOf(n.journal, i, id) && n.journal[i].state == state;
    assert i + 1 in n.log.store && n.log.store[i + 1] == n.journal[i];
    forall o | o in n.log.store && o > i + 1 ensures n.log.store[o].jobID != id {
      assert n.log.store[o] == n.journal[o - 1];
    }
  }

  /**
   From any moment of any run at which no number before the outbox is missing at the server, undisturbed
   synchronisations bring the server to where the last event it stores for each job tells the job's durable state.
   */
  lemma FleetLearnsStates(cfg: E.Config, ws: seq<E.World>, ns: seq<O.Net>, ms: seq<X.Move>, k: nat, id: string)
    requires X.IsJointRun(cfg, ws, ns, ms) && k < |ws| && id in ws[k].disk.jobs
    requires D.Rested(ns[k]) && D.Gapless(ns[k])
    ensures ServerTells(D.Rounds(ns[k], |ns[k].mem.events|).log.store, id, ws[k].disk.jobs[id].state)
  {
    hide I.Inv, O.Inv, D.Gapless, D.HoldsAll, X.JointMoves, Tells, D.Rounds, ServerTells;
    X.JointReachable(cfg, ws, ns, ms, k);
    LastEventTellsState(cfg, ws, ns, ms, k);
    D.EmptiesExactly(ns[k]);
    D.Drains(ns[k], |ns[k].mem.events|);
    StoredTells(D.Rounds(ns[k], |ns[k].mem.events|), id, ws[k].disk.jobs[id].state);
  }
}
