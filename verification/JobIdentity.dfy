/**
 What a submission with a used job ID does (internal/ota/engine.go, docs/ARCHITECTURE.md). The documentation promises
 that a different assignment with the same ID is rejected. The engine looks only at the hot journal, so the promise
 ends when compaction moves the job to the archive.
 */
module JobIdentity {
  import opened Model
  import opened Journal
  import opened Engine
  import opened EngineInvariant
  import EngineWrites
  import EngineRuns

  /** Submit and its journal write, when nothing fails. */
  function Submitted(cfg: Config, w: World, a: Assignment, verified: bool, now: int, spilled: set<string>): World
    requires w.todo.Idle?
    requires var t := Apply(cfg, w, Submit(a, verified, now)).todo;
             var c := Change(t, w.mem, w.clock); c.Some? ==> spilled <= c.value.jobs.Keys
  {
    var v := Apply(cfg, w, Submit(a, verified, now));
    if IsWrite(v.todo) then DoWrite(cfg, v, spilled, Durable) else v
  }

  /** What a caller could check beforehand. */
  predicate Admissible(cfg: Config, d: Database, a: Assignment, verified: bool, now: int) {
    && IsIdentifier(a.jobID) && a.deviceID == cfg.deviceID
    && a.jobID !in d.jobs
    && verified && cfg.SequenceOf(a) > d.highSequence
    && now < a.deadline && a.notBefore < a.deadline <= cfg.decode(a.release.payload).expires
    && d.active == "" && |d.events| <= OUTBOX_HIGH_WATER
  }

  /** The first record of a job: nothing has been done for it yet. */
  predicate Untouched(cfg: Config, a: Assignment, j: Job) {
    && j.assignment == a && j.release == cfg.decode(a.release.payload) && j.fingerprint == FingerprintOf(a)
    && j.state == Accepted && j.oldSlot == "" && j.targetSlot == "" && j.healthStarted.None?
    && !j.rebootRequested && !j.deferred && !j.payloadsApplied
  }

  /**
   A submission makes a job exactly when it is admissible, and otherwise changes nothing durable. An ID that is in the
   archive and not in the hot journal is no obstacle: the old record stays, and the new job is active beside it.
   */
  lemma SubmitExactly(cfg: Config, w: World, a: Assignment, verified: bool, now: int, spilled: set<string>)
    requires EngineInvariant.Inv(cfg, w) && !w.poisoned && w.todo.Idle?
    requires var t := Apply(cfg, w, Submit(a, verified, now)).todo;
             var c := Change(t, w.mem, w.clock); c.Some? ==> Spills(cfg.hotLimit, c.value, spilled)
    ensures var v := Submitted(cfg, w, a, verified, now, spilled);
            if Admissible(cfg, w.mem, a, verified, now)
            then v.accepted == w.accepted + [a] && ActiveJob(v.disk).Some?
                 && Untouched(cfg, a, ActiveJob(v.disk).value) && v.disk.highSequence == cfg.SequenceOf(a)
                 && (a.jobID in w.archive ==> a.jobID in v.archive && v.archive[a.jobID] == w.archive[a.jobID])
            else v.accepted == w.accepted && v.disk == w.disk && v.archive == w.archive
  {
    hide EngineInvariant.Inv, Journal.Valid, IsIdentifier, Spills, DecideSubmit;
    Proceeds(cfg, w.mem, a, verified, now);
    var s := Submit(a, verified, now);
    var v := Apply(cfg, w, s);
    EngineWrites.Keep(cfg, w, s);
    Same(cfg, w);
    if IsWrite(v.todo) && Change(v.todo, v.mem, v.clock).Some? {
      EngineRuns.WritesAreValid(cfg, v, spilled, Durable);
      ActiveStays(cfg.hotLimit, Change(v.todo, v.mem, v.clock).value, spilled);
    }
  }

  /** What goes on to the journal, and with which record. */
  lemma Proceeds(cfg: Config, d: Database, a: Assignment, verified: bool, now: int)
    ensures var r := DecideSubmit(cfg, d, a, verified, now);
            && (r.Proceed? <==>
                  && IsIdentifier(a.jobID) && a.deviceID == cfg.deviceID && a.jobID !in d.jobs
                  && verified && cfg.SequenceOf(a) > 0
                  && now < a.deadline && a.notBefore < a.deadline <= cfg.decode(a.release.payload).expires)
            && (r.Proceed? ==> Untouched(cfg, a, r.job))
  {
    hide IsIdentifier;
  }

  lemma Same(cfg: Config, w: World)
    requires EngineInvariant.Inv(cfg, w) && !w.poisoned
    ensures w.mem == w.disk
  {
    hide Agrees, Books, Increasing, InstallsOnce, Healthy, FindSlot, Allowed, WriterOwned;
  }

  lemma ActiveStays(limit: nat, d: Database, spilled: set<string>)
    requires Spills(limit, d, spilled)
    ensures d.active !in spilled && spilled <= d.jobs.Keys
  {
  }
}
