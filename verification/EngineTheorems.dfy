/**
 What holds in every run of the engine: with crashes between any two writes or backend calls, reboots into
 any slot, installs that outlive the agent, lost and half-lost commits, and clocks that jump.
 */
module EngineTheorems {
  import opened Model
  import opened Journal
  import opened Engine
  import opened EngineInvariant
  import opened EngineProof
  import opened EngineWrites

  lemma {:induction false} Reachable(cfg: Config, ws: seq<World>, ls: seq<Label>, k: nat)
    requires IsRun(cfg, ws, ls) && k < |ws|
    ensures Inv(cfg, ws[k])
  {
    hide Inv, Apply, Enabled;
    if k == 0 {
      InitInv(cfg, ws[0]);
    } else {
      Reachable(cfg, ws, ls, k - 1);
      assert Next(cfg, ws[k - 1], ls[k - 1], ws[k]);
      Keep(cfg, ws[k - 1], ls[k - 1]);
    }
  }

  // ---------------------------------------------------------------- the old slot

  /** The durable job, while it is in flight, pins what a marking program may touch. */
  lemma MarkSparesOld(cfg: Config, w: World, j: Job)
    requires Inv(cfg, w) && w.todo.CallMark? && ActiveJob(w.disk) == Some(j) && InFlight(j.state)
    ensures w.todo.kind == Active || w.todo.slot != j.oldSlot
  {
    hide Books, Increasing, InstallsOnce, Healthy, Licensed, FindSlot;
  }

  lemma InstallSparesOld(cfg: Config, w: World, j: Job)
    requires Inv(cfg, w) && w.todo.CallInstall? && ActiveJob(w.disk) == Some(j)
    ensures w.dev.booted == j.oldSlot
  {
    hide Books, Increasing, InstallsOnce, Healthy, Licensed, Agrees, Program;
  }

  lemma WriterSparesOld(cfg: Config, w: World, j: Job)
    requires Inv(cfg, w) && w.writer && ActiveJob(w.disk) == Some(j) && InFlight(j.state)
    ensures w.dev.booted == j.oldSlot
  {
    hide Books, Increasing, InstallsOnce, Healthy, Allowed, Program;
  }

  /** No step, of the engine or of its environment, changes the old slot of a job in flight. */
  lemma StepSparesOld(cfg: Config, w: World, l: Label, w': World, j: Job)
    requires Inv(cfg, w) && Next(cfg, w, l, w') && ActiveJob(w.disk) == Some(j) && InFlight(j.state)
    ensures SlotOf(w'.dev, j.oldSlot) == SlotOf(w.dev, j.oldSlot)
  {
    hide Inv, Decide, DecideSubmit, DecideReboot, DecideAbort, IsLatest, Change, Attempt, FindSlot;
    match l
    case Mark(_, _) =>
      MarkSparesOld(cfg, w, j);
      MarkedSlots(w.dev, w.todo.kind, w.todo.slot, j.oldSlot);
    case Install(after, _, _) =>
      InstallSparesOld(cfg, w, j);
      InstallKeepsSlots(w.dev, after);
    case BackendWrites(after, _) =>
      WriterSparesOld(cfg, w, j);
      InstallKeepsSlots(w.dev, after);
    case _ =>
  }

  // ---------------------------------------------------------------- what a write may record

  /** Step `w` to `w'` puts a new or changed record for `id` into the durable journal. */
  predicate Records(w: World, w': World, id: string) {
    id in w'.disk.jobs && (id in w.disk.jobs ==> w.disk.jobs[id] != w'.disk.jobs[id])
  }

  lemma InSync(cfg: Config, w: World)
    requires Inv(cfg, w)
    ensures !w.poisoned ==> w.mem == w.disk
  {
    hide Agrees, Books, Increasing, Allowed, InstallsOnce, Healthy, Lag;
  }

  lemma DiskIsWritten(cfg: Config, w: World, l: Label, w': World)
    requires Next(cfg, w, l, w') && !l.Write? && !l.Ack?
    ensures w'.disk == w.disk && w'.archive == w.archive && w'.accepted == w.accepted
  {
    hide Decide, DecideSubmit, DecideReboot, DecideAbort, IsLatest, AfterInspect, Marked, InstallMayYield, FindSlot;
  }

  lemma AckRecordsNothing(cfg: Config, w: World, l: Label, w': World, id: string)
    requires Next(cfg, w, l, w') && l.Ack? && (!w.poisoned ==> w.mem == w.disk)
    ensures !Records(w, w', id) && w'.accepted == w.accepted
  {
    hide Journal.Valid, DropAcked;
  }

  lemma WriteRecordsOne(cfg: Config, w: World, spilled: set<string>, outcome: Outcome, id: string)
    requires IsWrite(w.todo) && Enabled(cfg, w, Write(spilled, outcome)) && (!w.poisoned ==> w.mem == w.disk)
    requires Records(w, DoWrite(cfg, w, spilled, outcome), id)
    ensures !w.poisoned && (w.todo.SaveJob? || w.todo.AcceptJob?) && w.todo.job.assignment.jobID == id
    ensures DoWrite(cfg, w, spilled, outcome).disk.jobs[id]
            == if w.todo.SaveJob? then w.todo.job.(updated := w.clock) else w.todo.job
    ensures var v := DoWrite(cfg, w, spilled, outcome); v.dev == w.dev && v.installs == w.installs
  {
    hide Journal.Valid, IsLatest;
  }

  /** Only the journal write of an engine call records jobs, and it records the job it was asked to. */
  lemma OnlyWritesRecord(cfg: Config, w: World, l: Label, w': World, id: string)
    requires Inv(cfg, w) && Next(cfg, w, l, w') && Records(w, w', id)
    ensures l.Write? && !w.poisoned && (w.todo.SaveJob? || w.todo.AcceptJob?)
    ensures w.dev == w'.dev && w.installs == w'.installs && w.todo.job.assignment.jobID == id
    ensures w'.disk.jobs[id] == if w.todo.SaveJob? then w.todo.job.(updated := w.clock) else w.todo.job
  {
    hide Inv, DoWrite, Begin, Acked, Attempt, Change, Spills, Decide, DecideSubmit, AfterInspect, Marked, FindSlot;
    InSync(cfg, w);
    if l.Write? {
      WriteRecordsOne(cfg, w, l.spilled, l.outcome, id);
    } else if l.Ack? {
      AckRecordsNothing(cfg, w, l, w', id);
    } else {
      DiskIsWritten(cfg, w, l, w');
    }
  }

  predicate RolledBackRight(j: Job, dev: Device) {
    dev.booted == j.oldSlot && VersionOf(dev, j.oldSlot) == j.oldVersion
  }

  predicate CommittedRight(j: Job, dev: Device) {
    dev.booted == j.targetSlot && VersionOf(dev, j.targetSlot) == j.release.version && GoodOf(dev, j.targetSlot)
  }

  predicate FailedRight(j: Job, dev: Device) {
    j.targetSlot != j.oldSlot && dev.booted == j.oldSlot && dev.primary == j.oldSlot && !GoodOf(dev, j.targetSlot)
  }

  lemma LicensedVerdict(cfg: Config, c: Scene, j0: Job, j: Job)
    requires Licensed(cfg, c, j0, j) && ActiveJob(c.mem) == Some(j0) && NotYetInstalled(c.mem, c.installs)
    requires Agrees(cfg, c.mem, c.dev, c.writer, c.probes)
    ensures j.state == RolledBack ==> RolledBackRight(j, c.dev)
    ensures j.state == Committed ==>
              if j.release.HasOS() then CommittedRight(j, c.dev) else c.installs[j.release.sequence] == 0
    ensures j.state == Failed ==> c.installs[j.release.sequence] == 0 || FailedRight(j, c.dev)
  {
    hide FindSlot;
  }

  /**
   A finished state is journalled only with the device in the matching condition: RolledBack with the old slot
   running the old version, Committed with the new version booted and its slot marked good, Failed either
   before any install or with the old slot booted and primary and the target marked bad.
   */
  lemma VerdictsMatchDevice(cfg: Config, w: World, l: Label, w': World, id: string)
    requires Inv(cfg, w) && Next(cfg, w, l, w') && Records(w, w', id)
    ensures var j := w'.disk.jobs[id];
            && (j.state == RolledBack ==> RolledBackRight(j, w'.dev))
            && (j.state == Committed ==>
                  if j.release.HasOS() then CommittedRight(j, w'.dev) else w'.installs[j.release.sequence] == 0)
            && (j.state == Failed ==> w'.installs[j.release.sequence] == 0 || FailedRight(j, w'.dev))
  {
    OnlyWritesRecord(cfg, w, l, w', id);
    hide Agrees, Books, Increasing, Allowed, InstallsOnce, Healthy, Licensed, Lag, Journal.Valid, FindSlot, Spills,
         AddEvent, Release.HasOS, RolledBackRight, CommittedRight, FailedRight, Next;
    if w.todo.SaveJob? {
      LicensedSave(cfg, w.todo, SceneOf(w));
      InstallsOnceMem(w.installs, w.mem, w.disk);
      LicensedVerdict(cfg, SceneOf(w), ActiveJob(w.mem).value, w.todo.job);
      VerdictIgnoresTime(w.todo.job, w.clock, w.dev);
    } else {
      AcceptAllowed(cfg, SceneOf(w), w.todo.job);
    }
  }

  lemma VerdictIgnoresTime(j: Job, t: int, dev: Device)
    ensures RolledBackRight(j.(updated := t), dev) == RolledBackRight(j, dev)
    ensures CommittedRight(j.(updated := t), dev) == CommittedRight(j, dev)
    ensures FailedRight(j.(updated := t), dev) == FailedRight(j, dev)
  {}

  lemma InstallsOnceMem(installs: multiset<nat>, mem: Database, disk: Database)
    requires InstallsOnce(installs, mem, disk)
    ensures NotYetInstalled(mem, installs)
  {}

  // ---------------------------------------------------------------- marking good

  /**
   When the engine is about to mark a job's target good, the job was found healthy in this very boot: an unbroken
   streak of passed probes, stable for the configured time, that ended inside the job's health window.
   */
  lemma GoodNeedsEvidence(cfg: Config, w: World, j: Job)
    requires Inv(cfg, w) && w.todo.CallMark? && w.todo.kind == Good && ActiveJob(w.mem) == Some(j)
    ensures j.state == Committing && w.todo.slot == j.targetSlot && w.dev.booted == j.targetSlot
    ensures j.bootID == w.dev.bootID && Evidence(cfg, w.probes, j)
  {
    hide Books, Increasing, InstallsOnce, Healthy, Licensed, FindSlot, Evidence;
  }

  /** The health window opens once: no later write, restart or reboot moves it. */
  lemma WindowOpensOnce(cfg: Config, w: World, l: Label, w': World, j: Job, id: string)
    requires Inv(cfg, w) && Next(cfg, w, l, w') && ActiveJob(w.disk) == Some(j) && id == w.disk.active
    requires j.healthStarted.Some? && id in w'.disk.jobs && w'.disk.jobs[id].release.sequence == j.release.sequence
    ensures w'.disk.jobs[id].healthStarted == j.healthStarted
  {
    if Records(w, w', id) {
      OnlyWritesRecord(cfg, w, l, w', id);
      hide Books, Increasing, Allowed, InstallsOnce, Healthy, Licensed, Lag, Journal.Valid, FindSlot, Next;
      if w.todo.SaveJob? {
        LicensedSave(cfg, w.todo, SceneOf(w));
        LicensedWindow(cfg, SceneOf(w), j, w.todo.job);
      } else {
        AcceptNeedsNoActive(cfg, w, l, w', id);
      }
    }
  }

  lemma LicensedWindow(cfg: Config, c: Scene, j0: Job, j: Job)
    requires Licensed(cfg, c, j0, j) && Agrees(cfg, c.mem, c.dev, c.writer, c.probes) && ActiveJob(c.mem) == Some(j0)
    requires j0.healthStarted.Some?
    ensures j.healthStarted == j0.healthStarted
  {}

  lemma AcceptNeedsNoActive(cfg: Config, w: World, l: Label, w': World, id: string)
    requires Inv(cfg, w) && Next(cfg, w, l, w') && Records(w, w', id) && l.Write? && w.todo.AcceptJob?
    ensures w.disk.active == "" && ActiveJob(w.disk).None?
  {
    hide Agrees, Increasing, Allowed, InstallsOnce, Healthy, Lag, Journal.Valid, FindSlot, Spills, Decide, DecideSubmit;
  }
}
