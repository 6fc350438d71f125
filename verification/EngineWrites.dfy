/** Backend calls and journal writes keep the engine invariant. */
module EngineWrites {
  import opened Model
  import opened Journal
  import opened Engine
  import opened EngineInvariant
  import opened EngineProof

  // ---------------------------------------------------------------- backend calls

  lemma AllowedIdle(cfg: Config, c: Scene)
    ensures Allowed(cfg, Idle, c)
  {}

  lemma AllowedInspect(cfg: Config, c: Scene, c': Scene, j: Job)
    requires Allowed(cfg, CallInstall(j), c) && c' == c.(dev := c'.dev, writer := c'.writer, installs := c'.installs)
    requires c'.dev.booted == c.dev.booted
    ensures Allowed(cfg, InspectInstall(j), c') && Allowed(cfg, SaveJob(j.(state := NeedsRecovery), Stop), c')
    ensures ActiveJob(c.mem) == Some(j) && j.state == Installing && c.dev.booted == j.oldSlot && c.durable == Some(j)
            && c.installs[j.release.sequence] == 0
  {}

  lemma InstallsOnceMore(installs: multiset<nat>, mem: Database, disk: Database, j: Job)
    requires InstallsOnce(installs, mem, disk) && j.state == Installing
    requires ActiveJob(mem) == Some(j) && ActiveJob(disk) == Some(j)
    requires j.release.sequence == disk.highSequence && installs[j.release.sequence] == 0
    ensures InstallsOnce(installs + multiset{j.release.sequence}, mem, disk)
  {}

  lemma KeepInstall(cfg: Config, w: World, after: Device, ok: bool, running: bool)
    requires Inv(cfg, w) && Enabled(cfg, w, Install(after, ok, running))
    ensures Inv(cfg, Apply(cfg, w, Install(after, ok, running)))
  {
    hide Agrees, Books, Increasing, Allowed, InstallsOnce, Healthy, FindSlot;
    var j := w.todo.job;
    var v := Apply(cfg, w, Install(after, ok, running));
    AllowedInspect(cfg, SceneOf(w), SceneOf(v), j);
    AgreesInstall(cfg, w.disk, w.dev, after, w.writer, running, w.probes);
    AgreesInstall(cfg, w.mem, w.dev, after, w.writer, running, w.probes);
    SequenceIsHigh(cfg, w.disk, w.dev, w.writer, w.probes);
    InstallsOnceMore(w.installs, w.mem, w.disk, j);
  }

  lemma SequenceIsHigh(cfg: Config, d: Database, dev: Device, writer: bool, probes: seq<Probe>)
    requires Agrees(cfg, d, dev, writer, probes)
    ensures ActiveJob(d).Some? ==> ActiveJob(d).value.release.sequence == d.highSequence
  {}

  lemma KeepInspect(cfg: Config, w: World, statusOk: bool)
    requires Inv(cfg, w) && w.todo.InspectInstall?
    ensures Inv(cfg, w.(todo := AfterInspect(w.todo.job, StatusOf(w, statusOk))))
  {
    hide Agrees, Books, Increasing, Allowed, InstallsOnce, Healthy, Synced, FindSlot;
    AllowedAfterInspect(cfg, SceneOf(w), w.todo.job, statusOk);
  }

  lemma AllowedAfterInspect(cfg: Config, c: Scene, j: Job, statusOk: bool)
    requires Allowed(cfg, InspectInstall(j), c) && (c.writer ==> c.dev.operation.Busy?)
    ensures Allowed(cfg, AfterInspect(j, if statusOk then Some(c.dev) else None), c)
  {}

  lemma AllowedMark(cfg: Config, t: Todo, c: Scene)
    requires Allowed(cfg, t, c) && t.CallMark? && SlotOf(c.dev, t.slot).Some?
    ensures Allowed(cfg, t.next, c.(dev := Marked(c.dev, t.kind, t.slot)))
  {
    MarkedSlots(c.dev, t.kind, t.slot, t.slot);
    if ActiveJob(c.mem).Some? {
      MarkedSlots(c.dev, t.kind, t.slot, ActiveJob(c.mem).value.targetSlot);
    }
  }

  lemma AgreesMark(cfg: Config, d: Database, dev: Device, kind: MarkKind, slot: string, writer: bool,
                   probes: seq<Probe>)
    requires Agrees(cfg, d, dev, writer, probes)
    ensures Agrees(cfg, d, Marked(dev, kind, slot), writer, probes)
  {
    if ActiveJob(d).Some? {
      MarkedSlots(dev, kind, slot, ActiveJob(d).value.oldSlot);
      MarkedSlots(dev, kind, slot, ActiveJob(d).value.targetSlot);
    }
    AgreesHarmless(cfg, d, dev, Marked(dev, kind, slot), writer, writer, probes);
    hide Agrees;
  }

  lemma KeepMark(cfg: Config, w: World, ok: bool, applied: bool)
    requires Inv(cfg, w) && w.todo.CallMark? && (ok ==> applied && SlotOf(w.dev, w.todo.slot).Some?)
    ensures Inv(cfg, w.(dev := if applied then Marked(w.dev, w.todo.kind, w.todo.slot) else w.dev,
                        todo := if ok then w.todo.next else Idle))
  {
    hide Agrees, Books, Increasing, InstallsOnce, Allowed, Healthy, WriterOwned, FindSlot, SetGood;
    AgreesMark(cfg, w.disk, w.dev, w.todo.kind, w.todo.slot, w.writer, w.probes);
    AgreesMark(cfg, w.mem, w.dev, w.todo.kind, w.todo.slot, w.writer, w.probes);
    if ok {
      AllowedMark(cfg, w.todo, SceneOf(w));
    }
    var dev := if applied then Marked(w.dev, w.todo.kind, w.todo.slot) else w.dev;
    AllowedIdle(cfg, SceneOf(w).(dev := dev));
  }

  lemma HealthyBoot(cfg: Config, w: World, boot: nat)
    requires Healthy(w.healthySince, w.healthyFrom, w.probes, w.mem, w.dev.bootID) && boot > w.dev.bootID
    requires Agrees(cfg, w.mem, w.dev, w.writer, w.probes)
    ensures Healthy(w.healthySince, w.healthyFrom, w.probes, w.mem, boot)
  {}

  lemma SyncedBoot(cfg: Config, w: World, dev: Device)
    requires Synced(w.poisoned, w.mem, w.disk, w.dev) && Allowed(cfg, w.todo, SceneOf(w)) && w.todo.CallReboot?
    ensures Synced(w.poisoned, w.mem, w.disk, dev)
  {
    hide Licensed;
  }

  /** A device that reboots under a running agent: the engine asked for it and its call is over. */
  lemma KeepInPlace(cfg: Config, w: World, b: Boot)
    requires Inv(cfg, w) && w.todo.CallReboot? && b.bootID > w.dev.bootID
    ensures Inv(cfg, w.(dev := Booted(w.dev, b), writer := false, todo := Idle))
  {
    hide Agrees, Books, Increasing, InstallsOnce, Allowed, Synced, Healthy, FindSlot;
    var v := w.(dev := Booted(w.dev, b), writer := false, todo := Idle);
    AgreesHarmless(cfg, w.disk, w.dev, v.dev, w.writer, false, w.probes);
    AgreesHarmless(cfg, w.mem, w.dev, v.dev, w.writer, false, w.probes);
    HealthyBoot(cfg, w, b.bootID);
    SyncedBoot(cfg, w, v.dev);
    AllowedIdle(cfg, SceneOf(v));
  }

  lemma KeepReboot(cfg: Config, w: World, ok: bool)
    requires Inv(cfg, w) && w.todo.CallReboot?
    ensures Inv(cfg, w.(todo := Idle))
    ensures w.todo.asked.Some? ==> Inv(cfg, w.(todo := SaveJob(w.todo.asked.value.(rebootRequested := false), Stop)))
  {
    hide Agrees, Books, Increasing, InstallsOnce, Healthy, Synced;
  }

  // ---------------------------------------------------------------- journal writes

  ghost predicate WriteGoesThrough(cfg: Config, t: Todo, d: Database, now: int, spilled: set<string>) {
    && Change(t, d, now).Some?
    && Spills(cfg.hotLimit, Change(t, d, now).value, spilled)
    && Journal.Valid(cfg.hotLimit, Without(Change(t, d, now).value, spilled))
  }

  /** What a snapshot has in common with the one it replaces when only the active job changed. */
  lemma SavedDatabase(cfg: Config, d: Database, j0: Job, t: Todo, now: int, spilled: set<string>)
    requires Books(cfg, d) && ActiveJob(d) == Some(j0) && t.SaveJob? && SameIdentity(t.job, j0)
    requires WriteGoesThrough(cfg, t, d, now, spilled)
    ensures var n := Without(Change(t, d, now).value, spilled);
            && Books(cfg, n) && n.highSequence == d.highSequence && n.bootCheck == d.bootCheck
            && ActiveJob(n) == (if Terminal(t.job.state) then None else Some(t.job.(updated := now)))
            && (!Terminal(t.job.state) ==> n.active == d.active)
  {
    assert JobConsistent(d, d.active);
  }

  lemma AcceptedDatabase(cfg: Config, d: Database, j: Job, now: int, spilled: set<string>)
    requires Books(cfg, d) && j.assignment.jobID != "" && j.state == Accepted
    requires j.release == cfg.decode(j.assignment.release.payload)
    requires WriteGoesThrough(cfg, AcceptJob(j), d, now, spilled)
    ensures var n := Without(Change(AcceptJob(j), d, now).value, spilled);
            && Books(cfg, n) && n.highSequence == j.release.sequence > d.highSequence && n.bootCheck == d.bootCheck
            && ActiveJob(n) == Some(j) && ActiveJob(d).None?
  {}

  /** A write that leaves the jobs alone: boot checks and acknowledgments. */
  lemma OtherDatabase(cfg: Config, d: Database, c: Database, spilled: set<string>)
    requires Books(cfg, d) && c.jobs == d.jobs && c.active == d.active && Spills(cfg.hotLimit, c, spilled)
    requires Journal.Valid(cfg.hotLimit, Without(c, spilled))
    ensures Books(cfg, Without(c, spilled)) && ActiveJob(Without(c, spilled)) == ActiveJob(d)
  {}

  /** A licensed record agrees with the device as its predecessor did. */
  lemma AgreesLicensed(cfg: Config, c: Scene, n: Database, j0: Job, j: Job)
    requires Agrees(cfg, c.mem, c.dev, c.writer, c.probes) && ActiveJob(c.mem) == Some(j0)
    requires Licensed(cfg, c, j0, j) && c.dev.bootID > 0
    requires n.highSequence == c.mem.highSequence && n.bootCheck == c.mem.bootCheck
    requires ActiveJob(n).Some? ==> ActiveJob(n) == Some(j.(updated := ActiveJob(n).value.updated))
    requires c.writer ==> InFlight(j0.state)
    ensures Agrees(cfg, n, c.dev, c.writer, c.probes)
  {
    if ActiveJob(n).Some? && j.state == Committing {
      assert Evidence(cfg, c.probes, ActiveJob(n).value);
    }
  }

  lemma LagLicensed(cfg: Config, c: Scene, n: Database, j0: Job, j: Job)
    requires ActiveJob(c.mem) == Some(j0) && Licensed(cfg, c, j0, j)
    requires n.highSequence == c.mem.highSequence && (ActiveJob(n).Some? ==> n.active == c.mem.active)
    requires ActiveJob(n).Some? ==>
               ActiveJob(n) == Some(j.(updated := ActiveJob(n).value.updated)) && !Terminal(j.state)
    ensures Lag(c.mem, n, c.dev)
  {}

  /** Everything else that a licensed record keeps. */
  lemma RestLicensed(cfg: Config, w: World, n: Database, j0: Job, j: Job)
    requires !w.poisoned && w.mem == w.disk && ActiveJob(w.mem) == Some(j0) && Licensed(cfg, SceneOf(w), j0, j)
    requires n.highSequence == w.mem.highSequence && n.bootCheck == w.mem.bootCheck
    requires ActiveJob(n) == (if Terminal(j.state) then None else Some(j.(updated := w.clock)))
    requires Healthy(w.healthySince, w.healthyFrom, w.probes, w.mem, w.dev.bootID)
    requires InstallsOnce(w.installs, w.mem, w.disk) && WriterOwned(w.writer, w.mem, w.disk)
    requires w.writer ==> j0.state == Installing || j0.state == NeedsRecovery
    requires j0.release.sequence == w.mem.highSequence
    ensures Healthy(w.healthySince, w.healthyFrom, w.probes, n, w.dev.bootID)
    ensures InstallsOnce(w.installs, n, n) && InstallsOnce(w.installs, w.mem, n)
    ensures WriterOwned(w.writer, n, n) && WriterOwned(w.writer, w.mem, n)
    ensures j.state == Installing ==> !w.writer && w.installs[j.release.sequence] == 0
  {}

  /** The three outcomes of a commit that tries to write the snapshot `n`. */
  lemma KeepCommit(cfg: Config, w: World, n: Database, archive: map<string, Job>, accepted: seq<Assignment>,
                   todo: Todo, failed: Todo)
    requires Inv(cfg, w) && !w.poisoned && w.mem.highSequence <= n.highSequence
    requires Books(cfg, n) && Agrees(cfg, n, w.dev, w.writer, w.probes) && Lag(w.mem, n, w.dev)
    requires Healthy(w.healthySince, w.healthyFrom, w.probes, n, w.dev.bootID)
    requires InstallsOnce(w.installs, n, n) && InstallsOnce(w.installs, w.mem, n)
    requires Increasing(cfg, accepted, n.highSequence)
    requires WriterOwned(w.writer, n, n) && WriterOwned(w.writer, w.mem, n)
    requires Allowed(cfg, todo, SceneOf(w.(mem := n, disk := n)))
    requires Allowed(cfg, failed, SceneOf(w)) && Allowed(cfg, failed, SceneOf(w.(disk := n)))
    ensures Inv(cfg, w.(mem := n, disk := n, archive := archive, accepted := accepted, todo := todo))
    ensures Inv(cfg, w.(poisoned := true, todo := failed))
    ensures Inv(cfg, w.(disk := n, archive := archive, accepted := accepted, poisoned := true, todo := failed))
  {
    hide Agrees, Books, Increasing, Allowed, InstallsOnce, Healthy, WriterOwned, FindSlot;
  }

  lemma KeepIdle(cfg: Config, w: World)
    requires Inv(cfg, w)
    ensures Inv(cfg, w.(todo := Idle))
  {
    hide Agrees, Books, Increasing, Allowed, InstallsOnce, Healthy, WriterOwned, Synced;
    AllowedIdle(cfg, SceneOf(w));
  }

  lemma AllowedAfterSave(cfg: Config, w: World, n: Database, j: Job, t: Todo)
    requires Allowed(cfg, t, SceneOf(w)) && t.SaveJob? && j == t.job.(updated := w.clock)
    requires !Terminal(j.state) ==> ActiveJob(n) == Some(j)
    requires j.state == Installing ==> !w.writer && w.installs[j.release.sequence] == 0
    ensures Allowed(cfg, AfterWrite(t, w.clock), SceneOf(w.(mem := n, disk := n)))
  {}

  lemma LicensedSave(cfg: Config, t: Todo, c: Scene)
    requires Allowed(cfg, t, c) && t.SaveJob?
    ensures ActiveJob(c.mem).Some? && Licensed(cfg, c, ActiveJob(c.mem).value, t.job)
    ensures SameIdentity(t.job, ActiveJob(c.mem).value)
  {}

  lemma KeepSave(cfg: Config, w: World, spilled: set<string>, outcome: Outcome)
    requires Inv(cfg, w) && w.todo.SaveJob? && Enabled(cfg, w, Write(spilled, outcome))
    ensures Inv(cfg, DoWrite(cfg, w, spilled, outcome))
  {
    hide Agrees, Books, Increasing, Allowed, InstallsOnce, Healthy, Licensed, Lag, Journal.Valid, FindSlot, AddEvent;
    var c := Change(w.todo, w.mem, w.clock);
    KeepIdle(cfg, w);
    if Attempt(cfg, w, c, spilled).Some? {
      var n := Without(c.value, spilled);
      LicensedSave(cfg, w.todo, SceneOf(w));
      var j0, j := ActiveJob(w.mem).value, w.todo.job;
      SavedDatabase(cfg, w.mem, j0, w.todo, w.clock, spilled);
      SequenceIsHigh(cfg, w.mem, w.dev, w.writer, w.probes);
      AgreesLicensed(cfg, SceneOf(w), n, j0, j);
      LagLicensed(cfg, SceneOf(w), n, j0, j);
      RestLicensed(cfg, w, n, j0, j);
      AllowedAfterSave(cfg, w, n, j.(updated := w.clock), w.todo);
      AllowedIdle(cfg, SceneOf(w));
      AllowedIdle(cfg, SceneOf(w.(disk := n)));
      KeepCommit(cfg, w, n, Archived(w.archive, c.value, spilled), w.accepted,
                 AfterWrite(w.todo, w.clock), Idle);
    }
  }

  lemma AcceptedFacts(cfg: Config, w: World, n: Database, j: Job)
    requires Inv(cfg, w) && !w.poisoned && w.todo == AcceptJob(j)
    requires ActiveJob(w.mem).None? && ActiveJob(n) == Some(j) && n.bootCheck == w.mem.bootCheck
    requires n.highSequence == j.release.sequence > w.mem.highSequence
    ensures j.assignment.jobID != "" && j.state == Accepted && j.release == cfg.decode(j.assignment.release.payload)
    ensures Agrees(cfg, n, w.dev, w.writer, w.probes) && Lag(w.mem, n, w.dev)
    ensures Healthy(w.healthySince, w.healthyFrom, w.probes, n, w.dev.bootID)
    ensures InstallsOnce(w.installs, n, n) && InstallsOnce(w.installs, w.mem, n)
    ensures Increasing(cfg, w.accepted + [j.assignment], n.highSequence)
    ensures WriterOwned(w.writer, n, n) && WriterOwned(w.writer, w.mem, n)
  {
    hide Books, FindSlot;
  }

  lemma AcceptAllowed(cfg: Config, c: Scene, j: Job)
    requires Allowed(cfg, AcceptJob(j), c)
    ensures j.healthStarted.None?
    ensures j.assignment.jobID != "" && j.state == Accepted && j.release == cfg.decode(j.assignment.release.payload)
  {}

  lemma KeepAccept(cfg: Config, w: World, spilled: set<string>, outcome: Outcome)
    requires Inv(cfg, w) && w.todo.AcceptJob? && Enabled(cfg, w, Write(spilled, outcome))
    ensures Inv(cfg, DoWrite(cfg, w, spilled, outcome))
  {
    hide Agrees, Books, Increasing, Allowed, InstallsOnce, Healthy, Lag, Journal.Valid, FindSlot, AddEvent;
    var c := Change(w.todo, w.mem, w.clock);
    KeepIdle(cfg, w);
    if Attempt(cfg, w, c, spilled).Some? {
      var n := Without(c.value, spilled);
      AcceptAllowed(cfg, SceneOf(w), w.todo.job);
      AcceptedDatabase(cfg, w.mem, w.todo.job, w.clock, spilled);
      AcceptedFacts(cfg, w, n, w.todo.job);
      AllowedIdle(cfg, SceneOf(w));
      AllowedIdle(cfg, SceneOf(w.(disk := n)));
      AllowedIdle(cfg, SceneOf(w.(mem := n, disk := n)));
      KeepCommit(cfg, w, n, Archived(w.archive, c.value, spilled), w.accepted + [w.todo.job.assignment], Idle, Idle);
    }
  }

  /** A snapshot with the same active job, and a boot check of this boot or the same one. */
  lemma SameJobFacts(cfg: Config, w: World, n: Database)
    requires Inv(cfg, w) && !w.poisoned && ActiveJob(n) == ActiveJob(w.mem) && n.active == w.mem.active
    requires n.highSequence == w.mem.highSequence
    requires n.bootCheck.bootID == w.mem.bootCheck.bootID
             || (ActiveJob(n).None? && w.healthySince.None? && n.bootCheck.bootID == w.dev.bootID)
    ensures Agrees(cfg, n, w.dev, w.writer, w.probes) && Lag(w.mem, n, w.dev)
    ensures Healthy(w.healthySince, w.healthyFrom, w.probes, n, w.dev.bootID)
    ensures InstallsOnce(w.installs, n, n) && InstallsOnce(w.installs, w.mem, n)
    ensures WriterOwned(w.writer, n, n) && WriterOwned(w.writer, w.mem, n)
  {
    hide Books, Allowed, Increasing, Fits;
  }

  lemma KeepBootCheck(cfg: Config, w: World, spilled: set<string>, outcome: Outcome)
    requires Inv(cfg, w) && (w.todo.StartBootCheck? || w.todo.ConfirmBoot?)
    requires Enabled(cfg, w, Write(spilled, outcome))
    ensures Inv(cfg, DoWrite(cfg, w, spilled, outcome))
  {
    hide Agrees, Books, Increasing, InstallsOnce, Healthy, Lag, Journal.Valid, FindSlot, Licensed, Program;
    var c := Change(w.todo, w.mem, w.clock);
    KeepIdle(cfg, w);
    if Attempt(cfg, w, c, spilled).Some? {
      var n := Without(c.value, spilled);
      OtherDatabase(cfg, w.mem, c.value, spilled);
      SameJobFacts(cfg, w, n);
      KeepCommit(cfg, w, n, Archived(w.archive, c.value, spilled), w.accepted, Idle, Idle);
    }
  }

  lemma AllowedSameJob(cfg: Config, t: Todo, w: World, mem: Database, disk: Database)
    requires Allowed(cfg, t, SceneOf(w)) && ActiveJob(mem) == ActiveJob(w.mem) && mem.jobs.Keys <= w.mem.jobs.Keys
    requires ActiveJob(disk) == ActiveJob(w.disk)
    ensures Allowed(cfg, t, SceneOf(w.(mem := mem, disk := disk)))
  {}

  lemma KeepAck(cfg: Config, w: World, sequence: nat, spilled: set<string>, outcome: Outcome)
    requires Inv(cfg, w) && Enabled(cfg, w, Ack(sequence, spilled, outcome))
    ensures Inv(cfg, Apply(cfg, w, Ack(sequence, spilled, outcome)))
  {
    hide Agrees, Books, Increasing, InstallsOnce, Healthy, Lag, Journal.Valid, FindSlot, Allowed;
    var c := Acked(w.mem, sequence);
    if Attempt(cfg, w, c, spilled).Some? {
      var n := Without(c.value, spilled);
      OtherDatabase(cfg, w.mem, c.value, spilled);
      SameJobFacts(cfg, w, n);
      AllowedSameJob(cfg, w.todo, w, n, n);
      AllowedSameJob(cfg, w.todo, w, w.mem, n);
      KeepCommit(cfg, w, n, Archived(w.archive, c.value, spilled), w.accepted, w.todo, w.todo);
    }
  }

  // ---------------------------------------------------------------- every step

  lemma KeepCall(cfg: Config, w: World, l: Label)
    requires Inv(cfg, w) && Enabled(cfg, w, l)
    requires l.Submit? || l.BeginStep? || l.BeginReboot? || l.BeginAbort?
    ensures Inv(cfg, Apply(cfg, w, l))
  {
    hide Agrees, Books, Increasing, InstallsOnce, Healthy, Synced, WriterOwned, Allowed, Decide, DecideReboot,
         DecideAbort, DecideSubmit, IsLatest;
    match l
    case Submit(a, verified, now) =>
      var r := DecideSubmit(cfg, w.mem, a, verified, now);
      if r.Proceed? {
        KeepSubmit(cfg, w, a, verified, now, r.job);
      }
    case BeginStep(inp) => KeepBeginStep(cfg, w, inp);
    case BeginReboot(inp) => AllowedReboot(cfg, SceneOf(w), StatusOf(w, inp.statusOk), inp);
    case BeginAbort(inp) => AllowedAbort(cfg, SceneOf(w), StatusOf(w, inp.statusOk));
  }

  /** Every step of the agent, the device, the clock and the operator keeps the invariant. */
  lemma Keep(cfg: Config, w: World, l: Label)
    requires Inv(cfg, w) && Enabled(cfg, w, l)
    ensures Inv(cfg, Apply(cfg, w, l))
  {
    hide Inv, DoWrite, Decide, DecideSubmit, DecideReboot, DecideAbort, Begin, IsLatest, Spills, Journal.Valid,
         AfterInspect, Change, Acked, Attempt;
    match l
    case Submit(_, _, _) => KeepCall(cfg, w, l);
    case BeginStep(_) => KeepCall(cfg, w, l);
    case BeginReboot(_) => KeepCall(cfg, w, l);
    case BeginAbort(_) => KeepCall(cfg, w, l);
    case Write(spilled, outcome) =>
      if w.todo.AcceptJob? {
        KeepAccept(cfg, w, spilled, outcome);
      } else if w.todo.SaveJob? {
        KeepSave(cfg, w, spilled, outcome);
      } else {
        KeepBootCheck(cfg, w, spilled, outcome);
      }
    case Install(after, ok, running) => KeepInstall(cfg, w, after, ok, running);
    case Inspect(statusOk) => KeepInspect(cfg, w, statusOk);
    case Mark(ok, applied) => KeepMark(cfg, w, ok, applied);
    case Reboot(ok, inPlace) =>
      KeepReboot(cfg, w, ok);
      if inPlace.Some? {
        KeepInPlace(cfg, w, inPlace.value);
      }
    case Ack(sequence, spilled, outcome) => KeepAck(cfg, w, sequence, spilled, outcome);
    case SetClock(t) => KeepSetClock(cfg, w, t);
    case SetOperation(op) => KeepSetOperation(cfg, w, op);
    case BackendWrites(after, running) => KeepBackendWrites(cfg, w, after, running);
    case Crash => KeepCrash(cfg, w);
    case DeviceBoots(b) => KeepDeviceBoots(cfg, w, b);
  }
}
