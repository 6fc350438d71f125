/** Every step keeps the engine invariant. */
module EngineProof {
  import opened Model
  import opened Engine
  import opened EngineInvariant

  // ---------------------------------------------------------------- changes of the device

  /** A change of the device that an active job cannot tell from none, or a new boot. */
  predicate Harmless(d: Database, dev: Device, dev': Device) {
    && dev'.bootID >= dev.bootID
    && (dev'.bootID == dev.bootID ==> dev'.booted == dev.booted)
    && (ActiveJob(d).Some? && InFlight(ActiveJob(d).value.state) ==>
          var j := ActiveJob(d).value;
          && VersionOf(dev', j.oldSlot) == VersionOf(dev, j.oldSlot)
          && VersionOf(dev', j.targetSlot) == VersionOf(dev, j.targetSlot))
  }

  lemma AgreesHarmless(cfg: Config, d: Database, dev: Device, dev': Device, writer: bool, writer': bool,
                       probes: seq<Probe>)
    requires Agrees(cfg, d, dev, writer, probes) && Harmless(d, dev, dev')
    requires writer' ==> writer && dev'.bootID == dev.bootID
    ensures Agrees(cfg, d, dev', writer', probes)
  {}

  lemma AllowedOperation(cfg: Config, t: Todo, c: Scene, op: Operation)
    requires Allowed(cfg, t, c)
    ensures Allowed(cfg, t, c.(dev := c.dev.(operation := op)))
  {}

  lemma KeepSetClock(cfg: Config, w: World, t: int)
    requires Inv(cfg, w)
    ensures Inv(cfg, w.(clock := t))
  {
    hide Allowed, Agrees, Books, InstallsOnce, Increasing, Synced, Healthy, WriterOwned;
  }

  lemma KeepCrash(cfg: Config, w: World)
    requires Inv(cfg, w)
    ensures Inv(cfg, Restarted(w))
  {
    hide Agrees, Books, Increasing;
  }

  lemma KeepSetOperation(cfg: Config, w: World, op: Operation)
    requires Inv(cfg, w) && (w.writer ==> op.Busy?)
    ensures Inv(cfg, w.(dev := w.dev.(operation := op)))
  {
    hide Allowed, Agrees, Books, InstallsOnce, Increasing;
    var dev := w.dev.(operation := op);
    AllowedOperation(cfg, w.todo, SceneOf(w), op);
    AgreesHarmless(cfg, w.disk, w.dev, dev, w.writer, w.writer, w.probes);
    AgreesHarmless(cfg, w.mem, w.dev, dev, w.writer, w.writer, w.probes);
  }

  lemma KeepDeviceBoots(cfg: Config, w: World, b: Boot)
    requires Inv(cfg, w) && b.bootID > w.dev.bootID
    ensures Inv(cfg, Restarted(w.(dev := Booted(w.dev, b), writer := false)))
  {
    hide Agrees, Books, Increasing;
    AgreesHarmless(cfg, w.disk, w.dev, Booted(w.dev, b), w.writer, false, w.probes);
  }

  lemma InstallKeepsSlots(d: Device, e: Device)
    requires InstallMayYield(d, e)
    ensures SlotOf(e, d.booted) == SlotOf(d, d.booted)
  {
    InstallKeepsNames(d.slots, e.slots, d.booted, d.booted);
  }

  /** While an install writes, the active job is one whose target slot may still change. */
  lemma AgreesInstall(cfg: Config, d: Database, dev: Device, after: Device, writer: bool, running: bool,
                      probes: seq<Probe>)
    requires Agrees(cfg, d, dev, writer, probes) && InstallMayYield(dev, after)
    requires ActiveJob(d).Some? && InFlight(ActiveJob(d).value.state) ==>
               var j := ActiveJob(d).value;
               dev.booted == j.oldSlot && (j.state == Installing || j.state == NeedsRecovery)
    ensures Agrees(cfg, d, after, running, probes)
  {
    InstallKeepsSlots(dev, after);
  }

  /** No marking program other than an abort runs beside an install, and an abort has seen it finish. */
  lemma AllowedWriter(cfg: Config, t: Todo, c: Scene, after: Device, running: bool)
    requires Allowed(cfg, t, c) && c.writer && InstallMayYield(c.dev, after)
    requires ActiveJob(c.mem).Some? && InFlight(ActiveJob(c.mem).value.state)
    requires var j := ActiveJob(c.mem).value; j.state == Installing || j.state == NeedsRecovery
    ensures Allowed(cfg, t, c.(dev := after, writer := running))
  {}

  lemma KeepBackendWrites(cfg: Config, w: World, after: Device, running: bool)
    requires Inv(cfg, w) && w.writer && InstallMayYield(w.dev, after) && (running ==> after.operation.Busy?)
    ensures Inv(cfg, w.(dev := after, writer := running))
  {
    hide Allowed, Books, InstallsOnce, Increasing;
    AgreesInstall(cfg, w.disk, w.dev, after, true, running, w.probes);
    AgreesInstall(cfg, w.mem, w.dev, after, true, running, w.probes);
    AllowedWriter(cfg, w.todo, SceneOf(w), after, running);
  }

  // ---------------------------------------------------------------- calls begin

  lemma KeepSubmit(cfg: Config, w: World, a: Assignment, verified: bool, now: int, j: Job)
    requires Inv(cfg, w) && DecideSubmit(cfg, w.mem, a, verified, now) == Proceed(j)
    ensures Inv(cfg, w.(todo := AcceptJob(j)))
  {}

  lemma AllowedReboot(cfg: Config, c: Scene, s: Option<Device>, inp: Inputs)
    ensures Allowed(cfg, DecideReboot(c.mem, s, inp), c)
  {}

  lemma AllowedAbort(cfg: Config, c: Scene, s: Option<Device>)
    requires s.Some? ==> s.value == c.dev
    requires c.writer ==> c.dev.operation.Busy?
    ensures Allowed(cfg, DecideAbort(c.mem, s), c)
  {}

  /** New probes do not weaken old evidence. */
  lemma EvidenceGrows(cfg: Config, probes: seq<Probe>, more: seq<Probe>, j: Job)
    requires Evidence(cfg, probes, j)
    ensures Evidence(cfg, probes + more, j)
  {
    var lo, hi :| Streak(probes, lo, hi, j.bootID, cfg.healthStable)
                  && j.healthStarted.value <= probes[hi].time < j.healthStarted.value + cfg.healthTimeout;
    assert Streak(probes + more, lo, hi, j.bootID, cfg.healthStable);
  }

  lemma AgreesGrows(cfg: Config, d: Database, dev: Device, writer: bool, probes: seq<Probe>, more: seq<Probe>)
    requires Agrees(cfg, d, dev, writer, probes)
    ensures Agrees(cfg, d, dev, writer, probes + more)
  {
    if ActiveJob(d).Some? && ActiveJob(d).value.state == Committing {
      EvidenceGrows(cfg, probes, more, ActiveJob(d).value);
    }
  }

  predicate SameIdentity(j: Job, k: Job) {
    && j.assignment == k.assignment && j.release == k.release && j.fingerprint == k.fingerprint
  }

  lemma SaveBeforeInstall(cfg: Config, c: Scene, j: Job, k: Job, state: JobState)
    requires ActiveJob(c.mem) == Some(j) && BeforeInstall(j.state)
    requires SameIdentity(j, k) && k.healthStarted == j.healthStarted
    requires state == Downloading || state == Verified || state == Failed
    ensures Allowed(cfg, SaveJob(k.(state := state), Stop), c)
  {}

  lemma SavePayloadsOnly(cfg: Config, c: Scene, j: Job, k: Job)
    requires ActiveJob(c.mem) == Some(j) && j.state == Verified && !j.release.HasOS()
    requires SameIdentity(j, k) && k.healthStarted == j.healthStarted
    ensures Allowed(cfg, SaveJob(k.(state := Committed), Stop), c)
  {}

  lemma SaveInstalling(cfg: Config, c: Scene, j: Job, k: Job, booted: string, version: string, target: string,
                       boot: nat)
    requires ActiveJob(c.mem) == Some(j) && j.state == Verified && k.release.HasOS()
    requires SameIdentity(j, k) && k.healthStarted == j.healthStarted
    requires booted == c.dev.booted && version == VersionOf(c.dev, booted) && boot == c.dev.bootID
    requires target != "" && target != booted
    ensures Allowed(cfg, SaveJob(k.(oldSlot := booted, oldVersion := version, targetSlot := target, bootID := boot,
                                    state := Installing), ThenInstall), c)
  {}

  lemma AllowedVerified(cfg: Config, c: Scene, j: Job, s: Option<Device>, inp: Inputs)
    requires ActiveJob(c.mem) == Some(j) && j.state == Verified && (s.Some? ==> s.value == c.dev)
    ensures Allowed(cfg, StepVerified(cfg, j, s, c.since, inp).todo, c)
  {
    var apply := !j.payloadsApplied && j.release.targets != [];
    var k := j.(payloadsApplied := j.payloadsApplied || apply);
    SaveBeforeInstall(cfg, c, j, j, Failed);
    SaveBeforeInstall(cfg, c, j, k, Failed);
    if !j.release.HasOS() {
      SavePayloadsOnly(cfg, c, j, k);
    } else if Other(c.dev).Some? {
      SaveInstalling(cfg, c, j, k, c.dev.booted, VersionOf(c.dev, c.dev.booted), Other(c.dev).value, c.dev.bootID);
    }
    assert Allowed(cfg, Idle, c);
    hide Allowed, ActiveJob, FindSlot;
  }

  lemma AllowedBeforeInstall(cfg: Config, c: Scene, j: Job, s: Option<Device>, inp: Inputs)
    requires ActiveJob(c.mem) == Some(j) && BeforeInstall(j.state) && (s.Some? ==> s.value == c.dev)
    ensures Allowed(cfg, StepBeforeInstall(cfg, j, s, c.since, inp).todo, c)
  {
    SaveBeforeInstall(cfg, c, j, j, Failed);
    SaveBeforeInstall(cfg, c, j, j, Downloading);
    SaveBeforeInstall(cfg, c, j, j.(deferred := true), Downloading);
    SaveBeforeInstall(cfg, c, j, j.(deferred := false), Verified);
    if j.state == Verified {
      AllowedVerified(cfg, c, j, s, inp);
    }
    assert Allowed(cfg, Idle, c);
    hide Allowed, ActiveJob, StepVerified;
  }

  /** Probing, from CheckingHealth and from the normal-boot check alike. */
  lemma HealthyGrows(w: World, p: Plan, inp: Inputs)
    requires Healthy(w.healthySince, w.healthyFrom, w.probes, w.mem, w.dev.bootID)
    requires p.healthySince.Some? ==> p.healthySince == if w.healthySince.Some? then w.healthySince else Some(inp.now)
    requires p.probed && p.healthySince.Some? ==>
               && inp.healthy
               && (|| (ActiveJob(w.mem).Some? && ActiveJob(w.mem).value.state == CheckingHealth
                       && ActiveJob(w.mem).value.bootID == w.dev.bootID)
                   || w.mem.bootCheck.bootID == w.dev.bootID)
    requires !p.probed && p.healthySince.Some? ==> w.healthySince.Some?
    ensures var v := Begin(w, p, inp); Healthy(v.healthySince, v.healthyFrom, v.probes, v.mem, v.dev.bootID)
  {}

  lemma SaveNeedsRecovery(cfg: Config, c: Scene, j: Job)
    requires ActiveJob(c.mem) == Some(j) && InFlight(j.state) && Stuck(j, c.dev)
    ensures Allowed(cfg, SaveJob(j.(state := NeedsRecovery), Stop), c)
  {}

  lemma SaveRolledBack(cfg: Config, c: Scene, j: Job)
    requires ActiveJob(c.mem) == Some(j) && c.dev.booted == j.oldSlot
    requires j.state == AwaitingReboot || j.state == CheckingHealth || j.state == Committing
             || j.state == RollbackPending
    ensures Allowed(cfg, SaveJob(j.(state := RolledBack), Stop), c)
  {}

  lemma SaveCheckingHealth(cfg: Config, c: Scene, j: Job, started: Option<int>, boot: nat)
    requires ActiveJob(c.mem) == Some(j) && c.dev.booted == j.targetSlot && boot == c.dev.bootID && c.since.None?
    requires j.state == AwaitingReboot || j.state == CheckingHealth || j.state == Committing
    requires if j.state == AwaitingReboot then started.Some? else started == j.healthStarted
    ensures Allowed(cfg, SaveJob(j.(healthStarted := started, bootID := boot, state := CheckingHealth), Stop), c)
  {}

  lemma SaveVerdict(cfg: Config, c: Scene, j: Job, state: JobState)
    requires ActiveJob(c.mem) == Some(j) && j.state == CheckingHealth
    requires state == RollbackPending || (state == Committing && Evidence(cfg, c.probes, j))
    ensures Allowed(cfg, SaveJob(j.(state := state), Stop), c)
  {
    assert state == Committing ==> Evidence(cfg, c.probes, j.(state := state));
  }

  lemma AllowedHealth(cfg: Config, w: World, j: Job, inp: Inputs)
    requires Healthy(w.healthySince, w.healthyFrom, w.probes, w.mem, w.dev.bootID)
    requires ActiveJob(w.mem) == Some(j) && (j.state == CheckingHealth || j.state == Committing)
    requires VersionOf(w.dev, j.targetSlot) == j.release.version
    ensures var v := Begin(w, StepHealth(cfg, j, w.dev, w.healthySince, inp), inp); Allowed(cfg, v.todo, SceneOf(v))
  {
    var p := StepHealth(cfg, j, w.dev, w.healthySince, inp);
    var v := Begin(w, p, inp);
    var c := SceneOf(v);
    assert Allowed(cfg, Idle, c);
    if w.dev.booted == j.oldSlot {
      SaveRolledBack(cfg, c, j);
    } else if w.dev.booted != j.targetSlot || VersionOf(w.dev, j.targetSlot) != j.release.version {
      SaveNeedsRecovery(cfg, c, j);
    } else if w.dev.bootID != j.bootID {
      SaveCheckingHealth(cfg, c, j, j.healthStarted, w.dev.bootID);
    } else if j.state == Committing {
    } else {
      if p.probed && p.todo.SaveJob? {
        assert Streak(v.probes, v.healthyFrom, |w.probes|, j.bootID, cfg.healthStable);
        SaveVerdict(cfg, c, j, Committing);
      }
      SaveVerdict(cfg, c, j, RollbackPending);
      hide Allowed, ActiveJob, Healthy, Evidence;
    }
  }

  lemma AllowedInstalled(cfg: Config, c: Scene, j: Job, s: Option<Device>, inp: Inputs)
    requires ActiveJob(c.mem) == Some(j) && InFlight(j.state) && (s.Some? ==> s.value == c.dev)
    requires s.None? || (j.state != CheckingHealth && j.state != Committing)
    ensures var p := StepInstalled(cfg, j, s, c.since, inp); Allowed(cfg, p.todo, c.(since := p.healthySince))
    ensures var p := StepInstalled(cfg, j, s, c.since, inp);
            !p.probed && (p.healthySince == c.since || p.healthySince.None?)
  {
    var p := StepInstalled(cfg, j, s, c.since, inp);
    var e := c.(since := p.healthySince);
    if p.todo.SaveJob? {
      if p.todo.job.state == NeedsRecovery {
        SaveNeedsRecovery(cfg, e, j);
      } else if p.todo.job.state == RolledBack {
        SaveRolledBack(cfg, e, j);
      } else if p.todo.job.state == CheckingHealth {
        SaveCheckingHealth(cfg, e, j, Some(inp.now), c.dev.bootID);
      } else {
        assert Allowed(cfg, SaveJob(j.(rebootRequested := true), ThenReboot), e);
      }
      hide Allowed;
    }
  }

  lemma AllowedNormalBoot(cfg: Config, w: World, s: Option<Device>, inp: Inputs)
    requires ActiveJob(w.mem).None? && (s.Some? ==> s.value == w.dev)
    ensures var p := StepNormalBoot(cfg, w.mem, s, w.healthySince, inp);
            var v := Begin(w, p, inp);
            && Allowed(cfg, v.todo, SceneOf(v))
            && (p.probed && p.healthySince.Some? ==> inp.healthy && w.mem.bootCheck.bootID == w.dev.bootID)
            && (p.healthySince.Some? ==>
                  p.healthySince == if w.healthySince.Some? then w.healthySince else Some(inp.now))
            && (!p.probed ==> p.healthySince == w.healthySince || p.healthySince.None?)
  {}

  /** A decision whose program is allowed keeps the invariant. */
  lemma KeepBegin(cfg: Config, w: World, p: Plan, inp: Inputs)
    requires Inv(cfg, w)
    requires var v := Begin(w, p, inp);
             && Allowed(cfg, v.todo, SceneOf(v))
             && Healthy(v.healthySince, v.healthyFrom, v.probes, v.mem, v.dev.bootID)
    ensures Inv(cfg, Begin(w, p, inp))
  {
    var more := [Probe(w.dev.bootID, inp.now, inp.healthy)];
    AgreesGrows(cfg, w.mem, w.dev, w.writer, w.probes, more);
    AgreesGrows(cfg, w.disk, w.dev, w.writer, w.probes, more);
    hide Allowed, Agrees, Books, InstallsOnce, Increasing, Synced, Healthy, WriterOwned;
  }

  lemma HealthPlan(cfg: Config, j: Job, d: Device, since: Option<int>, inp: Inputs)
    ensures var p := StepHealth(cfg, j, d, since, inp);
            && (p.probed && p.healthySince.Some? ==> inp.healthy && j.state != Committing && j.bootID == d.bootID)
            && (p.healthySince.Some? ==> p.healthySince == if since.Some? then since else Some(inp.now))
            && (!p.probed ==> p.healthySince == since || p.healthySince.None?)
  {}

  lemma InstalledIsHealth(cfg: Config, j: Job, d: Device, since: Option<int>, inp: Inputs)
    requires j.state == CheckingHealth || j.state == Committing
    ensures StepInstalled(cfg, j, Some(d), since, inp) == StepHealth(cfg, j, d, since, inp)
  {
    hide StepHealth;
  }

  lemma TargetVersion(cfg: Config, w: World, j: Job)
    requires Inv(cfg, w) && ActiveJob(w.mem) == Some(j) && (j.state == CheckingHealth || j.state == Committing)
    ensures VersionOf(w.dev, j.targetSlot) == j.release.version
  {
    hide Allowed, Books, InstallsOnce, Increasing, Synced, Healthy, WriterOwned, FindSlot, Evidence;
  }

  lemma KeepBeginInstalled(cfg: Config, w: World, j: Job, inp: Inputs)
    requires Inv(cfg, w) && ActiveJob(w.mem) == Some(j) && InFlight(j.state)
    ensures Inv(cfg, Begin(w, StepInstalled(cfg, j, StatusOf(w, inp.statusOk), w.healthySince, inp), inp))
  {
    hide Allowed, Agrees, Books, InstallsOnce, Increasing, Synced, Healthy, WriterOwned, StepInstalled, StepHealth,
         FindSlot;
    var p := StepInstalled(cfg, j, StatusOf(w, inp.statusOk), w.healthySince, inp);
    if (j.state == CheckingHealth || j.state == Committing) && inp.statusOk {
      InstalledIsHealth(cfg, j, w.dev, w.healthySince, inp);
      TargetVersion(cfg, w, j);
      AllowedHealth(cfg, w, j, inp);
      HealthPlan(cfg, j, w.dev, w.healthySince, inp);
    } else {
      AllowedInstalled(cfg, SceneOf(w), j, StatusOf(w, inp.statusOk), inp);
      assert SceneOf(Begin(w, p, inp)) == SceneOf(w).(since := p.healthySince);
    }
    HealthyGrows(w, p, inp);
    KeepBegin(cfg, w, p, inp);
  }

  lemma KeepBeginStep(cfg: Config, w: World, inp: Inputs)
    requires Inv(cfg, w) && w.todo.Idle?
    ensures Inv(cfg, Begin(w, Decide(cfg, w.mem, StatusOf(w, inp.statusOk), w.healthySince, inp), inp))
  {
    var s := StatusOf(w, inp.statusOk);
    match ActiveJob(w.mem)
    case None =>
      var p := StepNormalBoot(cfg, w.mem, s, w.healthySince, inp);
      AllowedNormalBoot(cfg, w, s, inp);
      HealthyGrows(w, p, inp);
      KeepBegin(cfg, w, p, inp);
      hide *;
    case Some(j) =>
      if BeforeInstall(j.state) {
        var p := StepBeforeInstall(cfg, j, s, w.healthySince, inp);
        AllowedBeforeInstall(cfg, SceneOf(w), j, s, inp);
        SinceBeforeInstall(cfg, j, s, w.healthySince, inp);
        assert SceneOf(Begin(w, p, inp)) == SceneOf(w);
        HealthyGrows(w, p, inp);
        KeepBegin(cfg, w, p, inp);
      } else {
        KeepBeginInstalled(cfg, w, j, inp);
      }
  }

  lemma SinceBeforeInstall(cfg: Config, j: Job, s: Option<Device>, since: Option<int>, inp: Inputs)
    ensures var p := StepBeforeInstall(cfg, j, s, since, inp); !p.probed && p.healthySince == since
  {}
}
