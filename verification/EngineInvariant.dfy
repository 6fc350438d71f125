/**
 What every step of the engine keeps, whoever takes it: the agent, its crash, the device or the operator.
 */
module EngineInvariant {
  import opened Model
  import opened Journal
  import opened Engine

  /** Installed but not finished: the states in which the old slot must not be touched. */
  predicate InFlight(s: JobState) {
    !BeforeInstall(s) && !Terminal(s)
  }

  predicate SameSlots(j: Job, k: Job) {
    j.oldSlot == k.oldSlot && j.oldVersion == k.oldVersion && j.targetSlot == k.targetSlot
  }

  /** Probes `lo..hi` all passed, in one boot, and lie at least `stable` apart. */
  predicate Streak(probes: seq<Probe>, lo: int, hi: int, boot: nat, stable: int) {
    && 0 <= lo <= hi < |probes|
    && (forall k | lo <= k <= hi :: probes[k].passed && probes[k].boot == boot)
    && probes[hi].time - probes[lo].time >= stable
  }

  /** The health evidence behind a job's commit: a stable streak in its boot that ends inside its window. */
  ghost predicate Evidence(cfg: Config, probes: seq<Probe>, j: Job) {
    j.healthStarted.Some?
    && exists lo, hi ::
         && Streak(probes, lo, hi, j.bootID, cfg.healthStable)
         && j.healthStarted.value <= probes[hi].time < j.healthStarted.value + cfg.healthTimeout
  }

  /** The active job agrees with the device. */
  ghost predicate Fits(cfg: Config, j: Job, dev: Device, writer: bool, probes: seq<Probe>) {
    && (BeforeInstall(j.state) || j.state == Installing || j.state == AwaitingReboot ==> j.healthStarted.None?)
    && (InFlight(j.state) ==>
      && j.oldSlot != j.targetSlot && j.targetSlot != "" && j.release.HasOS()
      && VersionOf(dev, j.oldSlot) == j.oldVersion
      && 0 < j.bootID <= dev.bootID
      && (writer ==> dev.booted == j.oldSlot && (j.state == Installing || j.state == NeedsRecovery))
      && (j.state == Installing || j.state == AwaitingReboot ==> dev.bootID == j.bootID ==> dev.booted == j.oldSlot)
      && (j.state != Installing && j.state != NeedsRecovery ==> VersionOf(dev, j.targetSlot) == j.release.version)
      && (j.state == CheckingHealth || j.state == Committing || j.state == RollbackPending ==>
            j.healthStarted.Some? && (dev.bootID == j.bootID ==> dev.booted == j.targetSlot))
      && (j.state == Committing ==> Evidence(cfg, probes, j)))
  }

  /** Facts about one journal snapshot. */
  ghost predicate Books(cfg: Config, d: Database) {
    && Journal.Valid(cfg.hotLimit, d)
    && "" !in d.jobs
    && (forall id | id in d.jobs :: d.jobs[id].release == cfg.decode(d.jobs[id].assignment.release.payload))
  }

  /** A snapshot's active job agrees with the device and the high-water mark. */
  ghost predicate Agrees(cfg: Config, d: Database, dev: Device, writer: bool, probes: seq<Probe>) {
    && d.bootCheck.bootID <= dev.bootID
    && match ActiveJob(d)
       case None => true
       case Some(j) =>
         && j.release.sequence == d.highSequence
         && Fits(cfg, j, dev, writer, probes)
         && (InFlight(j.state) ==> d.bootCheck.bootID <= j.bootID)
  }

  /** A job that another write can only send to a state with no backend call, as long as the boot lasts. */
  predicate Stuck(j: Job, dev: Device) {
    j.state == Committing || j.state == RollbackPending ==> dev.booted != j.targetSlot
  }

  /** The durable snapshot is at most one write ahead of a poisoned agent's memory. */
  predicate Lag(mem: Database, disk: Database, dev: Device) {
    match (ActiveJob(mem), ActiveJob(disk))
    case (None, None) => true
    case (None, Some(k)) => k.state == Accepted
    case (Some(j), None) => mem.highSequence == disk.highSequence
    case (Some(j), Some(k)) =>
      && mem.highSequence == disk.highSequence && mem.active == disk.active
      && (InFlight(j.state) ==> InFlight(k.state) && SameSlots(j, k))
      && (k.state == NeedsRecovery && j.state != NeedsRecovery ==> Stuck(j, dev))
  }

  predicate Synced(poisoned: bool, mem: Database, disk: Database, dev: Device) {
    && mem.highSequence <= disk.highSequence
    && if poisoned then Lag(mem, disk, dev) else mem == disk
  }

  /** What a running call needs to know of the world. */
  datatype Scene = Scene(mem: Database, durable: Option<Job>, since: Option<int>, dev: Device, writer: bool,
                         installs: multiset<nat>, probes: seq<Probe>)

  /** A job record that may replace the active job `j0`. */
  ghost predicate Licensed(cfg: Config, c: Scene, j0: Job, j: Job) {
    && j.assignment == j0.assignment && j.release == j0.release && j.fingerprint == j0.fingerprint
    && (InFlight(j0.state) ==> SameSlots(j, j0))
    && (InFlight(j0.state) && j.state != CheckingHealth ==> j.bootID == j0.bootID)
    && (j.state != CheckingHealth ==> j.healthStarted == j0.healthStarted)
    && match j.state
       case Accepted => false
       case Downloading => BeforeInstall(j0.state)
       case Verified => BeforeInstall(j0.state)
       case Installing =>
         && j0.state == Verified && j.release.HasOS()
         && j.oldSlot == c.dev.booted && j.oldVersion == VersionOf(c.dev, c.dev.booted)
         && j.targetSlot != j.oldSlot && j.targetSlot != "" && j.bootID == c.dev.bootID
       case AwaitingReboot =>
         || j0.state == AwaitingReboot
         || (j0.state == Installing && !c.writer && VersionOf(c.dev, j.targetSlot) == j.release.version)
       case NeedsRecovery => InFlight(j0.state) && Stuck(j0, c.dev)
       case CheckingHealth =>
         && (j0.state == AwaitingReboot || j0.state == CheckingHealth || j0.state == Committing)
         && j.bootID == c.dev.bootID && c.dev.booted == j.targetSlot && c.since.None?
         && (if j0.state == AwaitingReboot then j.healthStarted.Some? else j.healthStarted == j0.healthStarted)
       case Committing => j0.state == CheckingHealth && Evidence(cfg, c.probes, j)
       case RollbackPending => j0.state == CheckingHealth
       case Committed =>
         || (j0.state == Verified && !j.release.HasOS())
         || (j0.state == Committing && c.dev.booted == j.targetSlot && GoodOf(c.dev, j.targetSlot))
       case RolledBack =>
         && (j0.state == AwaitingReboot || j0.state == CheckingHealth || j0.state == Committing
             || j0.state == RollbackPending)
         && c.dev.booted == j.oldSlot
       case Failed =>
         || BeforeInstall(j0.state)
         || (j0.state == NeedsRecovery && c.dev.booted == j.oldSlot && c.dev.primary == j.oldSlot
             && !GoodOf(c.dev, j.targetSlot) && !c.writer)
  }

  /** The rest of the call in progress is one the journal in memory and the device allow. */
  ghost predicate Allowed(cfg: Config, t: Todo, c: Scene) {
    match t
    case Idle => true
    case AcceptJob(j) =>
      && j.state == Accepted && j.assignment.jobID != "" && j.assignment.jobID !in c.mem.jobs
      && j.healthStarted.None?
      && j.fingerprint == FingerprintOf(j.assignment)
      && j.release == cfg.decode(j.assignment.release.payload)
    case SaveJob(j, andThen) =>
      && ActiveJob(c.mem).Some? && Licensed(cfg, c, ActiveJob(c.mem).value, j)
      && (andThen == ThenInstall <==> j.state == Installing)
      && (andThen == ThenReboot ==> j.state == AwaitingReboot)
    case CallInstall(j) =>
      && c.durable == Some(j) && ActiveJob(c.mem) == Some(j) && j.state == Installing && !c.writer
      && c.dev.booted == j.oldSlot && c.dev.bootID == j.bootID && c.installs[j.release.sequence] == 0
    case InspectInstall(j) =>
      ActiveJob(c.mem) == Some(j) && j.state == Installing && c.dev.booted == j.oldSlot
    case StartBootCheck(b) => ActiveJob(c.mem).None? && b.bootID == c.dev.bootID && c.since.None?
    case ConfirmBoot => ActiveJob(c.mem).None?
    case CallReboot(Some(j)) => c.durable == Some(j) && ActiveJob(c.mem) == Some(j) && j.state == AwaitingReboot
    case CallReboot(None) => Program(c, t)
    case CallMark(_, _, _) => Program(c, t)
  }

  /** The programs that mark slots. */
  predicate Program(c: Scene, t: Todo) {
    match ActiveJob(c.mem)
    case None => BootProgram(t)
    case Some(j) =>
      match j.state
      case Committing =>
        && c.dev.booted == j.targetSlot && c.dev.bootID == j.bootID
        && t == CallMark(Good, j.targetSlot, SaveJob(j.(state := Committed), Stop))
      case RollbackPending =>
        && c.dev.booted == j.targetSlot
        && var last := CallMark(Active, j.oldSlot, CallReboot(None));
           t == CallMark(Bad, j.targetSlot, last) || t == last || t == CallReboot(None)
      case NeedsRecovery =>
        && c.dev.booted == j.oldSlot && !c.writer
        && var last := CallMark(Active, j.oldSlot, SaveJob(j.(state := Failed), Stop));
           t == CallMark(Bad, j.targetSlot, last) || (t == last && !GoodOf(c.dev, j.targetSlot))
      case _ => false
  }

  predicate BootProgram(t: Todo) {
    || t == CallReboot(None)
    || (t.CallMark? && t.kind == Good && t.next == ConfirmBoot)
    || (t.CallMark? && t.kind == Active && t.next == CallReboot(None))
    || (t.CallMark? && t.kind == Bad && t.next.CallMark? && t.next.kind == Active && t.next.next == CallReboot(None))
  }

  /** `since` is the time of the first of an unbroken run of passed probes, all in one boot. */
  predicate Healthy(since: Option<int>, from: nat, probes: seq<Probe>, mem: Database, boot: nat) {
    since.Some? ==>
      && from < |probes| && probes[from].time == since.value
      && (forall k | from <= k < |probes| :: probes[k].passed && probes[k].boot == probes[from].boot)
      && (|| probes[from].boot == boot
          || (&& mem.bootCheck.bootID != boot
              && match ActiveJob(mem)
                 case Some(j) => j.state == CheckingHealth ==> j.bootID != boot
                 case None => true))
  }

  predicate NotYetInstalled(d: Database, installs: multiset<nat>) {
    ActiveJob(d).Some? && BeforeInstall(ActiveJob(d).value.state) ==> installs[d.highSequence] == 0
  }

  ghost predicate InstallsOnce(installs: multiset<nat>, mem: Database, disk: Database) {
    && (forall q :: installs[q] <= 1)
    && (forall q | q in installs :: q <= disk.highSequence)
    && NotYetInstalled(disk, installs) && NotYetInstalled(mem, installs)
  }

  /** Sequences of accepted assignments strictly increase, up to the durable high-water mark. */
  ghost predicate Increasing(cfg: Config, accepted: seq<Assignment>, high: nat) {
    && (forall i | 0 <= i < |accepted| :: cfg.SequenceOf(accepted[i]) <= high)
    && (forall i, k | 0 <= i < k < |accepted| :: cfg.SequenceOf(accepted[i]) < cfg.SequenceOf(accepted[k]))
  }

  /** An install that outlived its agent belongs to the active job. */
  predicate WriterOwned(writer: bool, mem: Database, disk: Database) {
    writer ==> ActiveJob(disk).Some? && ActiveJob(mem).Some? && InFlight(ActiveJob(mem).value.state)
               && (ActiveJob(disk).value.state == Installing || ActiveJob(disk).value.state == NeedsRecovery)
  }

  function SceneOf(w: World): Scene {
    Scene(w.mem, ActiveJob(w.disk), w.healthySince, w.dev, w.writer, w.installs, w.probes)
  }

  ghost predicate Inv(cfg: Config, w: World) {
    && w.dev.bootID > 0
    && Books(cfg, w.disk) && Books(cfg, w.mem)
    && Agrees(cfg, w.disk, w.dev, w.writer, w.probes) && Agrees(cfg, w.mem, w.dev, w.writer, w.probes)
    && Synced(w.poisoned, w.mem, w.disk, w.dev)
    && Allowed(cfg, w.todo, SceneOf(w))
    && Healthy(w.healthySince, w.healthyFrom, w.probes, w.mem, w.dev.bootID)
    && InstallsOnce(w.installs, w.mem, w.disk)
    && Increasing(cfg, w.accepted, w.disk.highSequence)
    && WriterOwned(w.writer, w.mem, w.disk) && (w.writer ==> w.dev.operation.Busy?)
  }

  lemma InitInv(cfg: Config, w: World)
    requires Init(w)
    ensures Inv(cfg, w)
  {}
}
