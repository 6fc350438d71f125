/**
 The update engine as a transition system (internal/ota/engine.go, internal/ota/boot.go).

 One engine call is a decision, taken from the journal copy in memory, the device status and the clock,
 followed by a short program of journal writes and backend calls (`Todo`). Each write and each call is a
 step of its own, so that the agent can die, the device can reboot, events can be acknowledged and the
 clock can move between any two of them.
 */
module Engine {
  import opened Model
  import opened Journal

  datatype Config = Config(deviceID: string, compatible: string, healthTimeout: int, healthStable: int,
                           hotLimit: nat, decode: seq<Byte> -> Release)
  {
    predicate Valid() {
      1 <= healthTimeout && 0 <= healthStable < healthTimeout && 1 <= hotLimit
    }

    function SequenceOf(a: Assignment): nat {
      decode(a.release.payload).sequence
    }
  }

  datatype Then = Stop | ThenInstall | ThenReboot

  /** What is left of the engine call in progress. */
  datatype Todo =
    | Idle
    | AcceptJob(job: Job)
    | SaveJob(job: Job, andThen: Then)
    | CallInstall(job: Job)
    | InspectInstall(job: Job)
    | CallMark(kind: MarkKind, slot: string, next: Todo)
    | CallReboot(asked: Option<Job>)
    | StartBootCheck(check: BootCheck)
    | ConfirmBoot

  /** One health probe: the boot it ran in, its time and its verdict. */
  datatype Probe = Probe(boot: nat, time: int, passed: bool)

  datatype World = World(
    disk: Database, archive: map<string, Job>,            // durable
    mem: Database, poisoned: bool,                        // the store of the running agent
    healthySince: Option<int>, todo: Todo,                // the rest of the running agent
    dev: Device, writer: bool,                            // the device; is an install still writing?
    clock: int,
    // history: what happened so far, never read by the engine
    installs: multiset<nat>,                              // Install calls, by release sequence
    probes: seq<Probe>, healthyFrom: nat,                 // probes, and where the current streak begins
    accepted: seq<Assignment>                             // assignments whose acceptance became durable
  )

  // ---------------------------------------------------------------- decisions

  datatype Download = Waiting | Interrupted | DeferredMidway | Complete

  /** Everything an engine call learns from outside the journal and the device. */
  datatype Inputs = Inputs(now: int, later: int, statusOk: bool, envelopeOk: bool, armed: bool,
                           download: Download, sbomOk: bool, applyOk: bool, artifactOk: bool, healthy: bool,
                           latest: Option<Job>)

  /** A decision: the program to run, the new `healthySince`, and the probe that was made, if any. */
  datatype Plan = Plan(todo: Todo, healthySince: Option<int>, probed: bool)

  function Save(j: Job, state: JobState, since: Option<int>): Plan {
    Plan(SaveJob(j.(state := state), Stop), since, false)
  }

  function StepBeforeInstall(cfg: Config, j: Job, s: Option<Device>, since: Option<int>, inp: Inputs): Plan {
    if inp.now >= j.assignment.deadline then Save(j, Failed, since)
    else if inp.now < j.assignment.notBefore then Plan(Idle, since, false)
    else if !inp.envelopeOk then Save(j, Failed, since)
    else if j.state == Accepted then
      if inp.armed then Save(j, Downloading, since) else Plan(Idle, since, false)
    else if j.state == Downloading then
      match inp.download
      case Waiting => if j.deferred then Plan(Idle, since, false) else Save(j.(deferred := true), Downloading, since)
      case Interrupted => Plan(Idle, since, false)
      case DeferredMidway => Save(j.(deferred := true), Downloading, since)
      case Complete => Save(j.(deferred := false), Verified, since)
    else StepVerified(cfg, j, s, since, inp)
  }

  function StepVerified(cfg: Config, j: Job, s: Option<Device>, since: Option<int>, inp: Inputs): Plan {
    var apply := !j.payloadsApplied && j.release.targets != [];
    if !inp.sbomOk || (apply && !inp.applyOk) then Save(j, Failed, since)
    else
      var j := j.(payloadsApplied := j.payloadsApplied || apply);
      if !j.release.HasOS() then Save(j, Committed, since)
      else if s.None? || s.value.operation.Busy? then Plan(Idle, since, false)
      else if s.value.compatible != cfg.compatible || Other(s.value).None?
              || (exists i | 0 <= i < |s.value.slots| :: s.value.slots[i].version == j.release.version)
              || !inp.artifactOk || inp.later >= j.assignment.deadline || inp.later >= j.release.expires
      then Save(j, Failed, since)
      else
        var d := s.value;
        Plan(SaveJob(j.(oldSlot := d.booted, oldVersion := VersionOf(d, d.booted), targetSlot := Other(d).value,
                        bootID := d.bootID, state := Installing), ThenInstall), since, false)
  }

  function StepInstalled(cfg: Config, j: Job, s: Option<Device>, since: Option<int>, inp: Inputs): Plan {
    if j.state == Installing then Save(j, NeedsRecovery, since)
    else if j.state == NeedsRecovery || s.None? then Plan(Idle, since, false)
    else
      var d := s.value;
      match j.state
      case AwaitingReboot =>
        if d.bootID == j.bootID then
          if d.booted != j.oldSlot then Save(j, NeedsRecovery, since)
          else if !j.rebootRequested && j.assignment.autoReboot
                  && j.assignment.notBefore <= inp.now < j.assignment.deadline
          then Plan(SaveJob(j.(rebootRequested := true), ThenReboot), since, false)
          else Plan(Idle, since, false)
        else if d.booted == j.oldSlot then Save(j, RolledBack, since)
        else if d.booted != j.targetSlot || VersionOf(d, j.targetSlot) != j.release.version
        then Save(j, NeedsRecovery, since)
        else Save(j.(healthStarted := Some(inp.now), bootID := d.bootID), CheckingHealth, None)
      case RollbackPending =>
        if d.operation.Busy? then Plan(Idle, since, false)
        else if d.booted == j.oldSlot then Save(j, RolledBack, since)
        else if d.booted != j.targetSlot then Save(j, NeedsRecovery, since)
        else Plan(CallMark(Bad, j.targetSlot, CallMark(Active, j.oldSlot, CallReboot(None))), since, false)
      case _ => StepHealth(cfg, j, d, since, inp)
  }

  /** CheckingHealth and Committing. */
  function StepHealth(cfg: Config, j: Job, d: Device, since: Option<int>, inp: Inputs): Plan {
    if d.booted == j.oldSlot then Save(j, RolledBack, since)
    else if d.booted != j.targetSlot || VersionOf(d, j.targetSlot) != j.release.version
    then Save(j, NeedsRecovery, since)
    else if d.bootID != j.bootID then Save(j.(bootID := d.bootID), CheckingHealth, None)
    else if j.state == Committing
    then Plan(CallMark(Good, j.targetSlot, SaveJob(j.(state := Committed), Stop)), since, false)
    else if j.healthStarted.None? || inp.now < j.healthStarted.value
            || inp.now >= j.healthStarted.value + cfg.healthTimeout
    then Save(j, RollbackPending, since)
    else if !inp.healthy then Plan(Idle, None, true)
    else
      var since := if since.None? then inp.now else since.value;
      if inp.now - since < cfg.healthStable then Plan(Idle, Some(since), true)
      else Plan(SaveJob(j.(state := Committing), Stop), Some(since), true)
  }

  /** The finished job whose record the normal-boot check trusts: the one with the largest sequence. */
  ghost predicate IsLatest(jobs: map<string, Job>, latest: Option<Job>) {
    match latest
    case Some(j) => j in jobs.Values && (j.state == Committed || j.state == RolledBack) && j.release.sequence > 0
                    && forall id | id in jobs && (jobs[id].state == Committed || jobs[id].state == RolledBack) ::
                         jobs[id].release.sequence <= j.release.sequence
    case None => forall id | id in jobs && (jobs[id].state == Committed || jobs[id].state == RolledBack) ::
                   jobs[id].release.sequence == 0
  }

  /** The version the latest finished job vouches for in a slot. */
  function Known(latest: Job, slot: string): Option<string> {
    if latest.state == Committed && slot == latest.targetSlot then Some(latest.release.version)
    else if slot == latest.oldSlot then Some(latest.oldVersion)
    else None
  }

  function StepNormalBoot(cfg: Config, d: Database, s: Option<Device>, since: Option<int>, inp: Inputs): Plan {
    var nothing := Plan(Idle, since, false);
    if d.jobs == map[] || s.None? || s.value.operation.Busy? then nothing
    else
      var dev := s.value;
      if (d.bootCheck.bootID == dev.bootID && d.bootCheck.confirmed) || inp.latest.None? then nothing
      else if Known(inp.latest.value, dev.booted) != Some(VersionOf(dev, dev.booted)) then nothing
      else if d.bootCheck.bootID != dev.bootID
      then Plan(StartBootCheck(BootCheck(dev.bootID, inp.now, false)), None, false)
      else if inp.now < d.bootCheck.started || inp.now >= d.bootCheck.started + cfg.healthTimeout then
        match Other(dev)
        case None => nothing
        case Some(other) =>
          if Known(inp.latest.value, other) != Some(VersionOf(dev, other)) || !GoodOf(dev, other) then nothing
          else Plan(CallMark(Bad, dev.booted, CallMark(Active, other, CallReboot(None))), since, false)
      else if !inp.healthy then Plan(Idle, None, true)
      else
        var since := if since.None? then inp.now else since.value;
        if inp.now - since < cfg.healthStable then Plan(Idle, Some(since), true)
        else Plan(CallMark(Good, dev.booted, ConfirmBoot), Some(since), true)
  }

  function Decide(cfg: Config, d: Database, s: Option<Device>, since: Option<int>, inp: Inputs): Plan {
    match ActiveJob(d)
    case None => StepNormalBoot(cfg, d, s, since, inp)
    case Some(j) =>
      if BeforeInstall(j.state) then StepBeforeInstall(cfg, j, s, since, inp)
      else if Terminal(j.state) then Plan(Idle, since, false)
      else StepInstalled(cfg, j, s, since, inp)
  }

  function DecideReboot(d: Database, s: Option<Device>, inp: Inputs): Todo {
    match ActiveJob(d)
    case None => Idle
    case Some(j) =>
      if j.state != AwaitingReboot || inp.now < j.assignment.notBefore || inp.now >= j.assignment.deadline
         || s.None? || s.value.bootID != j.bootID || s.value.booted != j.oldSlot || s.value.operation.Busy?
      then Idle
      else SaveJob(j.(rebootRequested := true), ThenReboot)
  }

  function DecideAbort(d: Database, s: Option<Device>): Todo {
    match ActiveJob(d)
    case None => Idle
    case Some(j) =>
      if j.state != NeedsRecovery || s.None? || s.value.operation.Busy? || s.value.booted != j.oldSlot
         || j.targetSlot == "" || j.targetSlot == j.oldSlot
      then Idle
      else CallMark(Bad, j.targetSlot, CallMark(Active, j.oldSlot, SaveJob(j.(state := Failed), Stop)))
  }

  datatype Reply = Existing(job: Job) | Refused | Proceed(job: Job)

  /** Submit up to its journal write. `verified` covers signature, measured boot and supply chain. */
  function DecideSubmit(cfg: Config, d: Database, a: Assignment, verified: bool, now: int): Reply {
    var r := cfg.decode(a.release.payload);
    if !IsIdentifier(a.jobID) || a.deviceID != cfg.deviceID then Refused
    else if a.jobID in d.jobs then
      if d.jobs[a.jobID].fingerprint == FingerprintOf(a) then Existing(d.jobs[a.jobID]) else Refused
    else if !verified || r.sequence == 0 then Refused
    else if a.deadline <= now || a.deadline <= a.notBefore || a.deadline > r.expires then Refused
    else Proceed(Job(a, r, FingerprintOf(a), Accepted, "", "", "", 0, None, false, false, false, now))
  }

  // ---------------------------------------------------------------- journal writes

  /** The change a pending write makes to the journal; None when the write refuses. */
  function Change(t: Todo, d: Database, now: int): Option<Database> {
    match t
    case AcceptJob(j) =>
      if d.active != "" || |d.events| > OUTBOX_HIGH_WATER || j.release.sequence <= d.highSequence then None
      else AddEvent(d.(highSequence := j.release.sequence, active := j.assignment.jobID,
                       jobs := d.jobs[j.assignment.jobID := j]), j, now)
    case SaveJob(j, _) =>
      AddEvent(d.(jobs := d.jobs[j.assignment.jobID := j.(updated := now)],
                  active := if Terminal(j.state) then "" else d.active), j, now)
    case StartBootCheck(c) => Some(d.(bootCheck := c))
    case ConfirmBoot => Some(d.(bootCheck := d.bootCheck.(confirmed := true)))
    case _ => None
  }

  predicate IsWrite(t: Todo) {
    t.AcceptJob? || t.SaveJob? || t.StartBootCheck? || t.ConfirmBoot?
  }

  function AfterWrite(t: Todo, now: int): Todo {
    match t
    case SaveJob(j, ThenInstall) => CallInstall(j.(updated := now))
    case SaveJob(j, ThenReboot) => CallReboot(Some(j.(updated := now)))
    case _ => Idle
  }

  /** The snapshot that `Store.Update` tries to write, if it gets that far. */
  function Attempt(cfg: Config, w: World, change: Option<Database>, spilled: set<string>): Option<Database> {
    if w.poisoned || change.None? || !Journal.Valid(cfg.hotLimit, Without(change.value, spilled)) then None
    else Some(Without(change.value, spilled))
  }

  function Archived(archive: map<string, Job>, d: Database, spilled: set<string>): map<string, Job>
    requires spilled <= d.jobs.Keys
  {
    archive + map id | id in spilled :: d.jobs[id]
  }

  /** `Store.Update`: compaction, validation, commit. `next` is the snapshot to write. */
  function Committed'(w: World, change: Database, spilled: set<string>, outcome: Outcome): World
    requires spilled <= change.jobs.Keys
  {
    var next := Without(change, spilled);
    var archive := Archived(w.archive, change, spilled);
    match outcome
    case Durable => w.(disk := next, mem := next, archive := archive)
    case FailedLost => w.(poisoned := true)
    case FailedKept => w.(disk := next, archive := archive, poisoned := true)
  }

  // ---------------------------------------------------------------- steps

  datatype Boot = Boot(booted: string, primary: string, bootID: nat)

  datatype Label =
    // engine calls begin
    | Submit(a: Assignment, verified: bool, now: int)
    | BeginStep(inp: Inputs)
    | BeginReboot(inp: Inputs)
    | BeginAbort(inp: Inputs)
    // the call in progress continues
    | Write(spilled: set<string>, outcome: Outcome)
    | Install(after: Device, ok: bool, running: bool)
    | Inspect(statusOk: bool)
    | Mark(ok: bool, applied: bool)
    | Reboot(ok: bool, inPlace: Option<Boot>)
    // the event acknowledgment runs beside any call
    | Ack(sequence: nat, spilled: set<string>, outcome: Outcome)
    // the environment
    | SetClock(clock: int)
    | SetOperation(operation: Operation)
    | BackendWrites(after: Device, running: bool)
    | Crash
    | DeviceBoots(boot: Boot)

  function StatusOf(w: World, ok: bool): Option<Device> {
    if ok then Some(w.dev) else None
  }

  function Booted(dev: Device, b: Boot): Device {
    dev.(booted := b.booted, primary := b.primary, bootID := b.bootID)
  }

  ghost predicate Enabled(cfg: Config, w: World, l: Label) {
    match l
    case Submit(_, _, _) => w.todo.Idle?
    case BeginStep(inp) => w.todo.Idle? && IsLatest(w.mem.jobs, inp.latest)
    case BeginReboot(_) => w.todo.Idle?
    case BeginAbort(_) => w.todo.Idle?
    case Write(spilled, _) =>
      && IsWrite(w.todo)
      && var c := Change(w.todo, w.mem, w.clock); c.Some? ==> Spills(cfg.hotLimit, c.value, spilled)
    case Install(after, _, running) =>
      w.todo.CallInstall? && InstallMayYield(w.dev, after) && (running ==> after.operation.Busy?)
    case Inspect(_) => w.todo.InspectInstall?
    case Mark(ok, applied) => w.todo.CallMark? && (ok ==> applied && SlotOf(w.dev, w.todo.slot).Some?)
    case Reboot(ok, inPlace) =>
      w.todo.CallReboot? && (inPlace.Some? ==> ok && inPlace.value.bootID > w.dev.bootID)
    case Ack(sequence, spilled, _) =>
      var c := Acked(w.mem, sequence); c.Some? ==> Spills(cfg.hotLimit, c.value, spilled)
    case SetClock(_) => true
    case SetOperation(op) => w.writer ==> op.Busy?
    case BackendWrites(after, running) =>
      w.writer && InstallMayYield(w.dev, after) && (running ==> after.operation.Busy?)
    case Crash => true
    case DeviceBoots(boot) => boot.bootID > w.dev.bootID
  }

  /** A restarted agent knows only what is durable. */
  function Restarted(w: World): World {
    w.(mem := w.disk, poisoned := false, healthySince := None, todo := Idle)
  }

  function Begin(w: World, p: Plan, inp: Inputs): World {
    w.(todo := p.todo, healthySince := p.healthySince,
       probes := if p.probed then w.probes + [Probe(w.dev.bootID, inp.now, inp.healthy)] else w.probes,
       healthyFrom := if w.healthySince.None? then |w.probes| else w.healthyFrom)
  }

  function DoWrite(cfg: Config, w: World, spilled: set<string>, outcome: Outcome): World
    requires IsWrite(w.todo)
    requires var c := Change(w.todo, w.mem, w.clock); c.Some? ==> spilled <= c.value.jobs.Keys
  {
    var c := Change(w.todo, w.mem, w.clock);
    if Attempt(cfg, w, c, spilled).None? then w.(todo := Idle)
    else
      var v := Committed'(w, c.value, spilled, outcome);
      v.(todo := if outcome == Durable then AfterWrite(w.todo, w.clock) else Idle,
         accepted := if w.todo.AcceptJob? && outcome != FailedLost then w.accepted + [w.todo.job.assignment]
                     else w.accepted)
  }

  function AfterInspect(j: Job, s: Option<Device>): Todo {
    if s.Some? && s.value.operation.Quiet? && s.value.booted == j.oldSlot && s.value.primary == j.targetSlot
       && VersionOf(s.value, j.targetSlot) == j.release.version
    then SaveJob(j.(state := AwaitingReboot), Stop)
    else SaveJob(j.(state := NeedsRecovery), Stop)
  }

  function Apply(cfg: Config, w: World, l: Label): World
    requires Enabled(cfg, w, l)
  {
    match l
    case Submit(a, verified, now) =>
      (match DecideSubmit(cfg, w.mem, a, verified, now)
       case Proceed(j) => w.(todo := AcceptJob(j))
       case _ => w)
    case BeginStep(inp) => Begin(w, Decide(cfg, w.mem, StatusOf(w, inp.statusOk), w.healthySince, inp), inp)
    case BeginReboot(inp) => w.(todo := DecideReboot(w.mem, StatusOf(w, inp.statusOk), inp))
    case BeginAbort(inp) => w.(todo := DecideAbort(w.mem, StatusOf(w, inp.statusOk)))
    case Write(spilled, outcome) => DoWrite(cfg, w, spilled, outcome)
    case Install(after, ok, running) =>
      w.(dev := after, writer := running, installs := w.installs + multiset{w.todo.job.release.sequence},
         todo := if ok then InspectInstall(w.todo.job) else SaveJob(w.todo.job.(state := NeedsRecovery), Stop))
    case Inspect(statusOk) => w.(todo := AfterInspect(w.todo.job, StatusOf(w, statusOk)))
    case Mark(ok, applied) =>
      w.(dev := if applied then Marked(w.dev, w.todo.kind, w.todo.slot) else w.dev,
         todo := if ok then w.todo.next else Idle)
    case Reboot(ok, inPlace) =>
      if inPlace.Some? then w.(dev := Booted(w.dev, inPlace.value), writer := false, todo := Idle)
      else if !ok && w.todo.asked.Some?
      then w.(todo := SaveJob(w.todo.asked.value.(rebootRequested := false), Stop))
      else w.(todo := Idle)
    case Ack(sequence, spilled, outcome) =>
      var c := Acked(w.mem, sequence);
      if Attempt(cfg, w, c, spilled).None? then w else Committed'(w, c.value, spilled, outcome)
    case SetClock(t) => w.(clock := t)
    case SetOperation(op) => w.(dev := w.dev.(operation := op))
    case BackendWrites(after, running) => w.(dev := after, writer := running)
    case Crash => Restarted(w)
    case DeviceBoots(boot) => Restarted(w.(dev := Booted(w.dev, boot), writer := false))
  }

  ghost predicate Next(cfg: Config, w: World, l: Label, w': World) {
    Enabled(cfg, w, l) && w' == Apply(cfg, w, l)
  }

  /** A provisioned device and an agent that has never accepted a job. */
  predicate Init(w: World) {
    && w.disk == EmptyDatabase() && w.mem == w.disk && w.archive == map[] && !w.poisoned
    && w.healthySince.None? && w.todo.Idle? && w.dev.bootID > 0 && !w.writer
    && w.installs == multiset{} && w.probes == [] && w.accepted == []
  }

  /** `ws` is a run: `ls[i]` leads from `ws[i]` to `ws[i + 1]`. */
  ghost predicate IsRun(cfg: Config, ws: seq<World>, ls: seq<Label>) {
    && |ws| == |ls| + 1 && Init(ws[0])
    && forall i | 0 <= i < |ls| :: Next(cfg, ws[i], ls[i], ws[i + 1])
  }
}
