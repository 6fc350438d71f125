/**
 What one call durably does (internal/ota/engine.go, internal/ota/boot.go): for every state of the active job, every
 device and every input, exactly when a call in which nothing fails ends in which record of the job.
 */
module Answers {
  import opened Model
  import opened Journal
  import opened Engine
  import opened EngineInvariant
  import EngineWrites
  import EngineRuns
  import opened EngineTheorems
  import Liveness

  /** The durable record of a job, hot or archived. */
  function RecordOf(w: World, id: string): Option<Job> {
    if id in w.disk.jobs then Some(w.disk.jobs[id]) else if id in w.archive then Some(w.archive[id]) else None
  }

  /** One call of Step from rest, in which no commit and no backend call on an existing slot fails. */
  ghost predicate Call(cfg: Config, inp: Inputs, ws: seq<World>, ls: seq<Label>, j: Job) {
    && |ws| == |ls| + 1 && |ls| >= 1 && Liveness.IsRound(cfg, inp, ws, ls) && Inv(cfg, ws[0]) && !ws[0].poisoned
    && |ws[0].mem.events| + 2 <= OUTBOX_LIMIT
    && ActiveJob(ws[0].disk) == Some(j)
  }

  // ---------------------------------------------------------------- the pieces of a call

  lemma Begun(cfg: Config, inp: Inputs, ws: seq<World>, ls: seq<Label>, j: Job)
    requires Call(cfg, inp, ws, ls, j)
    ensures Inv(cfg, ws[1]) && ActiveJob(ws[0].mem) == Some(j) && ws[0].mem == ws[0].disk && !Terminal(j.state)
    ensures ws[0].disk.active == j.assignment.jobID && j.assignment.jobID in ws[0].disk.jobs
    ensures ws[0].disk.jobs[j.assignment.jobID] == j
    ensures ws[1] == ws[0].(todo := ws[1].todo, healthySince := ws[1].healthySince, probes := ws[1].probes,
                            healthyFrom := ws[1].healthyFrom)
    ensures var p := Decide(cfg, ws[0].mem, StatusOf(ws[0], inp.statusOk), ws[0].healthySince, inp);
            ws[1].todo == p.todo && ws[1].healthySince == p.healthySince
  {
    hide Inv, Decide, IsLatest, Spills;
    assert Liveness.Moves(cfg, ws, ls, 0);
    EngineWrites.Keep(cfg, ws[0], ls[0]);
    InSync(cfg, ws[0]);
    ActiveFacts(cfg, ws[0]);
  }

  lemma ActiveFacts(cfg: Config, w: World)
    requires Inv(cfg, w) && ActiveJob(w.disk).Some?
    ensures !Terminal(ActiveJob(w.disk).value.state) && w.disk.active == ActiveJob(w.disk).value.assignment.jobID
  {
    hide Agrees, Increasing, InstallsOnce, Healthy, Synced, Allowed, WriterOwned;
    assert JobConsistent(w.disk, w.disk.active);
  }

  /** A call that decides to do nothing leaves the record. */
  lemma CallRests(cfg: Config, inp: Inputs, ws: seq<World>, ls: seq<Label>, j: Job)
    requires Call(cfg, inp, ws, ls, j) && ws[1].todo.Idle?
    ensures |ls| == 1 && RecordOf(ws[|ls|], j.assignment.jobID) == Some(j) && ws[|ls|].dev == ws[0].dev
    ensures ws[|ls|].healthySince == ws[1].healthySince
    ensures ws[|ls|].installs == ws[0].installs
  {
    hide Inv, Liveness.Moves, Decide, ActiveJob;
    Begun(cfg, inp, ws, ls, j);
    Liveness.Unrolled(cfg, inp, ws, ls, 1);
  }

  /** A save that goes through is what is recorded. */
  lemma SavedRecord(cfg: Config, w: World, l: Label, v: World, k: Job, andThen: Then)
    requires Inv(cfg, w) && !w.poisoned && w.todo == SaveJob(k, andThen) && |w.mem.events| < OUTBOX_LIMIT
    requires Next(cfg, w, l, v) && Liveness.Smooth(w, l)
    ensures Inv(cfg, v) && !v.poisoned && v.todo == AfterWrite(w.todo, w.clock) && v.dev == w.dev
    ensures RecordOf(v, k.assignment.jobID) == Some(k.(updated := w.clock))
    ensures |v.mem.events| == |w.mem.events| + 1 && v.clock == w.clock && v.installs == w.installs
    ensures v.healthySince == w.healthySince
    ensures !Terminal(k.state) ==> ActiveJob(v.mem) == Some(k.(updated := w.clock))
  {
    hide Inv, Journal.Valid, Spills, AfterWrite;
    EngineWrites.Keep(cfg, w, l);
    EngineRuns.WritesAreValid(cfg, w, l.spilled, l.outcome);
    EngineRuns.ChangeKeepsJobs(cfg, w.todo, w.mem, w.clock, l.spilled);
    SaveFacts(cfg, w, l.spilled, l.outcome);
  }

  lemma SaveFacts(cfg: Config, w: World, spilled: set<string>, outcome: Outcome)
    requires Inv(cfg, w) && !w.poisoned && w.todo.SaveJob? && Enabled(cfg, w, Write(spilled, outcome))
    requires Change(w.todo, w.mem, w.clock).Some?
    ensures !Terminal(w.todo.job.state) ==>
              ActiveJob(Without(Change(w.todo, w.mem, w.clock).value, spilled)) == Some(w.todo.job.(updated := w.clock))
  {
    hide Inv, Journal.Valid, Spills, AddEvent, ActiveJob;
    EngineRuns.WritesAreValid(cfg, w, spilled, outcome);
    Liveness.SaveFacts(cfg, w, spilled, outcome);
  }

  /** A call that saves the job as `k` and does no more. */
  lemma CallSaves(cfg: Config, inp: Inputs, ws: seq<World>, ls: seq<Label>, j: Job, k: Job)
    requires Call(cfg, inp, ws, ls, j) && ws[1].todo == SaveJob(k, Stop) && k.assignment == j.assignment
    ensures |ls| == 2 && RecordOf(ws[|ls|], j.assignment.jobID) == Some(k.(updated := ws[0].clock))
    ensures ws[|ls|].healthySince == ws[1].healthySince
    ensures ws[|ls|].dev == ws[0].dev && ws[|ls|].installs == ws[0].installs
  {
    hide Inv, Liveness.Moves, Next, Decide, ActiveJob, RecordOf, Liveness.Smooth;
    Begun(cfg, inp, ws, ls, j);
    Liveness.Unrolled(cfg, inp, ws, ls, 1);
    SavedRecord(cfg, ws[1], ls[1], ws[2], k, Stop);
    Liveness.Unrolled(cfg, inp, ws, ls, 2);
  }

  // ---------------------------------------------------------------- before the installation

  /** The call falls into the job's window. */
  predicate Open(j: Job, inp: Inputs) {
    j.assignment.notBefore <= inp.now < j.assignment.deadline
  }

  /** In its window and under a release envelope that still verifies. */
  predicate Trusted(j: Job, inp: Inputs) {
    Open(j, inp) && inp.envelopeOk
  }

  /** The SBOM holds, and the side payloads are applied or can be. */
  predicate PayloadsFine(j: Job, inp: Inputs) {
    inp.sbomOk && (j.payloadsApplied || j.release.targets == [] || inp.applyOk)
  }

  /** The device can take the image, which is intact, and there is still time. */
  predicate ImageFine(cfg: Config, d: Device, j: Job, inp: Inputs) {
    && d.compatible == cfg.compatible && Other(d).Some?
    && (forall i | 0 <= i < |d.slots| :: d.slots[i].version != j.release.version)
    && inp.artifactOk && inp.later < j.assignment.deadline && inp.later < j.release.expires
  }

  /** The backend answers and is idle. */
  predicate Answering(d: Device, inp: Inputs) {
    inp.statusOk && d.operation.Quiet?
  }

  /** The image is installed. */
  predicate Installs(cfg: Config, d: Device, j: Job, inp: Inputs) {
    && j.state == Verified && Trusted(j, inp) && PayloadsFine(j, inp) && j.release.HasOS()
    && Answering(d, inp) && ImageFine(cfg, d, j, inp)
  }

  /** Nothing but side payloads was asked for, and they are in place. */
  predicate Completes(j: Job, inp: Inputs) {
    j.state == Verified && Trusted(j, inp) && PayloadsFine(j, inp) && !j.release.HasOS()
  }

  /** The job is out of time, or something signed or measured is wrong. */
  predicate GivesUp(cfg: Config, d: Device, j: Job, inp: Inputs) {
    || inp.now >= j.assignment.deadline
    || (Open(j, inp) && !inp.envelopeOk)
    || (&& j.state == Verified && Trusted(j, inp)
        && (!PayloadsFine(j, inp) || (j.release.HasOS() && Answering(d, inp) && !ImageFine(cfg, d, j, inp))))
  }

  /** The record made before an installation. */
  function Prepared(d: Device, j: Job): Job
    requires Other(d).Some?
  {
    j.(payloadsApplied := j.payloadsApplied || j.release.targets != [], oldSlot := d.booted,
       oldVersion := VersionOf(d, d.booted), targetSlot := Other(d).value, bootID := d.bootID, state := Installing)
  }

  /** Before and after the window, and under an envelope that no longer verifies, the state does not matter. */
  lemma PlansOutside(cfg: Config, w: World, j: Job, inp: Inputs)
    requires ActiveJob(w.mem) == Some(j) && BeforeInstall(j.state) && !Trusted(j, inp)
    ensures var t := Decide(cfg, w.mem, StatusOf(w, inp.statusOk), w.healthySince, inp).todo;
            if inp.now >= j.assignment.deadline || Open(j, inp) then t == SaveJob(j.(state := Failed), Stop)
               else t.Idle?
  {
    hide FindSlot, StepNormalBoot, StepInstalled, StepVerified;
  }

  lemma PlansAccepted(cfg: Config, w: World, j: Job, inp: Inputs)
    requires ActiveJob(w.mem) == Some(j) && j.state == Accepted && Trusted(j, inp)
    ensures var t := Decide(cfg, w.mem, StatusOf(w, inp.statusOk), w.healthySince, inp).todo;
            if inp.armed then t == SaveJob(j.(state := Downloading), Stop) else t.Idle?
  {
    hide FindSlot, StepNormalBoot, StepInstalled, StepVerified;
  }

  lemma PlansDownloading(cfg: Config, w: World, j: Job, inp: Inputs)
    requires ActiveJob(w.mem) == Some(j) && j.state == Downloading && Trusted(j, inp)
    ensures var t := Decide(cfg, w.mem, StatusOf(w, inp.statusOk), w.healthySince, inp).todo;
            if inp.download.Complete? then t == SaveJob(j.(deferred := false, state := Verified), Stop)
            else if inp.download.DeferredMidway? || (inp.download.Waiting? && !j.deferred)
            then t == SaveJob(j.(deferred := true), Stop)
            else t.Idle?
  {
    hide FindSlot, StepNormalBoot, StepInstalled, StepVerified;
  }

  lemma PlansVerified(cfg: Config, w: World, j: Job, inp: Inputs)
    requires ActiveJob(w.mem) == Some(j) && j.state == Verified && Trusted(j, inp)
    ensures Decide(cfg, w.mem, StatusOf(w, inp.statusOk), w.healthySince, inp)
            == StepVerified(cfg, j, StatusOf(w, inp.statusOk), w.healthySince, inp)
  {
    hide FindSlot, StepNormalBoot, StepInstalled, StepVerified;
  }

  /** Past the window and the envelope, the checks of a Verified job. */
  lemma VerifiedDecides(cfg: Config, j: Job, s: Option<Device>, since: Option<int>, inp: Inputs)
    requires j.state == Verified
    ensures var t := StepVerified(cfg, j, s, since, inp).todo;
            if !PayloadsFine(j, inp) then t == SaveJob(j.(state := Failed), Stop)
            else
              var k := j.(payloadsApplied := j.payloadsApplied || j.release.targets != []);
              if !j.release.HasOS() then t == SaveJob(k.(state := Committed), Stop)
              else if s.None? || s.value.operation.Busy? then t.Idle?
              else if !ImageFine(cfg, s.value, j, inp) then t == SaveJob(k.(state := Failed), Stop)
              else t == SaveJob(Prepared(s.value, j), ThenInstall)
  {
    hide FindSlot, Release.HasOS, Other;
  }

  /**
   A job before its download: it fails when it is out of time or its envelope no longer verifies, goes on to Downloading
   in its window, and otherwise stays as it is.
   */
  lemma AcceptedCall(cfg: Config, inp: Inputs, ws: seq<World>, ls: seq<Label>, j: Job)
    requires Call(cfg, inp, ws, ls, j) && j.state == Accepted
    ensures var f := RecordOf(ws[|ls|], j.assignment.jobID);
            && f.Some?
            && (f.value.state == Failed <==> GivesUp(cfg, ws[0].dev, j, inp))
            && (f.value.state == Downloading <==> Trusted(j, inp) && inp.armed)
            && (if f.value.state == Failed || f.value.state == Downloading
                then f.value == j.(state := f.value.state, updated := ws[0].clock) else f.value == j)
    ensures ws[|ls|].installs == ws[0].installs && ws[|ls|].dev == ws[0].dev
  {
    hide Inv, Decide, ActiveJob, RecordOf, Liveness.IsRound;
    Begun(cfg, inp, ws, ls, j);
    if !Trusted(j, inp) {
      PlansOutside(cfg, ws[0], j, inp);
    } else {
      PlansAccepted(cfg, ws[0], j, inp);
    }
    Settles(cfg, inp, ws, ls, j);
  }

  /** A call that rests or saves. */
  lemma Settles(cfg: Config, inp: Inputs, ws: seq<World>, ls: seq<Label>, j: Job)
    requires Call(cfg, inp, ws, ls, j)
    requires ws[1].todo.Idle?
             || (ws[1].todo.SaveJob? && ws[1].todo.andThen == Stop && ws[1].todo.job.assignment == j.assignment)
    ensures RecordOf(ws[|ls|], j.assignment.jobID)
            == Some(if ws[1].todo.Idle? then j else ws[1].todo.job.(updated := ws[0].clock))
    ensures ws[|ls|].healthySince == ws[1].healthySince
    ensures ws[|ls|].dev == ws[0].dev && ws[|ls|].installs == ws[0].installs
  {
    hide RecordOf, Inv, Liveness.IsRound, ActiveJob;
    if ws[1].todo.Idle? {
      CallRests(cfg, inp, ws, ls, j);
    } else {
      CallSaves(cfg, inp, ws, ls, j, ws[1].todo.job);
    }
  }

  /** A job being downloaded. */
  lemma DownloadingCall(cfg: Config, inp: Inputs, ws: seq<World>, ls: seq<Label>, j: Job)
    requires Call(cfg, inp, ws, ls, j) && j.state == Downloading
    ensures var f := RecordOf(ws[|ls|], j.assignment.jobID);
            && f.Some?
            && (f.value.state == Failed <==> GivesUp(cfg, ws[0].dev, j, inp))
            && (f.value.state == Verified <==> Trusted(j, inp) && inp.download.Complete?)
            && (f.value.state != Failed && f.value.state != Verified ==> f.value.state == Downloading)
            && (f.value.state == Downloading ==>
                  (f.value.deferred <==>
                     j.deferred || (Trusted(j, inp) && (inp.download.DeferredMidway? || inp.download.Waiting?))))
            && (f.value.state == Verified ==> !f.value.deferred)
            && f.value == j.(state := f.value.state, deferred := f.value.deferred, updated := f.value.updated)
    ensures ws[|ls|].installs == ws[0].installs && ws[|ls|].dev == ws[0].dev
  {
    hide Inv, Decide, ActiveJob, RecordOf, Liveness.IsRound;
    Begun(cfg, inp, ws, ls, j);
    if !Trusted(j, inp) {
      PlansOutside(cfg, ws[0], j, inp);
    } else {
      PlansDownloading(cfg, ws[0], j, inp);
    }
    Settles(cfg, inp, ws, ls, j);
  }

  /** What an installation and the inspection after it make of the record. */
  lemma CallInstalls(cfg: Config, inp: Inputs, ws: seq<World>, ls: seq<Label>, j: Job)
    requires Call(cfg, inp, ws, ls, j) && Other(ws[0].dev).Some?
    requires ws[1].todo == SaveJob(Prepared(ws[0].dev, j), ThenInstall)
    ensures |ls| >= 4 && ls[2].Install?
    ensures RecordOf(ws[2], j.assignment.jobID) == Some(Prepared(ws[0].dev, j).(updated := ws[0].clock))
    ensures ws[|ls|].installs == ws[0].installs + multiset{j.release.sequence}
    ensures var f := RecordOf(ws[|ls|], j.assignment.jobID); var d := ws[|ls|].dev;
            && f.Some? && (f.value.state == AwaitingReboot || f.value.state == NeedsRecovery)
            && (f.value.state == AwaitingReboot <==>
                  && ls[2].ok && d.operation.Quiet? && d.booted == ws[0].dev.booted
                  && d.primary == Other(ws[0].dev).value
                  && VersionOf(d, d.primary) == j.release.version)
            && f.value == Prepared(ws[0].dev, j).(updated := ws[0].clock, state := f.value.state)
  {
    hide Inv, Liveness.Moves, Next, Decide, ActiveJob, RecordOf, Liveness.Smooth, Other, FindSlot, Liveness.IsRound;
    Begun(cfg, inp, ws, ls, j);
    var k := Prepared(ws[0].dev, j);
    Liveness.Unrolled(cfg, inp, ws, ls, 1);
    SavedRecord(cfg, ws[1], ls[1], ws[2], k, ThenInstall);
    Liveness.Unrolled(cfg, inp, ws, ls, 2);
    var k' := k.(updated := ws[0].clock);
    InstallStep(cfg, ws[2], ls[2], ws[3], k');
    Liveness.Unrolled(cfg, inp, ws, ls, 3);
    if ls[2].ok {
      InspectStep(cfg, ws[3], ls[3], ws[4], k');
      Liveness.Unrolled(cfg, inp, ws, ls, 4);
      SavedRecord(cfg, ws[4], ls[4], ws[5], ws[4].todo.job, Stop);
      Liveness.Unrolled(cfg, inp, ws, ls, 5);
    } else {
      SavedRecord(cfg, ws[3], ls[3], ws[4], ws[3].todo.job, Stop);
      Liveness.Unrolled(cfg, inp, ws, ls, 4);
    }
  }

  lemma InstallStep(cfg: Config, w: World, l: Label, v: World, k: Job)
    requires Inv(cfg, w) && w.todo == CallInstall(k) && Next(cfg, w, l, v) && Liveness.Smooth(w, l)
    ensures Inv(cfg, v) && l.Install? && v.mem == w.mem && v.poisoned == w.poisoned && v.clock == w.clock
    ensures v.todo == if l.ok then InspectInstall(k) else SaveJob(k.(state := NeedsRecovery), Stop)
    ensures v.installs == w.installs + multiset{k.release.sequence}
  {
    hide Inv, InstallMayYield;
    EngineWrites.Keep(cfg, w, l);
  }

  lemma InspectStep(cfg: Config, w: World, l: Label, v: World, k: Job)
    requires Inv(cfg, w) && w.todo == InspectInstall(k) && Next(cfg, w, l, v) && Liveness.Smooth(w, l)
    ensures Inv(cfg, v) && v.mem == w.mem && v.poisoned == w.poisoned && v.clock == w.clock
    ensures v.dev == w.dev && v.installs == w.installs
    ensures v.todo.SaveJob? && v.todo.andThen == Stop
    ensures v.todo.job == k.(state := v.todo.job.state)
    ensures v.todo.job.state == AwaitingReboot || v.todo.job.state == NeedsRecovery
    ensures v.todo.job.state == AwaitingReboot <==>
              && w.dev.operation.Quiet? && w.dev.booted == k.oldSlot && w.dev.primary == k.targetSlot
              && VersionOf(w.dev, k.targetSlot) == k.release.version
  {
    hide Inv, FindSlot;
    EngineWrites.Keep(cfg, w, l);
  }

  /**
   A job whose artifacts are there: it fails, completes with its side payloads, or is installed, each under exactly the
   stated conditions, and otherwise stays as it is. It is installed at most once, and only then is anything installed.
   */
  lemma VerifiedCall(cfg: Config, inp: Inputs, ws: seq<World>, ls: seq<Label>, j: Job)
    requires Call(cfg, inp, ws, ls, j) && j.state == Verified
    ensures var f := RecordOf(ws[|ls|], j.assignment.jobID);
            && f.Some?
            && (f.value.state == Failed <==> GivesUp(cfg, ws[0].dev, j, inp))
            && (f.value.state == Committed <==> Completes(j, inp))
            && (f.value.state == AwaitingReboot || f.value.state == NeedsRecovery <==> Installs(cfg, ws[0].dev, j, inp))
            && (f.value.state == Verified ==> f.value == j)
            && (f.value.state == Failed || f.value.state == Committed || f.value.state == AwaitingReboot
                || f.value.state == NeedsRecovery || f.value.state == Verified)
            && (f.value.state == Failed || f.value.state == Committed ==>
                  var applied := Trusted(j, inp) && PayloadsFine(j, inp) && j.release.targets != [];
                  f.value == j.(state := f.value.state, payloadsApplied := j.payloadsApplied || applied,
                                updated := ws[0].clock))
    ensures ws[|ls|].installs
            == ws[0].installs + if Installs(cfg, ws[0].dev, j, inp) then multiset{j.release.sequence} else multiset{}
  {
    hide Inv, Decide, ActiveJob, RecordOf, Liveness.IsRound, Other, Release.HasOS, FindSlot, StepVerified;
    Begun(cfg, inp, ws, ls, j);
    if !Trusted(j, inp) {
      PlansOutside(cfg, ws[0], j, inp);
      Settles(cfg, inp, ws, ls, j);
    } else {
      PlansVerified(cfg, ws[0], j, inp);
      VerifiedDecides(cfg, j, StatusOf(ws[0], inp.statusOk), ws[0].healthySince, inp);
      if Installs(cfg, ws[0].dev, j, inp) {
        CallInstalls(cfg, inp, ws, ls, j);
      } else {
        Settles(cfg, inp, ws, ls, j);
      }
    }
  }

  // ---------------------------------------------------------------- after the installation

  /** The new slot is booted with the version of the release. */
  predicate OnTarget(d: Device, j: Job) {
    d.booted != j.oldSlot && d.booted == j.targetSlot && VersionOf(d, j.targetSlot) == j.release.version
  }

  /** Some other slot, or another version, is booted. */
  predicate Astray(d: Device, j: Job) {
    d.booted != j.oldSlot && !OnTarget(d, j)
  }

  /** The reboot is due without being asked for again. */
  predicate Reboots(j: Job, inp: Inputs) {
    !j.rebootRequested && j.assignment.autoReboot && Open(j, inp)
  }

  lemma PlansInstalling(cfg: Config, w: World, j: Job, inp: Inputs)
    requires ActiveJob(w.mem) == Some(j) && (j.state == Installing || j.state == NeedsRecovery)
    ensures var t := Decide(cfg, w.mem, StatusOf(w, inp.statusOk), w.healthySince, inp).todo;
            if j.state == Installing then t == SaveJob(j.(state := NeedsRecovery), Stop) else t.Idle?
  {
    hide FindSlot, StepNormalBoot, StepBeforeInstall, StepHealth;
  }

  /** An installation that was interrupted always needs recovery; a job that needs recovery stays as it is. */
  lemma InterruptedCall(cfg: Config, inp: Inputs, ws: seq<World>, ls: seq<Label>, j: Job)
    requires Call(cfg, inp, ws, ls, j) && (j.state == Installing || j.state == NeedsRecovery)
    ensures var f := RecordOf(ws[|ls|], j.assignment.jobID);
            f.Some? && f.value.state == NeedsRecovery && (j.state == NeedsRecovery ==> f.value == j)
    ensures ws[|ls|].installs == ws[0].installs && ws[|ls|].dev == ws[0].dev
  {
    hide Inv, Decide, ActiveJob, RecordOf, Liveness.IsRound;
    Begun(cfg, inp, ws, ls, j);
    PlansInstalling(cfg, ws[0], j, inp);
    Settles(cfg, inp, ws, ls, j);
  }

  lemma PlansAwaiting(cfg: Config, w: World, j: Job, inp: Inputs)
    requires ActiveJob(w.mem) == Some(j) && j.state == AwaitingReboot
    ensures var t := Decide(cfg, w.mem, StatusOf(w, inp.statusOk), w.healthySince, inp).todo; var d := w.dev;
            if !inp.statusOk then t.Idle?
            else if d.bootID == j.bootID && d.booted == j.oldSlot then
              if Reboots(j, inp) then t == SaveJob(j.(rebootRequested := true), ThenReboot) else t.Idle?
            else if d.bootID != j.bootID && d.booted == j.oldSlot then t == SaveJob(j.(state := RolledBack), Stop)
            else if d.bootID != j.bootID && OnTarget(d, j)
            then t == SaveJob(j.(healthStarted := Some(inp.now), bootID := d.bootID, state := CheckingHealth), Stop)
            else t == SaveJob(j.(state := NeedsRecovery), Stop)
  {
    hide FindSlot, StepNormalBoot, StepBeforeInstall, StepHealth;
  }

  lemma RebootStep(cfg: Config, w: World, l: Label, v: World)
    requires Inv(cfg, w) && w.todo.CallReboot? && Next(cfg, w, l, v) && Liveness.Smooth(w, l)
    ensures Inv(cfg, v) && v == w.(dev := Booted(w.dev, Boot(w.dev.primary, w.dev.primary, w.dev.bootID + 1)),
                                   writer := false, todo := Idle)
  {
    hide Inv;
    EngineWrites.Keep(cfg, w, l);
  }

  /** A call that records the request and reboots. */
  lemma CallReboots(cfg: Config, inp: Inputs, ws: seq<World>, ls: seq<Label>, j: Job, k: Job)
    requires Call(cfg, inp, ws, ls, j) && ws[1].todo == SaveJob(k, ThenReboot) && k.assignment == j.assignment
    ensures RecordOf(ws[|ls|], j.assignment.jobID) == Some(k.(updated := ws[0].clock))
    ensures ws[|ls|].installs == ws[0].installs
    ensures ws[|ls|].dev == Booted(ws[0].dev, Boot(ws[0].dev.primary, ws[0].dev.primary, ws[0].dev.bootID + 1))
  {
    hide Inv, Liveness.Moves, Next, Decide, ActiveJob, RecordOf, Liveness.Smooth, Liveness.IsRound;
    Begun(cfg, inp, ws, ls, j);
    Liveness.Unrolled(cfg, inp, ws, ls, 1);
    SavedRecord(cfg, ws[1], ls[1], ws[2], k, ThenReboot);
    Liveness.Unrolled(cfg, inp, ws, ls, 2);
    RebootStep(cfg, ws[2], ls[2], ws[3]);
    Liveness.Unrolled(cfg, inp, ws, ls, 3);
    SameRecord(ws[2], ws[3], j.assignment.jobID);
  }

  lemma SameRecord(w: World, v: World, id: string)
    requires v.disk == w.disk && v.archive == w.archive
    ensures RecordOf(v, id) == RecordOf(w, id)
  {
  }

  /**
   A job that waits for its reboot: found on the old slot after a boot it is rolled back, found on the new slot with the
   right version its health window opens now, found anywhere else it needs recovery; before a boot it is rebooted
   exactly when a reboot is due.
   */
  lemma AwaitingCall(cfg: Config, inp: Inputs, ws: seq<World>, ls: seq<Label>, j: Job)
    requires Call(cfg, inp, ws, ls, j) && j.state == AwaitingReboot
    ensures var f := RecordOf(ws[|ls|], j.assignment.jobID); var d := ws[0].dev; var rebooted := d.bootID != j.bootID;
            && f.Some?
            && (f.value.state == RolledBack <==> inp.statusOk && rebooted && d.booted == j.oldSlot)
            && (f.value.state == CheckingHealth <==> inp.statusOk && rebooted && OnTarget(d, j))
            && (f.value.state == CheckingHealth ==>
                  f.value == j.(healthStarted := Some(inp.now), bootID := d.bootID, state := CheckingHealth,
                                updated := ws[0].clock))
            && (f.value.state == RolledBack || f.value.state == NeedsRecovery ==>
                  f.value == j.(state := f.value.state, updated := ws[0].clock))
            && (f.value.state == NeedsRecovery <==>
                  inp.statusOk && if rebooted then Astray(d, j) else d.booted != j.oldSlot)
            && (f.value.state == AwaitingReboot ==>
                f.value == j || f.value == j.(rebootRequested := true, updated := ws[0].clock))
    ensures ws[|ls|].dev.bootID != ws[0].dev.bootID <==>
              inp.statusOk && ws[0].dev.bootID == j.bootID && ws[0].dev.booted == j.oldSlot && Reboots(j, inp)
    ensures ws[|ls|].dev.bootID != ws[0].dev.bootID ==>
              ws[|ls|].dev.booted == ws[0].dev.primary && RecordOf(ws[|ls|], j.assignment.jobID).value.rebootRequested
    ensures ws[|ls|].installs == ws[0].installs
  {
    hide Inv, Decide, ActiveJob, RecordOf, Liveness.IsRound, FindSlot;
    Begun(cfg, inp, ws, ls, j);
    PlansAwaiting(cfg, ws[0], j, inp);
    if ws[1].todo.SaveJob? && ws[1].todo.andThen == ThenReboot {
      CallReboots(cfg, inp, ws, ls, j, ws[1].todo.job);
    } else {
      Settles(cfg, inp, ws, ls, j);
    }
  }

  /** The health window, opened once, is open. */
  predicate InWindow(cfg: Config, j: Job, inp: Inputs) {
    j.healthStarted.Some? && j.healthStarted.value <= inp.now < j.healthStarted.value + cfg.healthTimeout
  }

  /** Health has been good for long enough. */
  predicate Stable(cfg: Config, since: Option<int>, inp: Inputs) {
    inp.healthy && inp.now - (if since.Some? then since.value else inp.now) >= cfg.healthStable
  }

  /** The call probes the health of the job's target. */
  predicate Probing(cfg: Config, d: Device, j: Job, inp: Inputs) {
    inp.statusOk && OnTarget(d, j) && d.bootID == j.bootID && j.state == CheckingHealth && InWindow(cfg, j, inp)
  }

  /** When the current streak of passed probes began, after this probe. */
  function Since(since: Option<int>, inp: Inputs): Option<int> {
    if !inp.healthy then None else if since.Some? then since else Some(inp.now)
  }

  lemma PlansHealth(cfg: Config, w: World, j: Job, inp: Inputs)
    requires ActiveJob(w.mem) == Some(j) && (j.state == CheckingHealth || j.state == Committing)
    ensures var p := Decide(cfg, w.mem, StatusOf(w, inp.statusOk), w.healthySince, inp); var d := w.dev;
            if !inp.statusOk then p.todo.Idle?
            else if d.booted == j.oldSlot then p.todo == SaveJob(j.(state := RolledBack), Stop)
            else if Astray(d, j) then p.todo == SaveJob(j.(state := NeedsRecovery), Stop)
            else if d.bootID != j.bootID then p.todo == SaveJob(j.(bootID := d.bootID, state := CheckingHealth), Stop)
            else if j.state == Committing
            then p.todo == CallMark(Good, j.targetSlot, SaveJob(j.(state := Committed), Stop))
            else if !InWindow(cfg, j, inp) then p.todo == SaveJob(j.(state := RollbackPending), Stop)
            else if Stable(cfg, w.healthySince, inp) then p.todo == SaveJob(j.(state := Committing), Stop)
            else p.todo.Idle?
    ensures Probing(cfg, w.dev, j, inp) ==>
              Decide(cfg, w.mem, StatusOf(w, inp.statusOk), w.healthySince, inp).healthySince
              == Since(w.healthySince, inp)
  {
    hide FindSlot, StepNormalBoot, StepBeforeInstall;
  }

  /** A call that marks the booted slot good and then saves. */
  lemma CallCommits(cfg: Config, inp: Inputs, ws: seq<World>, ls: seq<Label>, j: Job, k: Job)
    requires Call(cfg, inp, ws, ls, j) && ws[1].todo == CallMark(Good, j.targetSlot, SaveJob(k, Stop))
    requires k.assignment == j.assignment && SlotOf(ws[0].dev, j.targetSlot).Some?
    ensures RecordOf(ws[|ls|], j.assignment.jobID) == Some(k.(updated := ws[0].clock))
    ensures ws[|ls|].dev == Marked(ws[0].dev, Good, j.targetSlot) && ws[|ls|].installs == ws[0].installs
  {
    hide Inv, Liveness.Moves, Next, Decide, ActiveJob, RecordOf, Liveness.Smooth, Liveness.IsRound, FindSlot, Marked;
    Begun(cfg, inp, ws, ls, j);
    Liveness.Unrolled(cfg, inp, ws, ls, 1);
    Liveness.MarkedOnce(cfg, ws[1], ls[1], ws[2]);
    Liveness.Unrolled(cfg, inp, ws, ls, 2);
    SavedRecord(cfg, ws[2], ls[2], ws[3], k, Stop);
    Liveness.Unrolled(cfg, inp, ws, ls, 3);
  }

  /** A job under health verification: each verdict under exactly its condition. */
  lemma HealthCall(cfg: Config, inp: Inputs, ws: seq<World>, ls: seq<Label>, j: Job)
    requires Call(cfg, inp, ws, ls, j) && (j.state == CheckingHealth || j.state == Committing)
    requires SlotOf(ws[0].dev, j.targetSlot).Some?
    ensures var f := RecordOf(ws[|ls|], j.assignment.jobID); var d := ws[0].dev;
            var here := inp.statusOk && OnTarget(d, j) && d.bootID == j.bootID;
            && f.Some?
            && (f.value.state == RolledBack <==> inp.statusOk && d.booted == j.oldSlot)
            && (f.value.state == NeedsRecovery <==> inp.statusOk && Astray(d, j))
            && (f.value.state == Committed <==> here && j.state == Committing)
            && (f.value.state == RollbackPending <==> here && j.state == CheckingHealth && !InWindow(cfg, j, inp))
            && (f.value.state == Committing <==>
                  || (j.state == Committing && !inp.statusOk)
                  || (here && j.state == CheckingHealth && InWindow(cfg, j, inp)
                      && Stable(cfg, ws[0].healthySince, inp)))
            && (f.value.state == CheckingHealth <==>
                  || (j.state == CheckingHealth && !inp.statusOk)
                  || (inp.statusOk && OnTarget(d, j) && d.bootID != j.bootID)
                  || (here && j.state == CheckingHealth && InWindow(cfg, j, inp)
                      && !Stable(cfg, ws[0].healthySince, inp)))
            && (f.value == j
                || f.value == j.(state := f.value.state, bootID := if OnTarget(d, j) then d.bootID else j.bootID,
                                 updated := ws[0].clock))
            && (f.value.state == Committed ==> ws[|ls|].dev == Marked(d, Good, j.targetSlot))
            && (f.value.state != Committed ==> ws[|ls|].dev == d)
    ensures ws[|ls|].installs == ws[0].installs
    ensures Probing(cfg, ws[0].dev, j, inp) ==> ws[|ls|].healthySince == Since(ws[0].healthySince, inp)
  {
    hide Inv, Decide, ActiveJob, RecordOf, Liveness.IsRound, FindSlot, Marked;
    Begun(cfg, inp, ws, ls, j);
    PlansHealth(cfg, ws[0], j, inp);
    if ws[1].todo.CallMark? {
      CallCommits(cfg, inp, ws, ls, j, j.(state := Committed));
    } else {
      Settles(cfg, inp, ws, ls, j);
    }
  }

  lemma PlansRollback(cfg: Config, w: World, j: Job, inp: Inputs)
    requires ActiveJob(w.mem) == Some(j) && j.state == RollbackPending
    ensures var t := Decide(cfg, w.mem, StatusOf(w, inp.statusOk), w.healthySince, inp).todo; var d := w.dev;
            if !Answering(d, inp) then t.Idle?
            else if d.booted == j.oldSlot then t == SaveJob(j.(state := RolledBack), Stop)
            else if d.booted == j.targetSlot
            then t == CallMark(Bad, j.targetSlot, CallMark(Active, j.oldSlot, CallReboot(None)))
            else t == SaveJob(j.(state := NeedsRecovery), Stop)
  {
    hide FindSlot, StepNormalBoot, StepBeforeInstall, StepHealth;
  }

  /** A call that marks the target bad, makes the old slot primary and reboots into it. */
  lemma CallFallsBack(cfg: Config, inp: Inputs, ws: seq<World>, ls: seq<Label>, j: Job)
    requires Call(cfg, inp, ws, ls, j) && SlotOf(ws[0].dev, j.targetSlot).Some? && SlotOf(ws[0].dev, j.oldSlot).Some?
    requires ws[1].todo == CallMark(Bad, j.targetSlot, CallMark(Active, j.oldSlot, CallReboot(None)))
    ensures RecordOf(ws[|ls|], j.assignment.jobID) == Some(j) && ws[|ls|].installs == ws[0].installs
    ensures var e := ws[|ls|].dev;
            && e.booted == j.oldSlot && e.primary == j.oldSlot && e.bootID == ws[0].dev.bootID + 1
            && !GoodOf(e, j.targetSlot)
  {
    hide Inv, Liveness.Moves, Next, Decide, ActiveJob, Liveness.Smooth, Liveness.IsRound, FindSlot, SetGood;
    Begun(cfg, inp, ws, ls, j);
    var d := ws[0].dev;
    Liveness.Unrolled(cfg, inp, ws, ls, 1);
    Liveness.MarkedOnce(cfg, ws[1], ls[1], ws[2]);
    MarkedSlots(d, Bad, j.targetSlot, j.oldSlot);
    MarkedSlots(d, Bad, j.targetSlot, j.targetSlot);
    Liveness.Unrolled(cfg, inp, ws, ls, 2);
    Liveness.MarkedOnce(cfg, ws[2], ls[2], ws[3]);
    MarkedSlots(ws[2].dev, Active, j.oldSlot, j.targetSlot);
    Liveness.Unrolled(cfg, inp, ws, ls, 3);
    RebootStep(cfg, ws[3], ls[3], ws[4]);
    Liveness.Unrolled(cfg, inp, ws, ls, 4);
    SameGood(ws[3].dev, ws[4].dev, j.targetSlot);
  }

  lemma SameGood(d: Device, e: Device, slot: string)
    requires e.slots == d.slots
    ensures GoodOf(e, slot) == GoodOf(d, slot)
  {
    hide FindSlot;
  }

  /** A job that is being rolled back: the device is sent back to the old slot, and found there the job is over. */
  lemma RollbackCall(cfg: Config, inp: Inputs, ws: seq<World>, ls: seq<Label>, j: Job)
    requires Call(cfg, inp, ws, ls, j) && j.state == RollbackPending
    requires SlotOf(ws[0].dev, j.targetSlot).Some? && SlotOf(ws[0].dev, j.oldSlot).Some?
    ensures var f := RecordOf(ws[|ls|], j.assignment.jobID); var d := ws[0].dev; var e := ws[|ls|].dev;
            && f.Some?
            && (f.value.state == RolledBack <==> Answering(d, inp) && d.booted == j.oldSlot)
            && (f.value.state == NeedsRecovery <==>
                  Answering(d, inp) && d.booted != j.oldSlot && d.booted != j.targetSlot)
            && (if f.value.state == RolledBack || f.value.state == NeedsRecovery
                then f.value == j.(state := f.value.state, updated := ws[0].clock) else f.value == j)
            && (if Answering(d, inp) && d.booted == j.targetSlot && d.booted != j.oldSlot
                then e.booted == j.oldSlot && e.primary == j.oldSlot && e.bootID != d.bootID && !GoodOf(e, j.targetSlot)
                else e == d)
    ensures ws[|ls|].installs == ws[0].installs
  {
    hide Inv, Decide, ActiveJob, RecordOf, Liveness.IsRound, FindSlot;
    Begun(cfg, inp, ws, ls, j);
    PlansRollback(cfg, ws[0], j, inp);
    if ws[1].todo.CallMark? {
      CallFallsBack(cfg, inp, ws, ls, j);
    } else {
      Settles(cfg, inp, ws, ls, j);
    }
  }

  // ---------------------------------------------------------------- side payloads

  /** A job before its installation does not claim that its payloads were applied. */
  predicate NotYet(j: Job) {
    BeforeInstall(j.state) ==> !j.payloadsApplied
  }

  predicate TodoNotYet(t: Todo) {
    match t
    case AcceptJob(j) => NotYet(j)
    case SaveJob(j, _) => NotYet(j)
    case CallMark(_, _, next) => TodoNotYet(next)
    case CallReboot(asked) => asked.Some? ==> NotYet(asked.value)
    case _ => true
  }

  predicate JobsNotYet(jobs: map<string, Job>) {
    forall id | id in jobs :: NotYet(jobs[id])
  }

  predicate Unapplied(w: World) {
    TodoNotYet(w.todo) && JobsNotYet(w.mem.jobs) && JobsNotYet(w.disk.jobs)
  }

  lemma TwoMarks(t: Todo)
    ensures t.CallMark? && t.next.CallMark? ==> (TodoNotYet(t) <==> TodoNotYet(t.next.next))
  {
    if t.CallMark? && t.next.CallMark? {
      assert TodoNotYet(t.next) <==> TodoNotYet(t.next.next);
    }
  }

  lemma BootNotYet(cfg: Config, d: Database, s: Option<Device>, since: Option<int>, inp: Inputs)
    ensures TodoNotYet(StepNormalBoot(cfg, d, s, since, inp).todo)
  {
    hide FindSlot, Other, Known;
    TwoMarks(StepNormalBoot(cfg, d, s, since, inp).todo);
  }

  lemma OperatorNotYet(d: Database, s: Option<Device>, inp: Inputs)
    requires JobsNotYet(d.jobs)
    ensures TodoNotYet(DecideReboot(d, s, inp)) && TodoNotYet(DecideAbort(d, s))
  {
    assert ActiveJob(d).Some? ==> NotYet(ActiveJob(d).value);
    TwoMarks(DecideAbort(d, s));
  }

  lemma BeforeNotYet(cfg: Config, j: Job, s: Option<Device>, since: Option<int>, inp: Inputs)
    requires NotYet(j) && BeforeInstall(j.state)
    ensures TodoNotYet(StepBeforeInstall(cfg, j, s, since, inp).todo)
  {
    hide FindSlot, Other, Release.HasOS;
  }

  lemma InstalledNotYet(cfg: Config, j: Job, s: Option<Device>, since: Option<int>, inp: Inputs)
    requires !BeforeInstall(j.state)
    ensures TodoNotYet(StepInstalled(cfg, j, s, since, inp).todo)
  {
    hide FindSlot, StepHealth;
    TwoMarks(StepInstalled(cfg, j, s, since, inp).todo);
    if s.Some? {
      HealthNotYet(cfg, j, s.value, since, inp);
    }
  }

  lemma HealthNotYet(cfg: Config, j: Job, d: Device, since: Option<int>, inp: Inputs)
    ensures TodoNotYet(StepHealth(cfg, j, d, since, inp).todo)
  {
    hide FindSlot;
  }

  lemma PlansNotYet(cfg: Config, w: World, inp: Inputs)
    requires JobsNotYet(w.mem.jobs)
    ensures TodoNotYet(Decide(cfg, w.mem, StatusOf(w, inp.statusOk), w.healthySince, inp).todo)
  {
    hide StepNormalBoot, StepBeforeInstall, StepInstalled;
    var s := StatusOf(w, inp.statusOk);
    match ActiveJob(w.mem)
    case None => BootNotYet(cfg, w.mem, s, w.healthySince, inp);
    case Some(j) =>
      assert NotYet(j);
      if BeforeInstall(j.state) {
        BeforeNotYet(cfg, j, s, w.healthySince, inp);
      } else {
        InstalledNotYet(cfg, j, s, w.healthySince, inp);
      }
  }

  lemma WriteNotYet(cfg: Config, w: World, spilled: set<string>, outcome: Outcome)
    requires Unapplied(w) && Enabled(cfg, w, Write(spilled, outcome))
    ensures Unapplied(DoWrite(cfg, w, spilled, outcome))
  {
    hide Journal.Valid, Spills, Archived, EventsOrdered;
    var c := Change(w.todo, w.mem, w.clock);
    if c.Some? {
      EngineRuns.ChangeKeepsJobs(cfg, w.todo, w.mem, w.clock, spilled);
      assert JobsNotYet(c.value.jobs) && JobsNotYet(Without(c.value, spilled).jobs);
    }
  }

  lemma AckNotYet(cfg: Config, w: World, sequence: nat, spilled: set<string>, outcome: Outcome)
    requires Unapplied(w) && Enabled(cfg, w, Ack(sequence, spilled, outcome))
    ensures Unapplied(Apply(cfg, w, Ack(sequence, spilled, outcome)))
  {
    hide Journal.Valid, Spills, Archived, DropAcked, TodoNotYet;
    if Acked(w.mem, sequence).Some? {
      EngineRuns.AckKeepsJobs(cfg, w.mem, sequence, spilled);
    }
  }

  lemma RestNotYet(cfg: Config, w: World, l: Label)
    requires Unapplied(w) && Enabled(cfg, w, l) && !l.Write? && !l.Ack?
    ensures Unapplied(Apply(cfg, w, l))
  {
    hide Decide, DecideReboot, DecideAbort, IsLatest, FindSlot, Marked, InstallMayYield, JobsNotYet, IsIdentifier;
    if l.BeginStep? {
      PlansNotYet(cfg, w, l.inp);
    } else if l.BeginReboot? || l.BeginAbort? {
      OperatorNotYet(w.mem, StatusOf(w, l.inp.statusOk), l.inp);
    }
  }

  lemma UnappliedStep(cfg: Config, w: World, l: Label, w': World)
    requires Unapplied(w) && Next(cfg, w, l, w')
    ensures Unapplied(w')
  {
    hide Unapplied, DoWrite, Decide, Begin, IsLatest, Spills, Change, Acked, Attempt, FindSlot;
    if l.Write? {
      WriteNotYet(cfg, w, l.spilled, l.outcome);
    } else if l.Ack? {
      AckNotYet(cfg, w, l.sequence, l.spilled, l.outcome);
    } else {
      RestNotYet(cfg, w, l);
    }
  }

  /** In every run no job before its installation claims that its payloads were applied: each call applies them anew. */
  lemma {:induction false} NothingAppliedYet(cfg: Config, ws: seq<World>, ls: seq<Label>, k: nat)
    requires IsRun(cfg, ws, ls) && k < |ws|
    ensures Unapplied(ws[k])
  {
    hide Unapplied, Apply, Enabled;
    if k == 0 {
      UnappliedAtFirst(ws[0]);
    } else {
      NothingAppliedYet(cfg, ws, ls, k - 1);
      assert Next(cfg, ws[k - 1], ls[k - 1], ws[k]);
      UnappliedStep(cfg, ws[k - 1], ls[k - 1], ws[k]);
    }
  }

  lemma UnappliedAtFirst(w: World)
    requires Init(w)
    ensures Unapplied(w)
  {
  }

  // ---------------------------------------------------------------- every installation was checked

  /** An installation is still to come in the call in progress. */
  predicate Pending(t: Todo) {
    t.CallInstall? || (t.SaveJob? && t.andThen == ThenInstall)
  }

  lemma PlansPending(cfg: Config, w: World, inp: Inputs)
    requires ActiveJob(w.mem).Some? ==> !Terminal(ActiveJob(w.mem).value.state)
    requires Pending(Decide(cfg, w.mem, StatusOf(w, inp.statusOk), w.healthySince, inp).todo)
    ensures ActiveJob(w.mem).Some? && Installs(cfg, w.dev, ActiveJob(w.mem).value, inp)
    ensures Decide(cfg, w.mem, StatusOf(w, inp.statusOk), w.healthySince, inp).todo.job.release
            == ActiveJob(w.mem).value.release
  {
    if ActiveJob(w.mem).None? {
      hide FindSlot, StepBeforeInstall, StepInstalled;
    } else {
      hide FindSlot, Release.HasOS, Decide, StepVerified, Other;
      var j := ActiveJob(w.mem).value;
      if BeforeInstall(j.state) && !Trusted(j, inp) {
        PlansOutside(cfg, w, j, inp);
      } else if j.state == Accepted {
        PlansAccepted(cfg, w, j, inp);
      } else if j.state == Downloading {
        PlansDownloading(cfg, w, j, inp);
      } else if j.state == Verified {
        PlansVerified(cfg, w, j, inp);
        VerifiedDecides(cfg, j, StatusOf(w, inp.statusOk), w.healthySince, inp);
      } else if j.state == Installing || j.state == NeedsRecovery {
        PlansInstalling(cfg, w, j, inp);
      } else if j.state == AwaitingReboot {
        PlansAwaiting(cfg, w, j, inp);
      } else if j.state == RollbackPending {
        PlansRollback(cfg, w, j, inp);
      } else {
        PlansHealth(cfg, w, j, inp);
      }
    }
  }

  lemma PendingBefore(cfg: Config, w: World, l: Label, w': World)
    requires Inv(cfg, w) && Next(cfg, w, l, w') && Pending(w'.todo) && !l.BeginStep?
    ensures Pending(w.todo) && w.todo.job.release == w'.todo.job.release
  {
    hide Inv, DoWrite, Decide, DecideSubmit, DecideReboot, DecideAbort, AfterInspect, Change, Spills, Acked, Attempt,
         Marked, FindSlot, InstallMayYield, IsLatest, Begin;
    if l.Write? {
      PendingWrite(cfg, w, l.spilled, l.outcome);
    } else if l.Ack? {
      AckKeepsTodo(cfg, w, l);
    } else {
      NeverPending(w.mem);
      MarkThenNoInstall(cfg, w);
    }
  }

  lemma PendingWrite(cfg: Config, w: World, spilled: set<string>, outcome: Outcome)
    requires Enabled(cfg, w, Write(spilled, outcome))
    ensures var t := DoWrite(cfg, w, spilled, outcome).todo;
            Pending(t) ==> Pending(w.todo) && w.todo.job.release == t.job.release
  {
    hide Journal.Valid, Spills, Change, Archived, Without;
  }

  lemma AckKeepsTodo(cfg: Config, w: World, l: Label)
    requires l.Ack? && Enabled(cfg, w, l)
    ensures Apply(cfg, w, l).todo == w.todo
  {
    hide Journal.Valid, Spills, Acked, Archived, Without;
  }

  lemma MarkThenNoInstall(cfg: Config, w: World)
    requires Inv(cfg, w)
    ensures w.todo.CallMark? ==> !Pending(w.todo.next)
  {
    hide Books, Increasing, InstallsOnce, Healthy, Licensed, FindSlot, Agrees, Synced, WriterOwned;
  }

  lemma NeverPending(d: Database)
    ensures forall s, inp :: !Pending(DecideReboot(d, s, inp))
    ensures forall s :: !Pending(DecideAbort(d, s))
    ensures forall j, s :: !Pending(AfterInspect(j, s))
  {
    hide FindSlot;
  }

  lemma MemoryActive(cfg: Config, w: World)
    requires Inv(cfg, w) && ActiveJob(w.mem).Some?
    ensures !Terminal(ActiveJob(w.mem).value.state)
  {
    hide Agrees, Increasing, InstallsOnce, Healthy, Synced, Allowed, WriterOwned, EventsOrdered;
    assert JobConsistent(w.mem, w.mem.active);
  }

  lemma {:induction false} Origin(cfg: Config, ws: seq<World>, ls: seq<Label>, k: nat) returns (i: nat)
    requires IsRun(cfg, ws, ls) && k < |ws| && Pending(ws[k].todo)
    ensures i < k && ls[i].BeginStep? && ActiveJob(ws[i].mem).Some?
    ensures ActiveJob(ws[i].mem).value.release == ws[k].todo.job.release
    ensures Installs(cfg, ws[i].dev, ActiveJob(ws[i].mem).value, ls[i].inp)
    ensures forall m | i < m <= k :: Pending(ws[m].todo)
  {
    hide Inv, Apply, Enabled, Installs, Decide;
    NotAtFirst(ws, k);
    assert Next(cfg, ws[k - 1], ls[k - 1], ws[k]);
    if ls[k - 1].BeginStep? {
      i := k - 1;
      Reachable(cfg, ws, ls, i);
      if ActiveJob(ws[i].mem).Some? {
        MemoryActive(cfg, ws[i]);
      }
      BeginTodo(cfg, ws[i], ls[i], ws[k]);
      PlansPending(cfg, ws[i], ls[i].inp);
    } else {
      Reachable(cfg, ws, ls, k - 1);
      PendingBefore(cfg, ws[k - 1], ls[k - 1], ws[k]);
      i := Origin(cfg, ws, ls, k - 1);
    }
  }

  lemma NotAtFirst(ws: seq<World>, k: nat)
    requires k < |ws| && Init(ws[0]) && Pending(ws[k].todo)
    ensures k > 0
  {
  }

  lemma BeginTodo(cfg: Config, w: World, l: Label, w': World)
    requires Next(cfg, w, l, w') && l.BeginStep?
    ensures w'.todo == Decide(cfg, w.mem, StatusOf(w, l.inp.statusOk), w.healthySince, l.inp).todo
  {
    hide Decide, IsLatest;
  }

  /**
   In every run each Install belongs to a call, still in progress, that found the job Verified and in its window, the
   envelope, the SBOM, the payloads and the artifact good, the device idle, compatible and without that version, and
   time left until the deadline and the release's expiry.
   */
  lemma EveryInstallWasChecked(cfg: Config, ws: seq<World>, ls: seq<Label>, k: nat) returns (i: nat)
    requires IsRun(cfg, ws, ls) && k < |ls| && ls[k].Install?
    ensures i < k && ls[i].BeginStep? && ActiveJob(ws[i].mem).Some?
    ensures var j := ActiveJob(ws[i].mem).value; var inp := ls[i].inp;
            && j.state == Verified && j.release.HasOS()
            && ws[k].todo.CallInstall? && ws[k].todo.job.release == j.release
            && j.assignment.notBefore <= inp.now < j.assignment.deadline
            && inp.later < j.assignment.deadline && inp.later < j.release.expires
            && inp.envelopeOk && inp.sbomOk && inp.artifactOk && inp.statusOk
            && (j.release.targets == [] || inp.applyOk)
            && ws[i].dev.operation.Quiet? && ws[i].dev.compatible == cfg.compatible
    ensures forall m | i < m <= k :: Pending(ws[m].todo)
  {
    hide Inv, Apply, Release.HasOS, Other;
    assert Next(cfg, ws[k], ls[k], ws[k + 1]);
    i := Origin(cfg, ws, ls, k);
    NothingAppliedYet(cfg, ws, ls, i);
    assert NotYet(ActiveJob(ws[i].mem).value);
  }

  // ---------------------------------------------------------------- the operator's calls

  lemma AbortPlans(cfg: Config, w: World, inp: Inputs, j: Job)
    requires Inv(cfg, w) && ActiveJob(w.mem) == Some(j)
    ensures var t := DecideAbort(w.mem, StatusOf(w, inp.statusOk));
            if j.state == NeedsRecovery && Answering(w.dev, inp) && w.dev.booted == j.oldSlot
            then t == CallMark(Bad, j.targetSlot, CallMark(Active, j.oldSlot, SaveJob(j.(state := Failed), Stop)))
            else t.Idle?
  {
    hide Books, Increasing, InstallsOnce, Healthy, Synced, Allowed, FindSlot, Evidence, WriterOwned;
  }

  /** An operator's call, begun with `first` and carried to its end, in which nothing fails. */
  ghost predicate OperatorCall(cfg: Config, first: Label, ws: seq<World>, ls: seq<Label>, j: Job) {
    && |ws| == |ls| + 1 && |ls| >= 1 && ls[0] == first && ws[|ls|].todo.Idle?
    && (forall i | 0 <= i < |ls| :: Goes(cfg, ws, ls, i))
    && Inv(cfg, ws[0]) && !ws[0].poisoned && |ws[0].mem.events| < OUTBOX_LIMIT && ActiveJob(ws[0].disk) == Some(j)
  }

  ghost predicate Goes(cfg: Config, ws: seq<World>, ls: seq<Label>, i: nat)
    requires i < |ls| && |ws| == |ls| + 1
  {
    Next(cfg, ws[i], ls[i], ws[i + 1]) && (i > 0 ==> Liveness.Smooth(ws[i], ls[i]))
  }

  lemma GoesOn(cfg: Config, first: Label, ws: seq<World>, ls: seq<Label>, j: Job, i: nat)
    requires OperatorCall(cfg, first, ws, ls, j) && 1 <= i <= |ls|
    ensures ws[i].todo.Idle? <==> i == |ls|
    ensures i < |ls| ==> Next(cfg, ws[i], ls[i], ws[i + 1]) && Liveness.Smooth(ws[i], ls[i])
  {
    hide Apply, Inv, ActiveJob;
    if i < |ls| {
      assert Goes(cfg, ws, ls, i);
    }
  }

  lemma OperatorBegins(cfg: Config, first: Label, ws: seq<World>, ls: seq<Label>, j: Job, inp: Inputs)
    requires OperatorCall(cfg, first, ws, ls, j) && (first == BeginAbort(inp) || first == BeginReboot(inp))
    ensures Inv(cfg, ws[1]) && ActiveJob(ws[0].mem) == Some(j) && RecordOf(ws[0], j.assignment.jobID) == Some(j)
    ensures ws[1] == ws[0].(todo := if first.BeginAbort? then DecideAbort(ws[0].mem, StatusOf(ws[0], inp.statusOk))
                                    else DecideReboot(ws[0].mem, StatusOf(ws[0], inp.statusOk), inp))
  {
    hide Inv, DecideAbort, DecideReboot;
    assert Goes(cfg, ws, ls, 0);
    EngineWrites.Keep(cfg, ws[0], first);
    InSync(cfg, ws[0]);
    ActiveFacts(cfg, ws[0]);
  }

  /**
   An abort, when nothing fails, ends the job if and only if it needs recovery and the idle backend runs the original
   slot; the target is then bad and the original slot primary. Otherwise nothing happens.
   */
  lemma AbortCall(cfg: Config, inp: Inputs, ws: seq<World>, ls: seq<Label>, j: Job)
    requires OperatorCall(cfg, BeginAbort(inp), ws, ls, j)
    requires SlotOf(ws[0].dev, j.targetSlot).Some? && SlotOf(ws[0].dev, j.oldSlot).Some?
    ensures var v := ws[|ls|]; var f := RecordOf(v, j.assignment.jobID); var d := ws[0].dev;
            if j.state == NeedsRecovery && Answering(d, inp) && d.booted == j.oldSlot
            then && f == Some(j.(state := Failed, updated := ws[0].clock)) && v.dev.primary == j.oldSlot
                 && v.dev.booted == j.oldSlot && !GoodOf(v.dev, j.targetSlot)
            else f == Some(j) && v.dev == d
  {
    hide Inv, Goes, Next, DecideAbort, ActiveJob, RecordOf, Liveness.Smooth, FindSlot, SetGood;
    OperatorBegins(cfg, BeginAbort(inp), ws, ls, j, inp);
    AbortPlans(cfg, ws[0], inp, j);
    GoesOn(cfg, BeginAbort(inp), ws, ls, j, 1);
    if ws[1].todo.Idle? {
      SameRecord(ws[0], ws[1], j.assignment.jobID);
    } else {
      var d := ws[0].dev;
      Liveness.MarkedOnce(cfg, ws[1], ls[1], ws[2]);
      MarkedSlots(d, Bad, j.targetSlot, j.oldSlot);
      MarkedSlots(d, Bad, j.targetSlot, j.targetSlot);
      GoesOn(cfg, BeginAbort(inp), ws, ls, j, 2);
      Liveness.MarkedOnce(cfg, ws[2], ls[2], ws[3]);
      MarkedSlots(ws[2].dev, Active, j.oldSlot, j.targetSlot);
      GoesOn(cfg, BeginAbort(inp), ws, ls, j, 3);
      SavedRecord(cfg, ws[3], ls[3], ws[4], j.(state := Failed), Stop);
      GoesOn(cfg, BeginAbort(inp), ws, ls, j, 4);
      SameGood(ws[3].dev, ws[4].dev, j.targetSlot);
    }
  }

  lemma RequestPlans(cfg: Config, w: World, inp: Inputs, j: Job)
    requires ActiveJob(w.mem) == Some(j)
    ensures var t := DecideReboot(w.mem, StatusOf(w, inp.statusOk), inp);
            if Requestable(w.dev, j, inp) then t == SaveJob(j.(rebootRequested := true), ThenReboot) else t.Idle?
  {
  }

  /** A reboot may be asked for: in the window, before any other boot, on the old slot, with an idle backend. */
  predicate Requestable(d: Device, j: Job, inp: Inputs) {
    && j.state == AwaitingReboot && Open(j, inp) && Answering(d, inp)
    && d.bootID == j.bootID && d.booted == j.oldSlot
  }

  /** A request for a reboot, when nothing fails, reboots the device if and only if it may be asked for. */
  lemma RequestCall(cfg: Config, inp: Inputs, ws: seq<World>, ls: seq<Label>, j: Job)
    requires OperatorCall(cfg, BeginReboot(inp), ws, ls, j)
    ensures var v := ws[|ls|]; var f := RecordOf(v, j.assignment.jobID); var d := ws[0].dev;
            if Requestable(d, j, inp)
            then f == Some(j.(rebootRequested := true, updated := ws[0].clock))
                 && v.dev == Booted(d, Boot(d.primary, d.primary, d.bootID + 1))
            else f == Some(j) && v.dev == d
  {
    hide Inv, Goes, Next, DecideReboot, ActiveJob, RecordOf, Liveness.Smooth;
    OperatorBegins(cfg, BeginReboot(inp), ws, ls, j, inp);
    RequestPlans(cfg, ws[0], inp, j);
    GoesOn(cfg, BeginReboot(inp), ws, ls, j, 1);
    if ws[1].todo.Idle? {
      SameRecord(ws[0], ws[1], j.assignment.jobID);
    } else {
      SavedRecord(cfg, ws[1], ls[1], ws[2], j.(rebootRequested := true), ThenReboot);
      GoesOn(cfg, BeginReboot(inp), ws, ls, j, 2);
      RebootStep(cfg, ws[2], ls[2], ws[3]);
      GoesOn(cfg, BeginReboot(inp), ws, ls, j, 3);
      SameRecord(ws[2], ws[3], j.assignment.jobID);
    }
  }

  /** A reboot that the backend refuses is taken back: the record no longer says that it was asked for. */
  lemma RefusedRebootIsTakenBack(cfg: Config, w: World, v: World, l: Label, u: World, j: Job)
    requires Inv(cfg, w) && !w.poisoned && w.todo == CallReboot(Some(j)) && |w.mem.events| < OUTBOX_LIMIT
    requires Next(cfg, w, Reboot(false, None), v) && Next(cfg, v, l, u) && Liveness.Smooth(v, l)
    ensures u.todo.Idle? && u.dev == w.dev
    ensures RecordOf(u, j.assignment.jobID) == Some(j.(rebootRequested := false, updated := w.clock))
  {
    hide Inv, RecordOf;
    EngineWrites.Keep(cfg, w, Reboot(false, None));
    SavedRecord(cfg, v, l, u, j.(rebootRequested := false), Stop);
  }
}
