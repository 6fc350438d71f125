/**
 A health check ends (internal/ota/engine.go, internal/ota/backend.go): on the simulated device, with no injected
 failure, room in the outbox and a clock that advances with every call, a job under health verification is Committed
 or RolledBack within the health timeout plus a constant number of calls.
 */
module Liveness {
  import opened Model
  import opened Journal
  import opened Engine
  import opened EngineInvariant
  import EngineWrites
  import EngineRuns
  import opened Simulator

  /**
   A step of a call in which nothing fails: commits succeed, marks work on existing slots, a reboot follows the primary.
   */
  predicate Smooth(w: World, l: Label) {
    match l
    case Write(_, outcome) => outcome.Durable?
    case Mark(ok, _) => w.todo.CallMark? && (SlotOf(w.dev, w.todo.slot).Some? ==> ok)
    case Reboot(ok, inPlace) => ok && inPlace == Some(NextBoot(w.dev, false))
    case Install(_, _, _) => true
    case Inspect(statusOk) => statusOk
    case _ => false
  }

  ghost predicate Moves(cfg: Config, ws: seq<World>, ls: seq<Label>, i: nat)
    requires i < |ls| && |ws| == |ls| + 1
  {
    Next(cfg, ws[i], ls[i], ws[i + 1]) && (i > 0 ==> Smooth(ws[i], ls[i]))
  }

  /** One call of `Step`, from its decision to the end of its program. */
  ghost predicate IsRound(cfg: Config, inp: Inputs, ws: seq<World>, ls: seq<Label>) {
    && |ws| == |ls| + 1 && |ls| >= 1 && ls[0] == BeginStep(inp) && ws[|ls|].todo.Idle?
    && forall i | 0 <= i < |ls| :: Moves(cfg, ws, ls, i)
  }

  /** The state between calls of a job under health verification, last stepped at time `t`. */
  ghost predicate OnTrack(cfg: Config, w: World, j: Job) {
    && EngineInvariant.Inv(cfg, w) && !w.poisoned && w.todo.Idle? && w.dev.operation.Quiet?
    && ActiveJob(w.mem) == Some(j) && (j.state == CheckingHealth || j.state == Committing || j.state == RollbackPending)
    && (w.dev.booted == j.targetSlot || w.dev.booted == j.oldSlot)
    && SlotOf(w.dev, j.oldSlot).Some? && SlotOf(w.dev, j.targetSlot).Some?
    && |w.mem.events| + WritesLeft(w, j) <= OUTBOX_LIMIT
  }

  function WritesLeft(w: World, j: Job): nat {
    if w.dev.booted == j.oldSlot || j.state == RollbackPending then 1
    else if j.state == CheckingHealth then 2 + Recheck(w, j)
    else if Recheck(w, j) == 1 then 3 else 1
  }

  /** A boot that the job has not seen costs one call. */
  function Recheck(w: World, j: Job): nat {
    if w.dev.bootID != j.bootID then 1 else 0
  }

  /** An upper bound for the calls that can still pass before the health window closes. */
  function Remaining(cfg: Config, j: Job, t: int): nat {
    if j.healthStarted.None? || cfg.healthTimeout < 0 then 0
    else if t < j.healthStarted.value then cfg.healthTimeout + 1
    else if t < j.healthStarted.value + cfg.healthTimeout then j.healthStarted.value + cfg.healthTimeout - t
    else 0
  }

  /** The measure: calls left. */
  function CallsLeft(cfg: Config, w: World, j: Job, t: int): nat {
    if w.dev.booted == j.oldSlot then 1
    else if j.state == RollbackPending then 2
    else if j.state == Committing && Recheck(w, j) == 0 then 1
    else Recheck(w, j) + Remaining(cfg, j, t) + 3
  }

  /** The job is over, with the verdict as the latest event. */
  predicate Ended(w: World, id: string) {
    && ActiveJob(w.mem).None? && w.mem.events != []
    && var e := w.mem.events[|w.mem.events| - 1];
       e.jobID == id && (e.state == Committed || e.state == RolledBack)
  }

  /** What a call leaves: the job is over, or it is on track with fewer calls left. */
  ghost predicate Progresses(cfg: Config, w: World, j: Job, t: int, now: int, v: World) {
    || Ended(v, j.assignment.jobID)
    || (&& ActiveJob(v.mem).Some?
        && var k := ActiveJob(v.mem).value;
           && OnTrack(cfg, v, k) && k.assignment == j.assignment
           && CallsLeft(cfg, v, k, now) < CallsLeft(cfg, w, j, t))
  }

  // ---------------------------------------------------------------- the programs of a call

  /** A save that goes through. */
  lemma Saved(cfg: Config, w: World, l: Label, v: World, j0: Job)
    requires EngineInvariant.Inv(cfg, w) && !w.poisoned && w.todo.SaveJob? && w.todo.andThen == Stop
    requires Next(cfg, w, l, v) && Smooth(w, l) && ActiveJob(w.mem) == Some(j0) && |w.mem.events| < OUTBOX_LIMIT
    ensures EngineInvariant.Inv(cfg, v) && !v.poisoned && v.todo.Idle? && v.dev == w.dev
    ensures |v.mem.events| == |w.mem.events| + 1
    ensures var e := v.mem.events[|w.mem.events|]; e.jobID == w.todo.job.assignment.jobID && e.state == w.todo.job.state
    ensures ActiveJob(v.mem) == (if Terminal(w.todo.job.state) then None else Some(w.todo.job.(updated := w.clock)))
    ensures w.todo.job.assignment == j0.assignment
  {
    hide EngineInvariant.Inv, Journal.Valid, Spills, ActiveJob, Spillable;
    EngineWrites.Keep(cfg, w, l);
    EngineRuns.WritesAreValid(cfg, w, l.spilled, l.outcome);
    SaveFacts(cfg, w, l.spilled, l.outcome);
  }

  lemma SaveFacts(cfg: Config, w: World, spilled: set<string>, outcome: Outcome)
    requires EngineInvariant.Inv(cfg, w) && !w.poisoned && w.todo.SaveJob?
    requires Enabled(cfg, w, Label.Write(spilled, outcome))
    requires var c := Change(w.todo, w.mem, w.clock);
             c.Some? && Journal.Valid(cfg.hotLimit, Without(c.value, spilled))
    ensures ActiveJob(w.mem).Some? && w.todo.job.assignment == ActiveJob(w.mem).value.assignment
    ensures var n := Without(Change(w.todo, w.mem, w.clock).value, spilled);
            ActiveJob(n) == (if Terminal(w.todo.job.state) then None else Some(w.todo.job.(updated := w.clock)))
  {
    hide Agrees, Books, Increasing, InstallsOnce, Healthy, Synced, FindSlot, Licensed, Program, WriterOwned,
         Journal.Valid,
         Spills, AddEvent, ActiveJob, Spillable;
    EngineWrites.LicensedSave(cfg, w.todo, SceneOf(w));
    EngineWrites.SavedDatabase(cfg, w.mem, ActiveJob(w.mem).value, w.todo, w.clock, spilled);
  }

  /** An idle engine makes no step of a call; a busy one makes the next. */
  lemma Unrolled(cfg: Config, inp: Inputs, ws: seq<World>, ls: seq<Label>, i: nat)
    requires IsRound(cfg, inp, ws, ls) && 1 <= i <= |ls|
    ensures ws[i].todo.Idle? <==> i == |ls|
    ensures i < |ls| ==> Next(cfg, ws[i], ls[i], ws[i + 1]) && Smooth(ws[i], ls[i])
  {
    hide Apply;
    if i < |ls| {
      assert Moves(cfg, ws, ls, i);
    }
  }

  /** The decision of a call on a job under health verification. */
  lemma Planned(cfg: Config, w: World, j: Job, inp: Inputs)
    requires OnTrack(cfg, w, j) && inp.statusOk
    ensures j.oldSlot != j.targetSlot && j.healthStarted.Some?
    ensures var p := Decide(cfg, w.mem, Some(w.dev), w.healthySince, inp);
            var h := j.healthStarted.value;
            if w.dev.booted == j.oldSlot then p.todo == SaveJob(j.(state := RolledBack), Stop)
            else if j.state == RollbackPending
            then p.todo == CallMark(Bad, j.targetSlot, CallMark(Active, j.oldSlot, CallReboot(None)))
            else if w.dev.bootID != j.bootID
                    then p.todo == SaveJob(j.(bootID := w.dev.bootID, state := CheckingHealth), Stop)
            else if j.state == Committing
                    then p.todo == CallMark(Good, j.targetSlot, SaveJob(j.(state := Committed), Stop))
            else if h <= inp.now < h + cfg.healthTimeout
            then p.todo == Idle || p.todo == SaveJob(j.(state := Committing), Stop)
            else p.todo == SaveJob(j.(state := RollbackPending), Stop)
  {
    hide Books, Increasing, InstallsOnce, Healthy, Synced, FindSlot, Allowed, WriterOwned, StepBeforeInstall,
         StepNormalBoot, Evidence;
  }

  /** The world right after the decision. */
  lemma Begun(cfg: Config, inp: Inputs, ws: seq<World>, ls: seq<Label>, j: Job)
    requires IsRound(cfg, inp, ws, ls) && OnTrack(cfg, ws[0], j) && inp.statusOk
    ensures EngineInvariant.Inv(cfg, ws[1])
    ensures ws[1].mem == ws[0].mem && ws[1].dev == ws[0].dev && ws[1].poisoned == ws[0].poisoned
    ensures ws[1].todo == Decide(cfg, ws[0].mem, Some(ws[0].dev), ws[0].healthySince, inp).todo
  {
    hide EngineInvariant.Inv, Decide, IsLatest;
    assert Moves(cfg, ws, ls, 0);
    EngineWrites.Keep(cfg, ws[0], ls[0]);
  }

  /** Case: the call saves the job and is over. */
  lemma SavesOnly(cfg: Config, inp: Inputs, ws: seq<World>, ls: seq<Label>, j: Job, k: Job, t: int)
    requires IsRound(cfg, inp, ws, ls) && OnTrack(cfg, ws[0], j) && inp.statusOk && ws[1].todo == SaveJob(k, Stop)
    requires k.assignment == j.assignment && j.oldSlot == k.oldSlot && j.targetSlot == k.targetSlot
    requires || k.state == RolledBack
             || (&& (k.state == CheckingHealth || k.state == Committing || k.state == RollbackPending)
                 && WritesLeft(ws[0], k) < WritesLeft(ws[0], j)
                    && CallsLeft(cfg, ws[0], k, inp.now) < CallsLeft(cfg, ws[0], j, t))
    ensures Progresses(cfg, ws[0], j, t, inp.now, ws[|ls|])
  {
    hide EngineInvariant.Inv, Moves, Next, FindSlot, Decide, ActiveJob, Smooth;
    Begun(cfg, inp, ws, ls, j);
    Unrolled(cfg, inp, ws, ls, 1);
    var l, v := ls[1], ws[2];
    Saved(cfg, ws[1], l, v, j);
    Unrolled(cfg, inp, ws, ls, 2);
  }

  lemma MarkedOnce(cfg: Config, w: World, l: Label, v: World)
    requires EngineInvariant.Inv(cfg, w) && w.todo.CallMark? && SlotOf(w.dev, w.todo.slot).Some?
    requires Next(cfg, w, l, v) && Smooth(w, l)
    ensures EngineInvariant.Inv(cfg, v) && v == w.(dev := Marked(w.dev, w.todo.kind, w.todo.slot), todo := w.todo.next)
  {
    hide EngineInvariant.Inv, Marked, FindSlot;
    EngineWrites.Keep(cfg, w, l);
  }

  /** Case: the call marks the target good and commits. */
  lemma Commits(cfg: Config, inp: Inputs, ws: seq<World>, ls: seq<Label>, j: Job, t: int)
    requires IsRound(cfg, inp, ws, ls) && OnTrack(cfg, ws[0], j) && inp.statusOk
    requires ws[1].todo == CallMark(Good, j.targetSlot, SaveJob(j.(state := Committed), Stop))
    ensures Progresses(cfg, ws[0], j, t, inp.now, ws[|ls|])
  {
    hide EngineInvariant.Inv, Moves, Next, FindSlot, Decide, ActiveJob, Smooth, Marked;
    Begun(cfg, inp, ws, ls, j);
    Unrolled(cfg, inp, ws, ls, 1);
    MarkedOnce(cfg, ws[1], ls[1], ws[2]);
    Unrolled(cfg, inp, ws, ls, 2);
    Saved(cfg, ws[2], ls[2], ws[3], j);
    Unrolled(cfg, inp, ws, ls, 3);
  }

  lemma RebootedOnce(cfg: Config, w: World, l: Label, v: World)
    requires EngineInvariant.Inv(cfg, w) && w.todo == CallReboot(None) && Next(cfg, w, l, v) && Smooth(w, l)
    ensures EngineInvariant.Inv(cfg, v)
    ensures v == w.(dev := Booted(w.dev, NextBoot(w.dev, false)), writer := false, todo := Idle)
  {
    hide EngineInvariant.Inv;
    EngineWrites.Keep(cfg, w, l);
  }

  /** Case: the call marks the target bad, makes the old slot primary and reboots into it. */
  lemma FallsBack(cfg: Config, inp: Inputs, ws: seq<World>, ls: seq<Label>, j: Job, t: int)
    requires IsRound(cfg, inp, ws, ls) && OnTrack(cfg, ws[0], j) && inp.statusOk
    requires j.state == RollbackPending && ws[0].dev.booted != j.oldSlot
    requires ws[1].todo == CallMark(Bad, j.targetSlot, CallMark(Active, j.oldSlot, CallReboot(None)))
    ensures Progresses(cfg, ws[0], j, t, inp.now, ws[|ls|])
  {
    hide EngineInvariant.Inv, Moves, Next, FindSlot, SetGood, Decide, ActiveJob, Smooth;
    Begun(cfg, inp, ws, ls, j);
    var dev := ws[1].dev;
    Unrolled(cfg, inp, ws, ls, 1);
    MarkedOnce(cfg, ws[1], ls[1], ws[2]);
    MarkedSlots(dev, Bad, j.targetSlot, j.oldSlot);
    MarkedSlots(dev, Bad, j.targetSlot, j.targetSlot);
    Unrolled(cfg, inp, ws, ls, 2);
    MarkedOnce(cfg, ws[2], ls[2], ws[3]);
    Unrolled(cfg, inp, ws, ls, 3);
    RebootedOnce(cfg, ws[3], ls[3], ws[4]);
    Unrolled(cfg, inp, ws, ls, 4);
  }

  /** Case: the call only probes. */
  lemma Probes(cfg: Config, inp: Inputs, ws: seq<World>, ls: seq<Label>, j: Job, t: int)
    requires IsRound(cfg, inp, ws, ls) && OnTrack(cfg, ws[0], j) && inp.statusOk && ws[1].todo.Idle?
    requires CallsLeft(cfg, ws[0], j, inp.now) < CallsLeft(cfg, ws[0], j, t)
    ensures Progresses(cfg, ws[0], j, t, inp.now, ws[|ls|])
  {
    hide EngineInvariant.Inv, Moves, Next, FindSlot, Decide, ActiveJob;
    Begun(cfg, inp, ws, ls, j);
    Unrolled(cfg, inp, ws, ls, 1);
  }

  /** Every call makes progress. */
  lemma EveryCallProgresses(cfg: Config, inp: Inputs, ws: seq<World>, ls: seq<Label>, j: Job, t: int)
    requires cfg.Valid() && IsRound(cfg, inp, ws, ls) && OnTrack(cfg, ws[0], j) && inp.statusOk && inp.now > t
    ensures Progresses(cfg, ws[0], j, t, inp.now, ws[|ls|])
  {
    hide EngineInvariant.Inv, Moves, FindSlot, Decide, ActiveJob, Progresses, OnTrack;
    var w := ws[0];
    Begun(cfg, inp, ws, ls, j);
    Planned(cfg, w, j, inp);
    States(cfg, w, j);
    if w.dev.booted == j.oldSlot {
      SavesOnly(cfg, inp, ws, ls, j, j.(state := RolledBack), t);
    } else if j.state == RollbackPending {
      FallsBack(cfg, inp, ws, ls, j, t);
    } else if w.dev.bootID != j.bootID {
      SavesOnly(cfg, inp, ws, ls, j, j.(bootID := w.dev.bootID, state := CheckingHealth), t);
    } else if j.state == Committing {
      Commits(cfg, inp, ws, ls, j, t);
    } else if ws[1].todo.Idle? {
      Probes(cfg, inp, ws, ls, j, t);
    } else {
      SavesOnly(cfg, inp, ws, ls, j, ws[1].todo.job, t);
    }
  }

  lemma States(cfg: Config, w: World, j: Job)
    requires OnTrack(cfg, w, j)
    ensures j.state == CheckingHealth || j.state == Committing || j.state == RollbackPending
  {
    hide EngineInvariant.Inv, FindSlot, ActiveJob;
  }

  // ---------------------------------------------------------------- the whole check

  ghost predicate Leads(cfg: Config, w: World, inp: Inputs, v: World) {
    exists ws, ls :: IsRound(cfg, inp, ws, ls) && ws[0] == w && ws[|ls|] == v
  }

  /** Call `i` leads from `vs[i]` to `vs[i + 1]`, but for the clock, later than the call before it. */
  ghost predicate CallAt(cfg: Config, vs: seq<World>, inps: seq<Inputs>, times: seq<int>, i: nat)
    requires i < |inps| && |vs| == |inps| + 1 == |times|
  {
    inps[i].statusOk && inps[i].now > times[i] && times[i + 1] == inps[i].now
    && exists v :: Leads(cfg, vs[i], inps[i], v) && vs[i + 1] == v.(clock := vs[i + 1].clock)
  }

  /** Successive calls; `times[i]` is the time of the call before call `i`. */
  ghost predicate Calls(cfg: Config, vs: seq<World>, inps: seq<Inputs>, times: seq<int>) {
    |vs| == |inps| + 1 == |times| && forall i | 0 <= i < |inps| :: CallAt(cfg, vs, inps, times, i)
  }

  lemma ClockDoesNotMatter(cfg: Config, w: World, j: Job, t: int, now: int, v: World, clock: int)
    requires Progresses(cfg, w, j, t, now, v)
    ensures Progresses(cfg, w, j, t, now, v.(clock := clock))
  {
    hide FindSlot, Agrees, Books, Synced, Healthy, InstallsOnce, Increasing;
  }

  /** Within `CallsLeft` calls the job is over. */
  lemma {:induction false} EndsWithin(cfg: Config, vs: seq<World>, inps: seq<Inputs>, times: seq<int>, i: nat,
                                      j: Job) returns (n: nat)
    requires cfg.Valid() && Calls(cfg, vs, inps, times) && i < |vs| && OnTrack(cfg, vs[i], j)
    requires |inps| - i >= CallsLeft(cfg, vs[i], j, times[i])
    ensures i < n <= i + CallsLeft(cfg, vs[i], j, times[i]) && Ended(vs[n], j.assignment.jobID)
    decreases |inps| - i
  {
    hide OnTrack, CallsLeft, Leads, Ended;
    Positive(cfg, vs[i], j, times[i]);
    assert CallAt(cfg, vs, inps, times, i);
    var v :| Leads(cfg, vs[i], inps[i], v) && vs[i + 1] == v.(clock := vs[i + 1].clock);
    LeadsProgresses(cfg, vs[i], inps[i], v, j, times[i]);
    ClockDoesNotMatter(cfg, vs[i], j, times[i], inps[i].now, v, vs[i + 1].clock);
    if Ended(vs[i + 1], j.assignment.jobID) {
      n := i + 1;
    } else {
      n := EndsWithin(cfg, vs, inps, times, i + 1, ActiveJob(vs[i + 1].mem).value);
    }
  }

  lemma LeadsProgresses(cfg: Config, w: World, inp: Inputs, v: World, j: Job, t: int)
    requires cfg.Valid() && Leads(cfg, w, inp, v) && OnTrack(cfg, w, j) && inp.statusOk && inp.now > t
    ensures Progresses(cfg, w, j, t, inp.now, v)
  {
    hide OnTrack, Moves, Progresses;
    var ws, ls :| IsRound(cfg, inp, ws, ls) && ws[0] == w && ws[|ls|] == v;
    EveryCallProgresses(cfg, inp, ws, ls, j, t);
  }

  lemma Positive(cfg: Config, w: World, j: Job, t: int)
    ensures CallsLeft(cfg, w, j, t) > 0
  {
  }

  /** A job in CheckingHealth is Committed or RolledBack within the health timeout and five more calls. */
  lemma HealthCheckEnds(cfg: Config, vs: seq<World>, inps: seq<Inputs>, times: seq<int>, j: Job) returns (n: nat)
    requires cfg.Valid() && Calls(cfg, vs, inps, times) && OnTrack(cfg, vs[0], j) && j.state == CheckingHealth
    requires |inps| >= cfg.healthTimeout + 5
    ensures 0 < n <= cfg.healthTimeout + 5 && Ended(vs[n], j.assignment.jobID)
  {
    hide OnTrack, Ended, CallAt;
    Bounded(cfg, vs, inps, times, j);
    n := EndsWithin(cfg, vs, inps, times, 0, j);
  }

  lemma Bounded(cfg: Config, vs: seq<World>, inps: seq<Inputs>, times: seq<int>, j: Job)
    requires cfg.Valid() && Calls(cfg, vs, inps, times)
    ensures CallsLeft(cfg, vs[0], j, times[0]) <= cfg.healthTimeout + 5
  {
  }

  // ---------------------------------------------------------------- a reboot that is not asked for in time

  /** The job waits for its reboot, in the boot in which it was installed. */
  predicate Awaits(w: World, j: Job) {
    && ActiveJob(w.mem) == Some(j) && ActiveJob(w.disk) == Some(j) && j.state == AwaitingReboot
    && w.dev.bootID == j.bootID && w.dev.booted == j.oldSlot && (w.todo.Idle? || w.todo.AcceptJob?)
  }

  /** Calls begin only after the deadline, and the device does not reboot by itself. */
  predicate TooLate(l: Label, j: Job) {
    && !l.DeviceBoots?
    && (l.BeginStep? || l.BeginReboot? ==> l.inp.now >= j.assignment.deadline)
  }

  /** A call asks for the reboot exactly inside the window: by itself once, or on request while the backend is idle. */
  lemma AsksExactly(cfg: Config, w: World, j: Job, inp: Inputs)
    requires Awaits(w, j) && inp.statusOk
    ensures !Decide(cfg, w.mem, Some(w.dev), w.healthySince, inp).todo.Idle? <==>
              !j.rebootRequested && j.assignment.autoReboot && j.assignment.notBefore <= inp.now < j.assignment.deadline
    ensures !DecideReboot(w.mem, Some(w.dev), inp).Idle? <==>
              w.dev.operation.Quiet? && j.assignment.notBefore <= inp.now < j.assignment.deadline
  {
    hide FindSlot, StepNormalBoot, StepBeforeInstall;
  }

  lemma WaitsCall(cfg: Config, w: World, l: Label, j: Job)
    requires Awaits(w, j) && Enabled(cfg, w, l) && TooLate(l, j)
    requires l.Submit? || l.BeginStep? || l.BeginReboot? || l.BeginAbort?
    ensures Awaits(Apply(cfg, w, l), j)
  {
    hide FindSlot, StepNormalBoot, StepBeforeInstall, IsIdentifier, IsLatest;
  }

  lemma WaitsWrite(cfg: Config, w: World, l: Label, j: Job)
    requires EngineInvariant.Inv(cfg, w) && Awaits(w, j) && Enabled(cfg, w, l) && l.Write?
    ensures Awaits(Apply(cfg, w, l), j)
  {
    hide EngineInvariant.Inv, Spills;
    EngineRuns.RecoveryAccept(cfg, w, l.spilled, l.outcome);
  }

  lemma WaitsAck(cfg: Config, w: World, l: Label, j: Job)
    requires EngineInvariant.Inv(cfg, w) && Awaits(w, j) && Enabled(cfg, w, l) && l.Ack?
    ensures Awaits(Apply(cfg, w, l), j)
  {
    hide EngineInvariant.Inv, Spills, ActiveJob, Committed', Journal.Valid, Acked;
    if Acked(w.mem, l.sequence).Some? {
      AckKeepsActive(cfg, w, l.sequence, l.spilled);
      CommitKeepsActive(w, Acked(w.mem, l.sequence).value, l.spilled, l.outcome, j);
    }
  }

  lemma AckKeepsActive(cfg: Config, w: World, sequence: nat, spilled: set<string>)
    requires Acked(w.mem, sequence).Some? && Spills(cfg.hotLimit, Acked(w.mem, sequence).value, spilled)
    ensures spilled <= w.mem.jobs.Keys && spilled <= Acked(w.mem, sequence).value.jobs.Keys
    ensures ActiveJob(Without(Acked(w.mem, sequence).value, spilled)) == ActiveJob(w.mem)
  {
  }

  lemma CommitKeepsActive(w: World, c: Database, spilled: set<string>, outcome: Outcome, j: Job)
    requires ActiveJob(w.mem) == Some(j) && ActiveJob(w.disk) == Some(j) && spilled <= c.jobs.Keys
    requires ActiveJob(Without(c, spilled)) == Some(j)
    ensures var v := Committed'(w, c, spilled, outcome);
            ActiveJob(v.mem) == Some(j) && ActiveJob(v.disk) == Some(j) && v.dev == w.dev && v.todo == w.todo
  {
    hide ActiveJob, Without;
  }

  lemma WaitsStep(cfg: Config, w: World, l: Label, w': World, j: Job)
    requires EngineInvariant.Inv(cfg, w) && Awaits(w, j) && Next(cfg, w, l, w') && TooLate(l, j)
    ensures Awaits(w', j)
  {
    if l.Submit? || l.BeginStep? || l.BeginReboot? || l.BeginAbort? {
      hide EngineInvariant.Inv, Apply, Enabled;
      WaitsCall(cfg, w, l, j);
    } else if l.Write? {
      hide EngineInvariant.Inv, Apply, Enabled;
      WaitsWrite(cfg, w, l, j);
    } else if l.Ack? {
      hide EngineInvariant.Inv, Apply, Enabled;
      WaitsAck(cfg, w, l, j);
    } else {
      hide EngineInvariant.Inv;
      NoWriter(cfg, w, j);
    }
  }

  lemma NoWriter(cfg: Config, w: World, j: Job)
    requires EngineInvariant.Inv(cfg, w) && Awaits(w, j)
    ensures !w.writer
  {
    hide Books, Increasing, InstallsOnce, Healthy, Synced, FindSlot, Allowed, Agrees;
  }

  /** Past its deadline a job waits for its reboot for ever: however many calls, requests and restarts follow. */
  lemma {:induction false} WaitsForEver(cfg: Config, ws: seq<World>, ls: seq<Label>, k: nat, j: Job)
    requires |ws| == |ls| + 1 && (forall i | 0 <= i < |ls| :: Next(cfg, ws[i], ls[i], ws[i + 1]))
    requires EngineInvariant.Inv(cfg, ws[0]) && Awaits(ws[0], j) && k < |ws|
    requires forall i | 0 <= i < |ls| :: TooLate(ls[i], j)
    ensures EngineInvariant.Inv(cfg, ws[k]) && Awaits(ws[k], j)
  {
    hide EngineInvariant.Inv, Apply, Enabled, Awaits, TooLate;
    if k > 0 {
      WaitsForEver(cfg, ws, ls, k - 1, j);
      assert Next(cfg, ws[k - 1], ls[k - 1], ws[k]);
      EngineWrites.Keep(cfg, ws[k - 1], ls[k - 1]);
      WaitsStep(cfg, ws[k - 1], ls[k - 1], ws[k], j);
    }
  }
}
