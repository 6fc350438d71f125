/**
 Normal boots are confirmed on evidence (internal/ota/boot.go): with no job active, a slot is marked good only after an
 unbroken streak of passed probes in this very boot, long enough and inside the window of the boot check; and what one
 call of the check does, exactly.
 */
module BootEvidence {
  import opened Model
  import opened Journal
  import opened Engine
  import opened EngineInvariant
  import EngineWrites
  import EngineRuns
  import opened EngineTheorems
  import Liveness
  import opened Answers

  /** A stable streak of passed probes in the boot of the check that ends inside its window. */
  ghost predicate Evident(cfg: Config, probes: seq<Probe>, c: BootCheck) {
    exists lo, hi ::
      && Streak(probes, lo, hi, c.bootID, cfg.healthStable)
      && c.started <= probes[hi].time < c.started + cfg.healthTimeout
  }

  /** The call in progress confirms this boot on evidence; a recorded confirmation rested on it. */
  ghost predicate Backed(cfg: Config, w: World) {
    && (ActiveJob(w.mem).None? && w.todo.CallMark? && w.todo.kind == Good ==>
          && w.todo.slot == w.dev.booted && w.todo.next == ConfirmBoot
          && w.mem.bootCheck.bootID == w.dev.bootID && Evident(cfg, w.probes, w.mem.bootCheck))
    && (w.todo.ConfirmBoot? ==>
          && GoodOf(w.dev, w.dev.booted)
          && w.mem.bootCheck.bootID == w.dev.bootID && Evident(cfg, w.probes, w.mem.bootCheck))
    && (w.todo.StartBootCheck? ==> !w.todo.check.confirmed)
    && (w.mem.bootCheck.confirmed ==> Evident(cfg, w.probes, w.mem.bootCheck))
    && (w.disk.bootCheck.confirmed ==> Evident(cfg, w.probes, w.disk.bootCheck))
  }

  // ---------------------------------------------------------------- decisions

  lemma EvidentGrows(cfg: Config, probes: seq<Probe>, more: seq<Probe>, c: BootCheck)
    requires Evident(cfg, probes, c)
    ensures Evident(cfg, probes + more, c)
  {
    var lo, hi :| Streak(probes, lo, hi, c.bootID, cfg.healthStable)
        && c.started <= probes[hi].time < c.started + cfg.healthTimeout;
    assert Streak(probes + more, lo, hi, c.bootID, cfg.healthStable) && (probes + more)[hi] == probes[hi];
  }

  /** Which version the latest finished job recorded for a slot. */
  predicate Recorded(j: Job, slot: string, version: string) {
    if j.state == Committed && slot == j.targetSlot then version == j.release.version
    else slot == j.oldSlot && version == j.oldVersion
  }

  /** The check applies: there is history, the backend answers, and the booted version is a recorded one. */
  predicate Applies(w: World, inp: Inputs) {
    && w.mem.jobs != map[] && Answering(w.dev, inp) && inp.latest.Some?
    && Recorded(inp.latest.value, w.dev.booted, VersionOf(w.dev, w.dev.booted))
  }

  predicate CheckOpen(cfg: Config, c: BootCheck, inp: Inputs) {
    c.started <= inp.now < c.started + cfg.healthTimeout
  }

  /** There is a recorded good slot to fall back to. */
  predicate HasFallback(d: Device, inp: Inputs) {
    && inp.latest.Some? && Other(d).Some?
    && Recorded(inp.latest.value, Other(d).value, VersionOf(d, Other(d).value)) && GoodOf(d, Other(d).value)
  }

  lemma KnownIsRecorded(j: Job, slot: string, version: string)
    ensures Known(j, slot) == Some(version) <==> Recorded(j, slot, version)
  {
  }

  /** The decision of a call with no job active. */
  lemma PlansBoot(cfg: Config, w: World, inp: Inputs)
    requires ActiveJob(w.mem).None?
    ensures var p := Decide(cfg, w.mem, StatusOf(w, inp.statusOk), w.healthySince, inp); var c := w.mem.bootCheck;
            if !Applies(w, inp) || (c.bootID == w.dev.bootID && c.confirmed) then p.todo.Idle? && !p.probed
            else if c.bootID != w.dev.bootID
            then p.todo == StartBootCheck(BootCheck(w.dev.bootID, inp.now, false)) && !p.probed
            else if !CheckOpen(cfg, c, inp) then
              && !p.probed
              && if HasFallback(w.dev, inp)
                 then p.todo == CallMark(Bad, w.dev.booted, CallMark(Active, Other(w.dev).value, CallReboot(None)))
                 else p.todo.Idle?
            else
              && p.probed && p.healthySince == Since(w.healthySince, inp)
              && if Stable(cfg, w.healthySince, inp) then p.todo == CallMark(Good, w.dev.booted, ConfirmBoot)
                 else p.todo.Idle?
  {
    hide FindSlot, Other, IsLatest, Known, StepBeforeInstall, StepInstalled;
    if inp.latest.Some? {
      KnownIsRecorded(inp.latest.value, w.dev.booted, VersionOf(w.dev, w.dev.booted));
      if Other(w.dev).Some? {
        KnownIsRecorded(inp.latest.value, Other(w.dev).value, VersionOf(w.dev, Other(w.dev).value));
      }
    }
  }

  /** The streak that a decision to confirm has seen. */
  lemma ConfirmingStreak(cfg: Config, w: World, inp: Inputs)
    requires Healthy(w.healthySince, w.healthyFrom, w.probes, w.mem, w.dev.bootID)
    requires w.mem.bootCheck.bootID == w.dev.bootID && CheckOpen(cfg, w.mem.bootCheck, inp)
    requires Stable(cfg, w.healthySince, inp)
    ensures Evident(cfg, w.probes + [Probe(w.dev.bootID, inp.now, inp.healthy)], w.mem.bootCheck)
  {
    var probes := w.probes + [Probe(w.dev.bootID, inp.now, inp.healthy)];
    var lo, hi := if w.healthySince.Some? then w.healthyFrom else |w.probes|, |w.probes|;
    assert probes[hi] == Probe(w.dev.bootID, inp.now, inp.healthy);
    assert Streak(probes, lo, hi, w.dev.bootID, cfg.healthStable);
  }

  lemma BackedBegin(cfg: Config, w: World, inp: Inputs)
    requires Inv(cfg, w) && Backed(cfg, w) && w.todo.Idle?
    ensures Backed(cfg, Begin(w, Decide(cfg, w.mem, StatusOf(w, inp.statusOk), w.healthySince, inp), inp))
  {
    hide Inv, Decide, Evident, FindSlot, Other;
    var p := Decide(cfg, w.mem, StatusOf(w, inp.statusOk), w.healthySince, inp);
    var more := [Probe(w.dev.bootID, inp.now, inp.healthy)];
    if w.mem.bootCheck.confirmed {
      EvidentGrows(cfg, w.probes, more, w.mem.bootCheck);
    }
    if w.disk.bootCheck.confirmed {
      EvidentGrows(cfg, w.probes, more, w.disk.bootCheck);
    }
    if ActiveJob(w.mem).None? {
      PlansBoot(cfg, w, inp);
      if p.todo.CallMark? && p.todo.kind == Good {
        InvHealthy(cfg, w);
        ConfirmingStreak(cfg, w, inp);
      }
    } else {
      NoBootWrites(cfg, w, inp);
    }
  }

  lemma InvHealthy(cfg: Config, w: World)
    requires Inv(cfg, w)
    ensures Healthy(w.healthySince, w.healthyFrom, w.probes, w.mem, w.dev.bootID)
  {
    hide Agrees, Books, Increasing, InstallsOnce, Synced, Allowed, WriterOwned, Healthy;
  }

  lemma NoBootWrites(cfg: Config, w: World, inp: Inputs)
    requires ActiveJob(w.mem).Some?
    ensures var t := Decide(cfg, w.mem, StatusOf(w, inp.statusOk), w.healthySince, inp).todo;
            !t.ConfirmBoot? && !t.StartBootCheck?
  {
    hide FindSlot, Other, Release.HasOS;
  }

  // ---------------------------------------------------------------- steps

  lemma BackedMark(cfg: Config, w: World, ok: bool, applied: bool)
    requires Inv(cfg, w) && Backed(cfg, w) && w.todo.CallMark? && (ok ==> applied && SlotOf(w.dev, w.todo.slot).Some?)
    ensures Backed(cfg, w.(dev := if applied then Marked(w.dev, w.todo.kind, w.todo.slot) else w.dev,
                           todo := if ok then w.todo.next else Idle))
  {
    hide Inv, Evident, FindSlot, SetGood;
    MarkPrograms(cfg, w);
    MarkedSlots(w.dev, w.todo.kind, w.todo.slot, w.todo.slot);
  }

  /** What follows a mark: another mark, a reboot, a save, or a confirmation after a good mark with no job active. */
  lemma MarkPrograms(cfg: Config, w: World)
    requires Inv(cfg, w) && w.todo.CallMark?
    ensures w.todo.next.ConfirmBoot? ==> ActiveJob(w.mem).None? && w.todo.kind == Good
    ensures !w.todo.next.StartBootCheck? && (w.todo.next.CallMark? ==> w.todo.next.kind == Active)
  {
    hide Books, Increasing, InstallsOnce, Healthy, Licensed, FindSlot, Agrees, Synced, WriterOwned;
  }

  /** The boot check that a write tries to record. */
  lemma ChangedCheck(t: Todo, d: Database, now: int)
    requires Change(t, d, now).Some?
    ensures Change(t, d, now).value.bootCheck
            == if t.StartBootCheck? then t.check else if t.ConfirmBoot? then d.bootCheck.(confirmed := true)
              else d.bootCheck
  {
  }

  lemma CommitChecks(w: World, c: Database, spilled: set<string>, outcome: Outcome)
    requires spilled <= c.jobs.Keys
    ensures var v := Committed'(w, c, spilled, outcome);
            && v.mem.bootCheck == (if outcome.Durable? then c.bootCheck else w.mem.bootCheck)
            && v.disk.bootCheck == (if outcome.FailedLost? then w.disk.bootCheck else c.bootCheck)
            && v.probes == w.probes && v.dev == w.dev && v.todo == w.todo
  {
  }

  lemma SameStreak(cfg: Config, probes: seq<Probe>, c: BootCheck, confirmed: bool)
    requires Evident(cfg, probes, c)
    ensures Evident(cfg, probes, c.(confirmed := confirmed))
  {
  }

  lemma BackedWrite(cfg: Config, w: World, spilled: set<string>, outcome: Outcome)
    requires Backed(cfg, w) && Enabled(cfg, w, Write(spilled, outcome))
    ensures Backed(cfg, DoWrite(cfg, w, spilled, outcome))
  {
    hide Journal.Valid, Spills, Change, Committed', AfterWrite, Evident, FindSlot;
    var c := Change(w.todo, w.mem, w.clock);
    NothingAfter(w.todo, w.clock);
    if c.Some? {
      EngineRuns.ChangeKeepsJobs(cfg, w.todo, w.mem, w.clock, spilled);
      ChangedCheck(w.todo, w.mem, w.clock);
      CommitChecks(w, c.value, spilled, outcome);
      if w.todo.ConfirmBoot? {
        SameStreak(cfg, w.probes, w.mem.bootCheck, true);
      }
    }
  }

  lemma NothingAfter(t: Todo, now: int)
    ensures var u := AfterWrite(t, now); u.Idle? || u.CallInstall? || u.CallReboot?
  {
  }

  lemma BackedAck(cfg: Config, w: World, sequence: nat, spilled: set<string>, outcome: Outcome)
    requires Backed(cfg, w) && Enabled(cfg, w, Ack(sequence, spilled, outcome))
    ensures Backed(cfg, Apply(cfg, w, Ack(sequence, spilled, outcome)))
  {
    hide Journal.Valid, Spills, Committed', Evident, FindSlot, DropAcked, ActiveJob;
    var c := Acked(w.mem, sequence);
    if c.Some? {
      EngineRuns.AckKeepsJobs(cfg, w.mem, sequence, spilled);
      CommitChecks(w, c.value, spilled, outcome);
      AckedActive(cfg, w, sequence, spilled, outcome);
    }
  }

  lemma AckedActive(cfg: Config, w: World, sequence: nat, spilled: set<string>, outcome: Outcome)
    requires Acked(w.mem, sequence).Some? && Spills(cfg.hotLimit, Acked(w.mem, sequence).value, spilled)
    ensures spilled <= Acked(w.mem, sequence).value.jobs.Keys
    ensures ActiveJob(Committed'(w, Acked(w.mem, sequence).value, spilled, outcome).mem) == ActiveJob(w.mem)
  {
  }

  lemma BackedRest(cfg: Config, w: World, l: Label)
    requires Backed(cfg, w) && Enabled(cfg, w, l) && !l.BeginStep? && !l.Mark? && !l.Write? && !l.Ack?
    ensures Backed(cfg, Apply(cfg, w, l))
  {
    hide Evident, FindSlot, DecideSubmit, AfterInspect, IsIdentifier;
    Savers(w.mem);
    if l.BackendWrites? {
      InstallKeepsNames(w.dev.slots, l.after.slots, w.dev.booted, w.dev.booted);
    }
  }

  lemma Savers(d: Database)
    ensures forall j, s :: AfterInspect(j, s).SaveJob?
    ensures forall s, inp :: DecideReboot(d, s, inp).Idle? || DecideReboot(d, s, inp).SaveJob?
    ensures forall s :: DecideAbort(d, s).Idle? || (DecideAbort(d, s).CallMark? && DecideAbort(d, s).kind == Bad)
  {
    hide FindSlot;
  }

  lemma BackedStep(cfg: Config, w: World, l: Label, w': World)
    requires Inv(cfg, w) && Backed(cfg, w) && Next(cfg, w, l, w')
    ensures Backed(cfg, w')
  {
    hide Inv, Backed, DoWrite, Decide, Begin, IsLatest, Spills, Change, Acked, Attempt, FindSlot;
    if l.BeginStep? {
      BackedBegin(cfg, w, l.inp);
    } else if l.Mark? {
      BackedMark(cfg, w, l.ok, l.applied);
    } else if l.Write? {
      BackedWrite(cfg, w, l.spilled, l.outcome);
    } else if l.Ack? {
      BackedAck(cfg, w, l.sequence, l.spilled, l.outcome);
    } else {
      BackedRest(cfg, w, l);
    }
  }

  // ---------------------------------------------------------------- whole runs

  lemma {:induction false} BackedThroughout(cfg: Config, ws: seq<World>, ls: seq<Label>, k: nat)
    requires IsRun(cfg, ws, ls) && k < |ws|
    ensures Backed(cfg, ws[k])
  {
    hide Inv, Backed, Apply, Enabled;
    if k == 0 {
      BackedAtFirst(cfg, ws[0]);
    } else {
      BackedThroughout(cfg, ws, ls, k - 1);
      Reachable(cfg, ws, ls, k - 1);
      assert Next(cfg, ws[k - 1], ls[k - 1], ws[k]);
      BackedStep(cfg, ws[k - 1], ls[k - 1], ws[k]);
    }
  }

  lemma BackedAtFirst(cfg: Config, w: World)
    requires Init(w)
    ensures Backed(cfg, w)
  {
  }

  /**
   In every run, whenever a slot is marked good with no job active, it is the booted one and the probes hold a stable
   streak in this very boot that ends inside the window of its boot check; the confirmation is written only with that
   evidence and with the booted slot marked good; and whatever boot is durably confirmed had such a streak.
   */
  lemma ConfirmedOnEvidence(cfg: Config, ws: seq<World>, ls: seq<Label>, k: nat)
    requires IsRun(cfg, ws, ls) && k < |ls|
    ensures ls[k].Mark? && ws[k].todo.CallMark? && ws[k].todo.kind == Good && ActiveJob(ws[k].mem).None? ==>
              var c := ws[k].mem.bootCheck;
              && ws[k].todo.slot == ws[k].dev.booted && c.bootID == ws[k].dev.bootID
              && exists lo, hi ::
                   && Streak(ws[k].probes, lo, hi, ws[k].dev.bootID, cfg.healthStable)
                   && c.started <= ws[k].probes[hi].time < c.started + cfg.healthTimeout
    ensures ls[k].Write? && ws[k].todo.ConfirmBoot? ==>
              && GoodOf(ws[k].dev, ws[k].dev.booted) && ws[k].mem.bootCheck.bootID == ws[k].dev.bootID
              && Evident(cfg, ws[k].probes, ws[k].mem.bootCheck)
    ensures ws[k].disk.bootCheck.confirmed ==> Evident(cfg, ws[k].probes, ws[k].disk.bootCheck)
  {
    hide Inv, Next, FindSlot, Streak;
    BackedThroughout(cfg, ws, ls, k);
  }

  // ---------------------------------------------------------------- what a call does

  /** One call of Step from rest with no job active, in which nothing fails. */
  ghost predicate BootCall(cfg: Config, inp: Inputs, ws: seq<World>, ls: seq<Label>) {
    && |ws| == |ls| + 1 && |ls| >= 1 && Liveness.IsRound(cfg, inp, ws, ls)
    && Inv(cfg, ws[0]) && !ws[0].poisoned && ActiveJob(ws[0].mem).None?
  }

  lemma BootBegun(cfg: Config, inp: Inputs, ws: seq<World>, ls: seq<Label>)
    requires BootCall(cfg, inp, ws, ls)
    ensures Inv(cfg, ws[1]) && ws[0].mem == ws[0].disk
    ensures ws[1] == ws[0].(todo := ws[1].todo, healthySince := ws[1].healthySince, probes := ws[1].probes,
                            healthyFrom := ws[1].healthyFrom)
    ensures var p := Decide(cfg, ws[0].mem, StatusOf(ws[0], inp.statusOk), ws[0].healthySince, inp);
            ws[1].todo == p.todo && ws[1].healthySince == p.healthySince
  {
    hide Inv, Decide, IsLatest;
    assert Liveness.Moves(cfg, ws, ls, 0);
    EngineWrites.Keep(cfg, ws[0], ls[0]);
    InSync(cfg, ws[0]);
  }

  lemma CheckWritten(cfg: Config, w: World, l: Label, v: World)
    requires Inv(cfg, w) && !w.poisoned && (w.todo.StartBootCheck? || w.todo.ConfirmBoot?)
    requires Next(cfg, w, l, v) && Liveness.Smooth(w, l)
    ensures v.todo.Idle? && v.dev == w.dev
    ensures v.disk.bootCheck == if w.todo.StartBootCheck? then w.todo.check else w.mem.bootCheck.(confirmed := true)
  {
    hide Inv, Journal.Valid, Spills, Committed', Archived;
    EngineRuns.WritesAreValid(cfg, w, l.spilled, l.outcome);
    EngineRuns.ChangeKeepsJobs(cfg, w.todo, w.mem, w.clock, l.spilled);
    CommitChecks(w, Change(w.todo, w.mem, w.clock).value, l.spilled, l.outcome);
  }

  /** The check of this boot runs and has not passed yet. */
  predicate Running(w: World, inp: Inputs) {
    Applies(w, inp) && w.mem.bootCheck.bootID == w.dev.bootID && !w.mem.bootCheck.confirmed
  }

  /**
   A call with no job active, exactly: the check of a new boot is started, a stable boot is marked good and confirmed,
   a boot whose window is over is left for a recorded good slot, and in every other case nothing durable changes.
   */
  lemma BootCallExactly(cfg: Config, inp: Inputs, ws: seq<World>, ls: seq<Label>)
    requires BootCall(cfg, inp, ws, ls) && SlotOf(ws[0].dev, ws[0].dev.booted).Some?
    ensures var w, v := ws[0], ws[|ls|]; var c := w.mem.bootCheck;
            if Applies(w, inp) && c.bootID != w.dev.bootID
            then v.disk.bootCheck == BootCheck(w.dev.bootID, inp.now, false) && v.dev == w.dev
            else if Running(w, inp) && CheckOpen(cfg, c, inp) && Stable(cfg, w.healthySince, inp)
            then v.disk.bootCheck == c.(confirmed := true) && v.dev == Marked(w.dev, Good, w.dev.booted)
            else if Running(w, inp) && !CheckOpen(cfg, c, inp) && HasFallback(w.dev, inp)
            then && v.disk == w.disk && v.dev.booted == Other(w.dev).value && v.dev.primary == v.dev.booted
                 && v.dev.bootID != w.dev.bootID && !GoodOf(v.dev, w.dev.booted)
            else v.disk == w.disk && v.dev == w.dev
    ensures var w, v := ws[0], ws[|ls|];
            Running(w, inp) && CheckOpen(cfg, w.mem.bootCheck, inp) && !Stable(cfg, w.healthySince, inp) ==>
              v.mem == w.mem && !v.poisoned && v.healthySince == Since(w.healthySince, inp)
  {
    hide Inv, Decide, Liveness.IsRound, FindSlot, Other, Applies, HasFallback, Marked, Liveness.Moves, Next, ActiveJob,
         Liveness.Smooth;
    BootBegun(cfg, inp, ws, ls);
    PlansBoot(cfg, ws[0], inp);
    AppliesFacts(ws[0], inp);
    Liveness.Unrolled(cfg, inp, ws, ls, 1);
    if ws[1].todo.StartBootCheck? {
      CheckWritten(cfg, ws[1], ls[1], ws[2]);
      Liveness.Unrolled(cfg, inp, ws, ls, 2);
    } else if ws[1].todo.CallMark? && ws[1].todo.kind == Good {
      Liveness.MarkedOnce(cfg, ws[1], ls[1], ws[2]);
      Liveness.Unrolled(cfg, inp, ws, ls, 2);
      CheckWritten(cfg, ws[2], ls[2], ws[3]);
      Liveness.Unrolled(cfg, inp, ws, ls, 3);
    } else if ws[1].todo.CallMark? {
      BootFallsBack(cfg, inp, ws, ls);
    }
  }

  lemma AppliesFacts(w: World, inp: Inputs)
    ensures Running(w, inp) ==> Applies(w, inp)
    ensures HasFallback(w.dev, inp) ==>
              Other(w.dev).Some? && SlotOf(w.dev, Other(w.dev).value).Some? && Other(w.dev).value != w.dev.booted
  {
    hide FindSlot;
  }

  lemma BootFallsBack(cfg: Config, inp: Inputs, ws: seq<World>, ls: seq<Label>)
    requires BootCall(cfg, inp, ws, ls) && SlotOf(ws[0].dev, ws[0].dev.booted).Some? && HasFallback(ws[0].dev, inp)
    requires ws[1].todo == CallMark(Bad, ws[0].dev.booted, CallMark(Active, Other(ws[0].dev).value, CallReboot(None)))
    ensures var w, v := ws[0], ws[|ls|];
            && v.disk == w.disk && v.dev.booted == Other(w.dev).value && v.dev.primary == v.dev.booted
            && v.dev.bootID != w.dev.bootID && !GoodOf(v.dev, w.dev.booted)
  {
    hide Inv, Decide, Liveness.IsRound, FindSlot, Other, HasFallback, Liveness.Moves, Next, ActiveJob, Liveness.Smooth,
         SetGood;
    BootBegun(cfg, inp, ws, ls);
    AppliesFacts(ws[0], inp);
    var d, o := ws[0].dev, Other(ws[0].dev).value;
    Liveness.Unrolled(cfg, inp, ws, ls, 1);
    Liveness.MarkedOnce(cfg, ws[1], ls[1], ws[2]);
    MarkedSlots(d, Bad, d.booted, o);
    MarkedSlots(d, Bad, d.booted, d.booted);
    Liveness.Unrolled(cfg, inp, ws, ls, 2);
    Liveness.MarkedOnce(cfg, ws[2], ls[2], ws[3]);
    MarkedSlots(ws[2].dev, Active, o, d.booted);
    Liveness.Unrolled(cfg, inp, ws, ls, 3);
    RebootStep(cfg, ws[3], ls[3], ws[4]);
    Liveness.Unrolled(cfg, inp, ws, ls, 4);
    SameGood(ws[3].dev, ws[4].dev, d.booted);
  }

  // ---------------------------------------------------------------- a healthy boot is confirmed

  /** Call `i` finds the check of this boot applying, its window open and the device healthy. */
  ghost predicate HealthyCallAt(cfg: Config, vs: seq<World>, inps: seq<Inputs>, i: nat)
    requires i < |inps| && |vs| == |inps| + 1
  {
    && Applies(vs[i], inps[i]) && CheckOpen(cfg, vs[0].mem.bootCheck, inps[i]) && inps[i].healthy
    && inps[0].now <= inps[i].now
    && exists v :: Liveness.Leads(cfg, vs[i], inps[i], v) && vs[i + 1] == v.(clock := vs[i + 1].clock)
  }

  /** Between the calls: the check of this boot is not over, and the streak began no later than the first call. */
  ghost predicate Waiting(cfg: Config, first: World, w: World, start: int) {
    && Inv(cfg, w) && !w.poisoned && ActiveJob(w.mem).None? && w.mem.bootCheck == first.mem.bootCheck
    && w.dev == first.dev && w.mem.bootCheck.bootID == w.dev.bootID && !w.mem.bootCheck.confirmed
    && (w.healthySince.Some? ==> w.healthySince.value <= start)
  }

  lemma HealthyCall(cfg: Config, first: World, w: World, inp: Inputs, v: World, start: int)
    requires Waiting(cfg, first, w, start) && Liveness.Leads(cfg, w, inp, v) && SlotOf(w.dev, w.dev.booted).Some?
    requires Applies(w, inp) && CheckOpen(cfg, first.mem.bootCheck, inp) && inp.healthy && start <= inp.now
    requires w.healthySince.Some? || start == inp.now
    ensures v.disk.bootCheck.confirmed
            || (Waiting(cfg, first, v, start) && v.healthySince.Some? && inp.now - start < cfg.healthStable)
  {
    hide Inv, Applies, FindSlot, ActiveJob, Liveness.Moves, HasFallback, Marked, CheckOpen;
    var ws, ls :| Liveness.IsRound(cfg, inp, ws, ls) && ws[0] == w && ws[|ls|] == v;
    BootCallExactly(cfg, inp, ws, ls);
    RoundKeeps(cfg, inp, ws, ls, |ls|);
  }

  lemma {:induction false} RoundKeeps(cfg: Config, inp: Inputs, ws: seq<World>, ls: seq<Label>, k: nat)
    requires Liveness.IsRound(cfg, inp, ws, ls) && k < |ws| && Inv(cfg, ws[0])
    ensures Inv(cfg, ws[k])
  {
    hide Inv, Next, Liveness.Smooth;
    if k > 0 {
      RoundKeeps(cfg, inp, ws, ls, k - 1);
      assert Liveness.Moves(cfg, ws, ls, k - 1);
      KeepsNext(cfg, ws[k - 1], ls[k - 1], ws[k]);
    }
  }

  lemma KeepsNext(cfg: Config, w: World, l: Label, v: World)
    requires Inv(cfg, w) && Next(cfg, w, l, v)
    ensures Inv(cfg, v)
  {
    hide Inv, Apply, Enabled;
    EngineWrites.Keep(cfg, w, l);
  }

  lemma ClockWaits(cfg: Config, first: World, w: World, start: int, clock: int)
    requires Waiting(cfg, first, w, start)
    ensures Waiting(cfg, first, w.(clock := clock), start)
  {
    hide ActiveJob;
    KeepsNext(cfg, w, SetClock(clock), w.(clock := clock));
  }

  /**
   A boot that is healthy at every call is confirmed, and its slot marked good, once the calls inside the window of its
   check span the configured stability.
   */
  lemma {:induction false} HealthyBootIsConfirmed(cfg: Config, vs: seq<World>, inps: seq<Inputs>, n: nat)
    returns (m: nat)
    requires |vs| == |inps| + 1 && 0 < n <= |inps| && Waiting(cfg, vs[0], vs[0], inps[0].now)
    requires SlotOf(vs[0].dev, vs[0].dev.booted).Some?
    requires forall i | 0 <= i < n :: HealthyCallAt(cfg, vs, inps, i)
    ensures m <= n
    ensures vs[m].disk.bootCheck.confirmed
            || (m == n && Waiting(cfg, vs[0], vs[n], inps[0].now) && vs[n].healthySince.Some?)
    ensures inps[n - 1].now - inps[0].now >= cfg.healthStable ==> vs[m].disk.bootCheck.confirmed
  {
    hide Waiting, Applies, CheckOpen, FindSlot, Liveness.Leads;
    var start := inps[0].now;
    m := 0;
    if n > 1 {
      m := HealthyBootIsConfirmed(cfg, vs, inps, n - 1);
    }
    if !vs[m].disk.bootCheck.confirmed {
      assert HealthyCallAt(cfg, vs, inps, n - 1);
      var v :| Liveness.Leads(cfg, vs[n - 1], inps[n - 1], v) && vs[n] == v.(clock := vs[n].clock);
      SameSlots(cfg, vs[0], vs[n - 1], start);
      HealthyCall(cfg, vs[0], vs[n - 1], inps[n - 1], v, start);
      if Waiting(cfg, vs[0], v, start) {
        ClockWaits(cfg, vs[0], v, start, vs[n].clock);
      }
      m := n;
    }
  }

  lemma SameSlots(cfg: Config, first: World, w: World, start: int)
    requires Waiting(cfg, first, w, start)
    ensures w.dev == first.dev
  {
  }
}
