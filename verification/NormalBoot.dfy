/**
 Boots with no job active (internal/ota/boot.go): the booted slot is confirmed when it stays healthy and abandoned
 for the other slot when it does not. Over any stretch without jobs, abandonment happens at most once.
 */
module NormalBoot {
  import opened Model
  import opened Journal
  import opened Engine
  import opened EngineInvariant
  import opened EngineWrites
  import opened EngineTheorems
  import EngineRuns

  /**
   The steps of a stretch without jobs: nothing is submitted, calls read the clock, the clock does not go back and
   every boot follows the primary slot.
   */
  predicate Undisturbed(w: World, l: Label) {
    && !l.Submit?
    && (l.BeginStep? ==> l.inp.now == w.clock)
    && (l.SetClock? ==> l.clock >= w.clock)
    && (l.DeviceBoots? ==> FollowsPrimary(w.dev, l.boot))
    && (l.Reboot? && l.inPlace.Some? ==> FollowsPrimary(w.dev, l.inPlace.value))
  }

  predicate FollowsPrimary(dev: Device, b: Boot) {
    b.booted == dev.primary && b.primary == dev.primary
  }

  /** The boot check of this boot can no longer pass. */
  predicate Expired(cfg: Config, check: BootCheck, boot: nat, clock: int) {
    check.bootID == boot && (check.confirmed || clock >= check.started + cfg.healthTimeout)
  }

  /** Memory and disk agree on the boot check of this boot, which began in the past. */
  predicate ChecksAgree(w: World) {
    && (w.mem.bootCheck.bootID == w.dev.bootID ==>
          w.disk.bootCheck.bootID == w.dev.bootID && w.disk.bootCheck.started == w.mem.bootCheck.started)
    && (w.mem.bootCheck.bootID == w.dev.bootID ==> w.mem.bootCheck.started <= w.clock)
    && (w.disk.bootCheck.bootID == w.dev.bootID ==> w.disk.bootCheck.started <= w.clock)
    && (w.todo.StartBootCheck? ==> w.todo.check.started <= w.clock && w.mem.bootCheck.bootID != w.dev.bootID)
  }

  /** The program in progress, if it marks slots, is a confirmation or an abandonment of the booted slot. */
  predicate Purposeful(cfg: Config, w: World) {
    match w.todo
    case CallMark(Good, s, _) => s == w.dev.booted
    case CallMark(Bad, s, CallMark(_, o, _)) =>
      s == w.dev.booted && Other(w.dev) == Some(o) && GoodOf(w.dev, o)
      && Expired(cfg, w.mem.bootCheck, w.dev.bootID, w.clock) && Expired(cfg, w.disk.bootCheck, w.dev.bootID, w.clock)
    case CallMark(Active, o, _) =>
      Other(w.dev) == Some(o) && !GoodOf(w.dev, w.dev.booted)
      && Expired(cfg, w.mem.bootCheck, w.dev.bootID, w.clock) && Expired(cfg, w.disk.bootCheck, w.dev.bootID, w.clock)
    case _ => true
  }

  /** The slot `first` is still booted and primary. */
  predicate Staying(w: World, first: string) {
    w.dev.booted == first && w.dev.primary == first
  }

  /** `first` is abandoned but still booted: bad, not primary, and its check can no longer pass. */
  predicate Leaving(cfg: Config, w: World, first: string) {
    && w.dev.booted == first && Other(w.dev) == Some(w.dev.primary) && !GoodOf(w.dev, first)
    && Expired(cfg, w.mem.bootCheck, w.dev.bootID, w.clock) && Expired(cfg, w.disk.bootCheck, w.dev.bootID, w.clock)
    && !(w.todo.CallMark? && w.todo.kind == Good) && !w.todo.StartBootCheck?
  }

  /** The other slot runs and there is no good slot to go back to. */
  predicate Left(w: World, first: string) {
    && w.dev.booted != first && w.dev.primary == w.dev.booted
    && (Other(w.dev).Some? ==> Other(w.dev).value == first) && !GoodOf(w.dev, first)
    && !(w.todo.CallMark? && w.todo.kind != Good)
  }

  ghost predicate Calm(cfg: Config, w: World, first: string) {
    && ActiveJob(w.mem).None? && ActiveJob(w.disk).None? && !w.writer && !w.todo.AcceptJob?
    && ChecksAgree(w) && Purposeful(cfg, w)
    && (Staying(w, first) || Leaving(cfg, w, first) || Left(w, first))
  }

  // ---------------------------------------------------------------- the device

  lemma OtherAfterMark(d: Device, kind: MarkKind, slot: string)
    ensures Other(Marked(d, kind, slot)) == Other(d)
  {
    if |d.slots| == 2 {
      assert d.slots[1..][1..] == [];
      assert SetGood(d.slots[1..], slot, true) == [SetGood(d.slots, slot, true)[1]];
      assert SetGood(d.slots[1..], slot, false) == [SetGood(d.slots, slot, false)[1]];
    } else {
      SetGoodLength(d.slots, slot, true);
      SetGoodLength(d.slots, slot, false);
    }
  }

  lemma {:induction false} SetGoodLength(slots: seq<Slot>, name: string, good: bool)
    ensures |SetGood(slots, name, good)| == |slots|
  {
    if slots != [] {
      SetGoodLength(slots[1..], name, good);
    }
  }

  lemma OtherIsMutual(d: Device, o: string, b: Boot)
    requires Other(d) == Some(o) && b.booted == o
    ensures Other(Booted(d, b)).Some? ==> Other(Booted(d, b)).value == d.booted
  {}

  // ---------------------------------------------------------------- steps

  lemma CalmBegin(cfg: Config, w: World, inp: Inputs, first: string)
    requires Calm(cfg, w, first) && w.todo.Idle? && inp.now == w.clock
    ensures Calm(cfg, Begin(w, Decide(cfg, w.mem, StatusOf(w, inp.statusOk), w.healthySince, inp), inp), first)
  {
    hide FindSlot, IsLatest;
    var p := StepNormalBoot(cfg, w.mem, StatusOf(w, inp.statusOk), w.healthySince, inp);
    assert p.todo.Idle? || p.todo.StartBootCheck? || p.todo.CallMark?;
  }

  lemma CalmMark(cfg: Config, w: World, ok: bool, applied: bool, first: string)
    requires Calm(cfg, w, first) && w.todo.CallMark? && (ok ==> applied && SlotOf(w.dev, w.todo.slot).Some?)
    requires BootProgram(w.todo)
    ensures Calm(cfg, w.(dev := if applied then Marked(w.dev, w.todo.kind, w.todo.slot) else w.dev,
                         todo := if ok then w.todo.next else Idle), first)
  {
    hide FindSlot, SetGood, Other;
    OtherAfterMark(w.dev, w.todo.kind, w.todo.slot);
    MarkedSlots(w.dev, w.todo.kind, w.todo.slot, first);
    MarkedSlots(w.dev, w.todo.kind, w.todo.slot, w.dev.booted);
    MarkedSlots(w.dev, w.todo.kind, w.todo.slot, w.todo.slot);
    if w.todo.kind == Bad {
      MarkedSlots(w.dev, w.todo.kind, w.todo.slot, w.todo.next.slot);
    }
  }

  /** Records and programs that a boot with a new ID leaves behind. */
  lemma CalmBoots(cfg: Config, w: World, w': World, b: Boot, first: string)
    requires Calm(cfg, w, first) && FollowsPrimary(w.dev, b) && b.bootID > w.dev.bootID
    requires w.mem.bootCheck.bootID <= w.dev.bootID && w.disk.bootCheck.bootID <= w.dev.bootID
    requires w' == w.(dev := Booted(w.dev, b), mem := w'.mem, todo := Idle, poisoned := w'.poisoned,
                      healthySince := w'.healthySince)
    requires w'.mem == w.mem || w'.mem == w.disk
    ensures Calm(cfg, w', first)
    ensures w'.dev.booted != w.dev.booted ==> Leaving(cfg, w, first) && Left(w', first)
  {
    hide FindSlot;
    if Leaving(cfg, w, first) {
      OtherIsMutual(w.dev, w.dev.primary, b);
    }
  }

  lemma CalmWrite(cfg: Config, w: World, spilled: set<string>, outcome: Outcome, first: string)
    requires Inv(cfg, w) && Calm(cfg, w, first) && Enabled(cfg, w, Write(spilled, outcome))
    ensures Calm(cfg, DoWrite(cfg, w, spilled, outcome), first)
  {
    hide Agrees, Books, Increasing, InstallsOnce, Healthy, Lag, Journal.Valid, FindSlot, Licensed, Program, Other;
    var c := Change(w.todo, w.mem, w.clock);
    if Attempt(cfg, w, c, spilled).Some? {
      OtherDatabase(cfg, w.mem, c.value, spilled);
    }
  }

  lemma CalmAck(cfg: Config, w: World, sequence: nat, spilled: set<string>, outcome: Outcome, first: string)
    requires Inv(cfg, w) && Calm(cfg, w, first) && Enabled(cfg, w, Ack(sequence, spilled, outcome))
    ensures Calm(cfg, Apply(cfg, w, Ack(sequence, spilled, outcome)), first)
  {
    hide Agrees, Books, Increasing, InstallsOnce, Healthy, Lag, Journal.Valid, FindSlot, Allowed, Other, DropAcked;
    var c := Acked(w.mem, sequence);
    if Attempt(cfg, w, c, spilled).Some? {
      OtherDatabase(cfg, w.mem, c.value, spilled);
    }
  }

  lemma CalmRest(cfg: Config, w: World, l: Label, first: string)
    requires Calm(cfg, w, first) && Enabled(cfg, w, l) && Undisturbed(w, l)
    requires l.BeginReboot? || l.BeginAbort? || l.SetClock? || l.SetOperation? || l.Crash?
             || (l.Reboot? && l.inPlace.None?)
    requires w.todo.CallReboot? ==> w.todo.asked.None?
    ensures Calm(cfg, Apply(cfg, w, l), first)
  {
    hide FindSlot;
  }

  lemma CalmTodo(cfg: Config, w: World)
    requires Inv(cfg, w) && ActiveJob(w.mem).None?
    ensures w.todo.CallMark? ==> BootProgram(w.todo)
    ensures w.todo.CallReboot? ==> w.todo.asked.None?
    ensures !w.todo.CallInstall? && !w.todo.InspectInstall?
    ensures w.mem.bootCheck.bootID <= w.dev.bootID && w.disk.bootCheck.bootID <= w.dev.bootID
  {
    hide Books, Increasing, InstallsOnce, Healthy, Licensed, FindSlot, Fits;
  }

  lemma WriteLeavesDevice(cfg: Config, w: World, spilled: set<string>, outcome: Outcome)
    requires Enabled(cfg, w, Write(spilled, outcome))
    ensures DoWrite(cfg, w, spilled, outcome).dev == w.dev
  {
    hide Journal.Valid, Change, Spillable;
  }

  /** In a stretch without jobs the slot changes only by leaving the first one, for good. */
  lemma CalmStep(cfg: Config, w: World, l: Label, w': World, first: string)
    requires Inv(cfg, w) && Calm(cfg, w, first) && Next(cfg, w, l, w') && Undisturbed(w, l)
    ensures Calm(cfg, w', first)
    ensures w'.dev.booted != w.dev.booted ==> w.dev.booted == first
    ensures w.dev.booted != first ==> w'.dev.booted == w.dev.booted
  {
    hide Inv, DoWrite, Decide, IsLatest, Spills, Journal.Valid, Change, Acked, Attempt, FindSlot, BootProgram;
    CalmTodo(cfg, w);
    if l.BeginStep? {
      CalmBegin(cfg, w, l.inp, first);
    } else if l.Mark? {
      CalmMark(cfg, w, l.ok, l.applied, first);
    } else if l.Write? {
      CalmWrite(cfg, w, l.spilled, l.outcome, first);
      WriteLeavesDevice(cfg, w, l.spilled, l.outcome);
    } else if l.Ack? {
      CalmAck(cfg, w, l.sequence, l.spilled, l.outcome, first);
    } else if l.DeviceBoots? {
      CalmBoots(cfg, w, w', l.boot, first);
    } else if l.Reboot? && l.inPlace.Some? {
      CalmBoots(cfg, w, w', l.inPlace.value, first);
    } else {
      CalmRest(cfg, w, l, first);
    }
  }

  // ---------------------------------------------------------------- whole stretches

  /** A stretch without jobs that begins on the primary slot with no boot check from the future. */
  ghost predicate IsStretch(cfg: Config, ws: seq<World>, ls: seq<Label>) {
    && |ws| == |ls| + 1 && Inv(cfg, ws[0]) && ws[0].todo.Idle? && !ws[0].poisoned && ws[0].disk.active == ""
    && ws[0].dev.primary == ws[0].dev.booted && ws[0].disk.bootCheck.started <= ws[0].clock
    && (forall i | 0 <= i < |ls| :: Next(cfg, ws[i], ls[i], ws[i + 1]) && Undisturbed(ws[i], ls[i]))
  }

  lemma StretchBegins(cfg: Config, w: World)
    requires Inv(cfg, w) && w.todo.Idle? && !w.poisoned && w.disk.active == ""
    requires w.dev.primary == w.dev.booted && w.disk.bootCheck.started <= w.clock
    ensures Calm(cfg, w, w.dev.booted)
  {
    hide Agrees, Increasing, Allowed, InstallsOnce, Healthy, FindSlot;
  }

  lemma {:induction false} StretchIsCalm(cfg: Config, ws: seq<World>, ls: seq<Label>, k: nat)
    requires IsStretch(cfg, ws, ls) && k < |ws|
    ensures Inv(cfg, ws[k]) && Calm(cfg, ws[k], ws[0].dev.booted)
  {
    hide Inv, Calm, Apply, Enabled, Undisturbed;
    if k == 0 {
      StretchBegins(cfg, ws[0]);
    } else {
      StretchIsCalm(cfg, ws, ls, k - 1);
      assert Next(cfg, ws[k - 1], ls[k - 1], ws[k]) && Undisturbed(ws[k - 1], ls[k - 1]);
      Keep(cfg, ws[k - 1], ls[k - 1]);
      CalmStep(cfg, ws[k - 1], ls[k - 1], ws[k], ws[0].dev.booted);
    }
  }

  lemma {:induction false} LeftForGood(cfg: Config, ws: seq<World>, ls: seq<Label>, i: nat, k: nat)
    requires IsStretch(cfg, ws, ls) && i <= k < |ws| && ws[i].dev.booted != ws[0].dev.booted
    ensures ws[k].dev.booted == ws[i].dev.booted
    decreases k - i
  {
    hide Inv, Calm, Apply, Enabled, Undisturbed;
    if i < k {
      LeftForGood(cfg, ws, ls, i, k - 1);
      StretchIsCalm(cfg, ws, ls, k - 1);
      assert Next(cfg, ws[k - 1], ls[k - 1], ws[k]) && Undisturbed(ws[k - 1], ls[k - 1]);
      CalmStep(cfg, ws[k - 1], ls[k - 1], ws[k], ws[0].dev.booted);
    }
  }

  /** Normal-boot fallback switches slots at most once, whatever crashes fall between its marks and its reboot. */
  lemma SwitchesAtMostOnce(cfg: Config, ws: seq<World>, ls: seq<Label>, i: nat, k: nat)
    requires IsStretch(cfg, ws, ls) && i < |ls| && k < |ls|
    requires ws[i].dev.booted != ws[i + 1].dev.booted && ws[k].dev.booted != ws[k + 1].dev.booted
    ensures i == k
  {
    hide Inv, Next;
    var a, b := if i <= k then i else k, if i <= k then k else i;
    assert ws[a].dev.booted != ws[a + 1].dev.booted;
    if a != b {
      if ws[a + 1].dev.booted != ws[0].dev.booted {
        LeftForGood(cfg, ws, ls, a + 1, b);
        LeftForGood(cfg, ws, ls, a + 1, b + 1);
      } else {
        LeftForGood(cfg, ws, ls, a, a + 1);
      }
    }
  }

  // ---------------------------------------------------------------- versions

  /** The latest finished job recorded the version that the slot holds. */
  ghost predicate Vouched(jobs: map<string, Job>, dev: Device, slot: string) {
    exists j :: IsLatest(jobs, Some(j)) && Known(j, slot) == Some(VersionOf(dev, slot))
  }

  /** The program in progress confirms, makes primary and reboots into vouched slots only. */
  ghost predicate Vouching(jobs: map<string, Job>, dev: Device, t: Todo) {
    match t
    case CallMark(Good, s, next) => Vouched(jobs, dev, s) && next == ConfirmBoot
    case CallMark(Bad, s, next) =>
      Vouched(jobs, dev, s) && next.CallMark? && next.kind == Active && Vouched(jobs, dev, next.slot)
        && next.next == CallReboot(None)
    case CallMark(Active, s, next) => Vouched(jobs, dev, s) && next == CallReboot(None)
    case CallReboot(_) => Vouched(jobs, dev, dev.primary)
    case _ => true
  }

  /** The journal holds the same jobs in memory and on disk, within the limit. */
  ghost predicate Steady(cfg: Config, w: World, jobs: map<string, Job>) {
    && w.mem.jobs == jobs && w.disk.jobs == jobs && |jobs| <= cfg.hotLimit
    && Vouching(jobs, w.dev, w.todo)
  }

  lemma VouchedElsewhere(jobs: map<string, Job>, d: Device, e: Device, slot: string)
    requires Vouched(jobs, d, slot) && VersionOf(e, slot) == VersionOf(d, slot)
    ensures Vouched(jobs, e, slot)
  {
  }

  lemma SteadyBegin(cfg: Config, w: World, inp: Inputs, jobs: map<string, Job>)
    requires Steady(cfg, w, jobs) && ActiveJob(w.mem).None? && IsLatest(w.mem.jobs, inp.latest)
    ensures Steady(cfg, Begin(w, Decide(cfg, w.mem, StatusOf(w, inp.statusOk), w.healthySince, inp), inp), jobs)
  {
    hide FindSlot, IsLatest, Known, Other;
    var t := Decide(cfg, w.mem, StatusOf(w, inp.statusOk), w.healthySince, inp).todo;
    if t.CallMark? {
      var j := inp.latest.value;
      assert IsLatest(jobs, Some(j)) && Known(j, t.slot) == Some(VersionOf(w.dev, t.slot));
      if t.kind == Bad {
        assert IsLatest(jobs, Some(j)) && Known(j, t.next.slot) == Some(VersionOf(w.dev, t.next.slot));
      }
    }
  }

  lemma SteadyMark(cfg: Config, w: World, ok: bool, applied: bool, jobs: map<string, Job>)
    requires Steady(cfg, w, jobs) && w.todo.CallMark? && (ok ==> applied && SlotOf(w.dev, w.todo.slot).Some?)
    ensures Steady(cfg, w.(dev := if applied then Marked(w.dev, w.todo.kind, w.todo.slot) else w.dev,
                           todo := if ok then w.todo.next else Idle), jobs)
  {
    hide FindSlot, SetGood, Vouched;
    var e := Marked(w.dev, w.todo.kind, w.todo.slot);
    if ok && w.todo.kind == Bad {
      MarkedSlots(w.dev, w.todo.kind, w.todo.slot, w.todo.next.slot);
      VouchedElsewhere(jobs, w.dev, e, w.todo.next.slot);
    } else if ok && w.todo.kind == Active {
      MarkedSlots(w.dev, w.todo.kind, w.todo.slot, w.todo.slot);
      VouchedElsewhere(jobs, w.dev, e, w.todo.slot);
    }
  }

  lemma SteadyWrite(cfg: Config, w: World, spilled: set<string>, outcome: Outcome, jobs: map<string, Job>)
    requires Steady(cfg, w, jobs) && Enabled(cfg, w, Write(spilled, outcome))
    requires w.todo.StartBootCheck? || w.todo.ConfirmBoot?
    ensures Steady(cfg, DoWrite(cfg, w, spilled, outcome), jobs)
  {
    hide Journal.Valid, FindSlot, Spills, Vouched;
    EngineRuns.SpilledIsCompact(cfg.hotLimit, Change(w.todo, w.mem, w.clock).value, spilled);
  }

  lemma SteadyAck(cfg: Config, w: World, sequence: nat, spilled: set<string>, outcome: Outcome, jobs: map<string, Job>)
    requires Steady(cfg, w, jobs) && Enabled(cfg, w, Ack(sequence, spilled, outcome))
    ensures Steady(cfg, Apply(cfg, w, Ack(sequence, spilled, outcome)), jobs)
  {
    hide Journal.Valid, FindSlot, Spills, Vouched, DropAcked;
    if Acked(w.mem, sequence).Some? {
      EngineRuns.SpilledIsCompact(cfg.hotLimit, Acked(w.mem, sequence).value, spilled);
    }
  }

  /** What is written between calls without an active job is a boot check. */
  lemma WritesBootCheck(cfg: Config, w: World)
    requires Inv(cfg, w) && ActiveJob(w.mem).None? && !w.todo.AcceptJob? && IsWrite(w.todo)
    ensures w.todo.StartBootCheck? || w.todo.ConfirmBoot?
  {
    hide Books, Increasing, InstallsOnce, Healthy, FindSlot, Fits, Program, Synced, Licensed;
  }

  lemma SteadyRest(cfg: Config, w: World, l: Label, jobs: map<string, Job>)
    requires Steady(cfg, w, jobs) && Enabled(cfg, w, l) && ActiveJob(w.mem).None?
    requires l.BeginReboot? || l.BeginAbort? || l.SetClock? || l.SetOperation? || l.Crash? || l.Reboot?
             || l.DeviceBoots?
    requires w.todo.CallReboot? ==> w.todo.asked.None?
    ensures Steady(cfg, Apply(cfg, w, l), jobs)
  {
    hide FindSlot, Vouched;
    if l.SetOperation? {
      SameVersions(w.dev, l.operation, jobs);
    }
  }

  lemma SameVersions(d: Device, op: Operation, jobs: map<string, Job>)
    ensures forall slot :: Vouched(jobs, d, slot) ==> Vouched(jobs, d.(operation := op), slot)
  {
    hide FindSlot;
  }

  lemma SteadyStep(cfg: Config, w: World, l: Label, w': World, first: string, jobs: map<string, Job>)
    requires Inv(cfg, w) && Calm(cfg, w, first) && Steady(cfg, w, jobs) && Next(cfg, w, l, w') && Undisturbed(w, l)
    ensures Steady(cfg, w', jobs)
  {
    hide Inv, DoWrite, Decide, IsLatest, Spills, Journal.Valid, Change, Acked, Attempt, FindSlot, BootProgram, Vouching,
         ChecksAgree, Purposeful, Staying, Leaving, Left;
    CalmTodo(cfg, w);
    if l.BeginStep? {
      SteadyBegin(cfg, w, l.inp, jobs);
    } else if l.Mark? {
      SteadyMark(cfg, w, l.ok, l.applied, jobs);
    } else if l.Write? {
      WritesBootCheck(cfg, w);
      SteadyWrite(cfg, w, l.spilled, l.outcome, jobs);
    } else if l.Ack? {
      SteadyAck(cfg, w, l.sequence, l.spilled, l.outcome, jobs);
    } else {
      SteadyRest(cfg, w, l, jobs);
    }
  }

  lemma {:induction false} StretchIsSteady(cfg: Config, ws: seq<World>, ls: seq<Label>, k: nat)
    requires IsStretch(cfg, ws, ls) && EngineRuns.Compact(cfg, ws[0]) && k < |ws|
    ensures Steady(cfg, ws[k], ws[0].disk.jobs)
  {
    hide Inv, Calm, Apply, Enabled, Undisturbed;
    if k == 0 {
      InSync(cfg, ws[0]);
    } else {
      StretchIsSteady(cfg, ws, ls, k - 1);
      StretchIsCalm(cfg, ws, ls, k - 1);
      assert Next(cfg, ws[k - 1], ls[k - 1], ws[k]) && Undisturbed(ws[k - 1], ls[k - 1]);
      SteadyStep(cfg, ws[k - 1], ls[k - 1], ws[k], ws[0].dev.booted, ws[0].disk.jobs);
    }
  }

  lemma VouchedInStretch(cfg: Config, ws: seq<World>, ls: seq<Label>, i: nat)
    requires IsStretch(cfg, ws, ls) && EngineRuns.Compact(cfg, ws[0]) && i < |ls|
    ensures ls[i].Mark? ==>
              && ws[i].todo.CallMark? && Vouched(ws[0].disk.jobs, ws[i].dev, ws[i].todo.slot)
              && (ws[i].todo.kind == Good ==> ws[i].todo.slot == ws[i].dev.booted)
    ensures ls[i].Reboot? ==> Vouched(ws[0].disk.jobs, ws[i].dev, ws[i].dev.primary)
  {
    hide Inv, Apply, Vouched, FindSlot, IsLatest;
    StretchIsSteady(cfg, ws, ls, i);
    StretchIsCalm(cfg, ws, ls, i);
    assert Next(cfg, ws[i], ls[i], ws[i + 1]);
  }

  /**
   In any stretch without jobs of any run, whatever crashes and failed writes fall into it, every slot that is marked
   good or made primary, and every slot that the engine reboots into, holds the version that the latest finished job
   recorded for it.
   */
  lemma OnlyVouchedVersions(cfg: Config, rs: seq<World>, ks: seq<Label>, n: nat, ws: seq<World>, ls: seq<Label>, i: nat)
    requires IsRun(cfg, rs, ks) && n < |rs| && IsStretch(cfg, ws, ls) && ws[0] == rs[n] && i < |ls|
    ensures ls[i].Mark? ==>
              && ws[i].todo.CallMark? && Vouched(ws[0].disk.jobs, ws[i].dev, ws[i].todo.slot)
              && (ws[i].todo.kind == Good ==> ws[i].todo.slot == ws[i].dev.booted)
    ensures ls[i].Reboot? ==> Vouched(ws[0].disk.jobs, ws[i].dev, ws[i].dev.primary)
  {
    hide Inv, Next, Vouched, Undisturbed;
    EngineRuns.CompactThroughout(cfg, rs, ks, n);
    VouchedInStretch(cfg, ws, ls, i);
  }
}
