/**
 Some slot is always good (internal/ota/engine.go, internal/ota/boot.go): exactly as long as no job is carried to
 Installing while the booted slot is marked bad. A normal-boot fallback that is interrupted after its first mark leaves
 the device in such a state.
 */
module GoodSlot {
  import opened Model
  import opened Journal
  import opened Engine
  import opened EngineInvariant
  import EngineWrites
  import opened EngineTheorems
  import EngineRuns
  import HappyPath

  ghost predicate SomeGood(d: Device) {
    exists name :: GoodOf(d, name)
  }

  /** The old slot of a job in flight is good. */
  predicate Anchored(d: Device, active: Option<Job>) {
    active.Some? && InFlight(active.value.state) ==> GoodOf(d, active.value.oldSlot)
  }

  /** A fallback that is about to mark the booted slot bad has a good slot to go to. */
  predicate FallsToGood(w: World) {
    ActiveJob(w.mem).None? && w.todo.CallMark? && w.todo.kind == Bad ==>
      w.todo.next.CallMark? && w.todo.next.slot != w.todo.slot && GoodOf(w.dev, w.todo.next.slot)
  }

  ghost predicate Bootable(w: World) {
    SomeGood(w.dev) && Anchored(w.dev, ActiveJob(w.mem)) && Anchored(w.dev, ActiveJob(w.disk)) && FallsToGood(w)
  }

  /** A job is carried to Installing only from a good slot. */
  predicate Cautious(w: World, l: Label) {
    l.Write? && w.todo.SaveJob? && w.todo.job.state == Installing ==> GoodOf(w.dev, w.dev.booted)
  }

  lemma GoodWitness(d: Device, name: string)
    requires GoodOf(d, name)
    ensures SomeGood(d)
  {
  }

  lemma SameFlags(w: World, w': World)
    requires Bootable(w) && w'.dev.slots == w.dev.slots
    ensures SomeGood(w'.dev)
    ensures forall active :: Anchored(w.dev, active) ==> Anchored(w'.dev, active)
  {
    hide FindSlot;
    var name :| GoodOf(w.dev, name);
    assert GoodOf(w'.dev, name);
  }

  // ---------------------------------------------------------------- steps that change flags

  lemma BootableMark(cfg: Config, w: World, ok: bool, applied: bool)
    requires Inv(cfg, w) && Bootable(w) && w.todo.CallMark? && (ok ==> applied && SlotOf(w.dev, w.todo.slot).Some?)
    ensures Bootable(w.(dev := if applied then Marked(w.dev, w.todo.kind, w.todo.slot) else w.dev,
                        todo := if ok then w.todo.next else Idle))
  {
    hide Inv, FindSlot, SetGood;
    MarkPrograms(cfg, w);
    var name :| GoodOf(w.dev, name);
    var spared := if w.todo.kind != Bad then name
                  else if ActiveJob(w.mem).Some? then ActiveJob(w.mem).value.oldSlot else w.todo.next.slot;
    GoodAfterMark(w.dev, w.todo, spared);
    var e := if applied then Marked(w.dev, w.todo.kind, w.todo.slot) else w.dev;
    assert GoodOf(e, spared);
    if ActiveJob(w.mem).Some? {
      GoodAfterMark(w.dev, w.todo, ActiveJob(w.mem).value.oldSlot);
    }
    if ActiveJob(w.disk).Some? {
      GoodAfterMark(w.dev, w.todo, ActiveJob(w.disk).value.oldSlot);
    }
  }

  lemma GoodAfterMark(d: Device, t: Todo, name: string)
    requires t.CallMark?
    ensures GoodOf(d, name) && !(t.kind == Bad && t.slot == name) ==> GoodOf(Marked(d, t.kind, t.slot), name)
  {
    MarkedSlots(d, t.kind, t.slot, name);
    SetGoodSlots(d.slots, t.slot, true, name);
  }

  /** A pending bad mark is the target's of a job in flight, or a fallback's. */
  lemma MarkPrograms(cfg: Config, w: World)
    requires Inv(cfg, w) && w.todo.CallMark?
    ensures w.todo.kind == Bad && ActiveJob(w.mem).Some? ==>
              var j := ActiveJob(w.mem).value;
              InFlight(j.state) && w.todo.slot == j.targetSlot != j.oldSlot
    ensures w.todo.kind == Bad ==> w.todo.next.CallMark? && w.todo.next.kind == Active
    ensures w.todo.kind != Bad ==> !w.todo.next.CallMark?
    ensures ActiveJob(w.mem).None? && ActiveJob(w.disk).Some? ==> !InFlight(ActiveJob(w.disk).value.state)
    ensures ActiveJob(w.mem).Some? && ActiveJob(w.disk).Some? && InFlight(ActiveJob(w.mem).value.state) ==>
              ActiveJob(w.disk).value.oldSlot == ActiveJob(w.mem).value.oldSlot
  {
    hide Books, Increasing, InstallsOnce, Healthy, Licensed, FindSlot, Evidence;
  }

  /** Writing an image, by a call or after it, spares the old slot of the job in flight. */
  lemma BootableWriting(cfg: Config, w: World, l: Label, w': World)
    requires Inv(cfg, w) && Bootable(w) && Next(cfg, w, l, w') && (l.Install? || l.BackendWrites?)
    ensures Bootable(w')
  {
    hide Inv, FindSlot, Enabled;
    WritingJob(cfg, w, l);
    var j := ActiveJob(w.disk).value;
    StepSparesOld(cfg, w, l, w', j);
    SpareIsGood(w.dev, w'.dev, j.oldSlot);
    GoodWitness(w'.dev, j.oldSlot);
    WritingKeeps(cfg, w, l, w');
  }

  lemma SpareIsGood(d: Device, e: Device, name: string)
    requires SlotOf(e, name) == SlotOf(d, name)
    ensures GoodOf(e, name) == GoodOf(d, name)
  {
    hide FindSlot;
  }

  lemma WritingKeeps(cfg: Config, w: World, l: Label, w': World)
    requires Next(cfg, w, l, w') && (l.Install? || l.BackendWrites?)
    ensures w'.mem == w.mem && w'.disk == w.disk && (w'.todo == w.todo || !w'.todo.CallMark?)
  {
    hide FindSlot, InstallMayYield;
  }

  lemma WritingJob(cfg: Config, w: World, l: Label)
    requires Inv(cfg, w) && Enabled(cfg, w, l) && (l.Install? || l.BackendWrites?)
    ensures ActiveJob(w.disk).Some? && InFlight(ActiveJob(w.disk).value.state) && ActiveJob(w.mem).Some?
    ensures InFlight(ActiveJob(w.mem).value.state) && ActiveJob(w.mem).value.oldSlot == ActiveJob(w.disk).value.oldSlot
  {
    hide Books, Increasing, InstallsOnce, Healthy, Licensed, FindSlot, Agrees, Program, InstallMayYield;
  }

  // ---------------------------------------------------------------- steps that change the journal

  lemma BootableSave(cfg: Config, w: World, spilled: set<string>, outcome: Outcome)
    requires Inv(cfg, w) && Bootable(w) && Enabled(cfg, w, Write(spilled, outcome))
    requires Cautious(w, Write(spilled, outcome))
    ensures Bootable(DoWrite(cfg, w, spilled, outcome))
  {
    hide Inv, Journal.Valid, Spills, FindSlot, Change, Committed', AfterWrite, SomeGood;
    var c := Change(w.todo, w.mem, w.clock);
    NoMarkAfter(w.todo, w.clock);
    if c.Some? {
      EngineRuns.ChangeKeepsJobs(cfg, w.todo, w.mem, w.clock, spilled);
    }
    if Attempt(cfg, w, c, spilled).Some? {
      NextAnchored(cfg, w, spilled);
      CommitAnchored(w, c.value, spilled, outcome);
    }
  }

  lemma NoMarkAfter(t: Todo, now: int)
    ensures !AfterWrite(t, now).CallMark?
  {
  }

  lemma CommitAnchored(w: World, c: Database, spilled: set<string>, outcome: Outcome)
    requires spilled <= c.jobs.Keys && Anchored(w.dev, ActiveJob(Without(c, spilled)))
    requires Anchored(w.dev, ActiveJob(w.mem)) && Anchored(w.dev, ActiveJob(w.disk))
    ensures var v := Committed'(w, c, spilled, outcome);
            v.dev == w.dev && Anchored(w.dev, ActiveJob(v.mem)) && Anchored(w.dev, ActiveJob(v.disk))
  {
    hide FindSlot, ActiveJob, Without, Archived;
  }

  /** The journal that a write tries to make has its job in flight anchored. */
  lemma NextAnchored(cfg: Config, w: World, spilled: set<string>)
    requires Inv(cfg, w) && IsWrite(w.todo) && Anchored(w.dev, ActiveJob(w.mem)) && !w.poisoned
    requires w.todo.SaveJob? && w.todo.job.state == Installing ==> GoodOf(w.dev, w.dev.booted)
    requires EngineWrites.WriteGoesThrough(cfg, w.todo, w.mem, w.clock, spilled)
    ensures Anchored(w.dev, ActiveJob(Without(Change(w.todo, w.mem, w.clock).value, spilled)))
  {
    hide Agrees, Books, Increasing, InstallsOnce, Healthy, Synced, FindSlot, Program, WriterOwned, Journal.Valid,
         Spills, AddEvent;
    var c := Change(w.todo, w.mem, w.clock).value;
    if w.todo.SaveJob? {
      EngineWrites.LicensedSave(cfg, w.todo, SceneOf(w));
      EngineWrites.SavedDatabase(cfg, w.mem, ActiveJob(w.mem).value, w.todo, w.clock, spilled);
      SavedAnchored(cfg, w, ActiveJob(w.mem).value, w.todo.job);
    } else if w.todo.AcceptJob? {
      EngineWrites.AcceptAllowed(cfg, SceneOf(w), w.todo.job);
      EngineWrites.AcceptedDatabase(cfg, w.mem, w.todo.job, w.clock, spilled);
    } else {
      EngineWrites.OtherDatabase(cfg, w.mem, c, spilled);
    }
  }

  lemma SavedAnchored(cfg: Config, w: World, j0: Job, j: Job)
    requires Licensed(cfg, SceneOf(w), j0, j) && Anchored(w.dev, Some(j0))
    requires j.state == Installing ==> GoodOf(w.dev, w.dev.booted)
    ensures Anchored(w.dev, Some(j))
  {
    hide FindSlot, Evidence;
  }

  lemma BootableAck(cfg: Config, w: World, sequence: nat, spilled: set<string>, outcome: Outcome)
    requires Inv(cfg, w) && Bootable(w) && Enabled(cfg, w, Ack(sequence, spilled, outcome))
    ensures Bootable(Apply(cfg, w, Ack(sequence, spilled, outcome)))
  {
    hide Inv, Journal.Valid, Spills, FindSlot, Acked, Committed', SomeGood, ActiveJob;
    var c := Acked(w.mem, sequence);
    if Attempt(cfg, w, c, spilled).Some? {
      EngineRuns.AckKeepsJobs(cfg, w.mem, sequence, spilled);
      AckedActive(cfg, w, sequence, spilled);
      CommitAnchored(w, c.value, spilled, outcome);
      CommitMemory(w, c.value, spilled, outcome);
    }
  }

  lemma AckedActive(cfg: Config, w: World, sequence: nat, spilled: set<string>)
    requires Acked(w.mem, sequence).Some? && Spills(cfg.hotLimit, Acked(w.mem, sequence).value, spilled)
    ensures ActiveJob(Without(Acked(w.mem, sequence).value, spilled)) == ActiveJob(w.mem)
  {
  }

  lemma CommitMemory(w: World, c: Database, spilled: set<string>, outcome: Outcome)
    requires spilled <= c.jobs.Keys && ActiveJob(Without(c, spilled)) == ActiveJob(w.mem)
    ensures var v := Committed'(w, c, spilled, outcome);
            v.todo == w.todo && v.dev == w.dev && ActiveJob(v.mem) == ActiveJob(w.mem)
  {
    hide ActiveJob, Without, Archived;
  }

  // ---------------------------------------------------------------- every other step

  /** A decision to fall back names a good slot to fall back to. */
  lemma BootableBegin(cfg: Config, w: World, inp: Inputs)
    requires Bootable(w) && w.todo.Idle?
    ensures Bootable(Begin(w, Decide(cfg, w.mem, StatusOf(w, inp.statusOk), w.healthySince, inp), inp))
  {
    hide FindSlot, StepBeforeInstall, StepInstalled, SomeGood;
  }

  lemma BootableRest(cfg: Config, w: World, l: Label)
    requires Bootable(w) && Enabled(cfg, w, l)
    requires !l.BeginStep? && !l.Mark? && !l.Install? && !l.BackendWrites? && !l.Write? && !l.Ack?
    ensures Bootable(Apply(cfg, w, l))
  {
    hide FindSlot, SomeGood, AfterInspect, DecideSubmit, IsIdentifier;
    AfterInspectSaves();
    AbortMarks(w.mem);
    var v := Apply(cfg, w, l);
    SameFlags(w, v);
  }

  lemma AfterInspectSaves()
    ensures forall j, s :: AfterInspect(j, s).SaveJob?
  {
    hide FindSlot;
  }

  lemma AbortMarks(d: Database)
    ensures forall t :: DecideAbort(d, t).CallMark? ==> ActiveJob(d).Some?
  {
  }

  lemma BootableStep(cfg: Config, w: World, l: Label, w': World)
    requires Inv(cfg, w) && Bootable(w) && Next(cfg, w, l, w') && Cautious(w, l)
    ensures Bootable(w')
  {
    hide Inv, Bootable, DoWrite, Decide, Begin, IsLatest, Spills, Change, Acked, Attempt, FindSlot;
    if l.BeginStep? {
      BootableBegin(cfg, w, l.inp);
    } else if l.Mark? {
      BootableMark(cfg, w, l.ok, l.applied);
    } else if l.Install? || l.BackendWrites? {
      BootableWriting(cfg, w, l, w');
    } else if l.Write? {
      BootableSave(cfg, w, l.spilled, l.outcome);
    } else if l.Ack? {
      BootableAck(cfg, w, l.sequence, l.spilled, l.outcome);
    } else {
      BootableRest(cfg, w, l);
    }
  }

  // ---------------------------------------------------------------- whole runs

  lemma {:induction false} BootableThroughout(cfg: Config, ws: seq<World>, ls: seq<Label>, k: nat)
    requires IsRun(cfg, ws, ls) && SomeGood(ws[0].dev) && k < |ws| && forall i | 0 <= i < |ls| :: Cautious(ws[i], ls[i])
    ensures Bootable(ws[k])
  {
    hide Inv, Bootable, Cautious, Apply, Enabled, SomeGood;
    if k == 0 {
      BootableAtFirst(ws[0]);
    } else {
      BootableThroughout(cfg, ws, ls, k - 1);
      Reachable(cfg, ws, ls, k - 1);
      assert Next(cfg, ws[k - 1], ls[k - 1], ws[k]);
      BootableStep(cfg, ws[k - 1], ls[k - 1], ws[k]);
    }
  }

  lemma BootableAtFirst(w: World)
    requires Init(w) && SomeGood(w.dev)
    ensures Bootable(w)
  {
    hide SomeGood;
  }

  /**
   In every run, with crashes and boots into either slot anywhere, some slot is good throughout if every job is carried
   to Installing from a good slot.
   */
  lemma SomeSlotStaysGood(cfg: Config, ws: seq<World>, ls: seq<Label>, k: nat)
    requires IsRun(cfg, ws, ls) && SomeGood(ws[0].dev) && k < |ws| && forall i | 0 <= i < |ls| :: Cautious(ws[i], ls[i])
    ensures SomeGood(ws[k].dev)
  {
    hide Next, Init;
    BootableThroughout(cfg, ws, ls, k);
  }

  // ---------------------------------------------------------------- and only then

  /** An installation that got as far as spoiling every slot but the booted one. */
  function Spoilt(d: Device): Device {
    d.(slots := seq(|d.slots|, i requires 0 <= i < |d.slots| =>
                      if d.slots[i].name == d.booted then d.slots[i] else d.slots[i].(good := false)))
  }

  lemma {:induction false} NoneFound(slots: seq<Slot>, name: string)
    requires forall i | 0 <= i < |slots| && slots[i].name == name :: !slots[i].good
    ensures FindSlot(slots, name).Some? ==> !FindSlot(slots, name).value.good
  {
    if slots != [] && slots[0].name != name {
      NoneFound(slots[1..], name);
    }
  }

  lemma SpoiltIsBad(d: Device)
    requires !GoodOf(d, d.booted)
    ensures InstallMayYield(d, Spoilt(d)) && !SomeGood(Spoilt(d))
  {
    var e := Spoilt(d);
    forall name ensures !GoodOf(e, name) {
      if name == d.booted {
        InstallKeepsNames(d.slots, e.slots, d.booted, name);
      } else {
        NoneFound(e.slots, name);
      }
    }
  }

  /** If a job is carried to Installing from a slot that is not good, its installation can leave no slot good. */
  lemma IncautiousLosesAll(cfg: Config, w: World, spilled: set<string>) returns (v: World, u: World)
    requires Inv(cfg, w) && !w.poisoned && w.todo.SaveJob? && w.todo.job.state == Installing
    requires !GoodOf(w.dev, w.dev.booted)
    requires var c := Change(w.todo, w.mem, w.clock); c.Some? && Spills(cfg.hotLimit, c.value, spilled)
    ensures Next(cfg, w, Write(spilled, Durable), v) && Next(cfg, v, Install(Spoilt(w.dev), false, false), u)
    ensures !SomeGood(u.dev)
  {
    hide Inv, Journal.Valid, Spills, FindSlot, Change, SomeGood, InstallMayYield, Without, Archived;
    EngineRuns.ChangeKeepsJobs(cfg, w.todo, w.mem, w.clock, spilled);
    EngineRuns.WritesAreValid(cfg, w, spilled, Durable);
    SaveThenInstall(cfg, w);
    v := Apply(cfg, w, Write(spilled, Durable));
    SpoiltIsBad(w.dev);
    u := Apply(cfg, v, Install(Spoilt(w.dev), false, false));
  }

  lemma SaveThenInstall(cfg: Config, w: World)
    requires Inv(cfg, w) && w.todo.SaveJob? && w.todo.job.state == Installing
    ensures w.todo.andThen == ThenInstall
  {
    hide Books, Increasing, InstallsOnce, Healthy, Licensed, FindSlot, Agrees, Synced, WriterOwned;
  }

  /** A run that ends with no good slot: an update taken by a device whose booted slot was never confirmed. */
  lemma AllSlotsLost(cfg: Config, w: World, a: Assignment) returns (ws: seq<World>, ls: seq<Label>)
    requires Init(w) && HappyPath.Suits(cfg, w, a) && !GoodOf(w.dev, w.dev.booted)
    ensures IsRun(cfg, ws, ls) && ws[0] == w && !SomeGood(ws[|ls|].dev)
  {
    hide Next, Init, SomeGood, HappyPath.Leads, EngineInvariant.Inv, Decide, Change, Spills, FindSlot, Other,
         Release.HasOS;
    var w1, j1 := HappyPath.Accepts(cfg, w, a);
    var w2, j2 := HappyPath.Fetches(cfg, w1, a, j1, 1);
    HappyPath.Joined(cfg, w, w1, w2);
    var i := HappyPath.PlansInstall(cfg, w2, a, j2, 3);
    var w3 := HappyPath.Decides(cfg, w2, j2, 3, w2.clock);
    HappyPath.Then(cfg, w, w2, BeginStep(HappyPath.Fine(w2.clock)), w3);
    InstallChange(cfg, w3, j2, i);
    var v, u := IncautiousLosesAll(cfg, w3, {});
    HappyPath.Then(cfg, w, w3, Write({}, Durable), v);
    HappyPath.Then(cfg, w, v, Install(Spoilt(w3.dev), false, false), u);
    ws, ls := HappyPath.PathOf(cfg, w, u);
  }

  lemma InstallChange(cfg: Config, w: World, j: Job, i: Job)
    requires cfg.hotLimit >= 1 && HappyPath.Alone(w.mem, j) && i.assignment == j.assignment && |w.mem.events| == 3
    requires w.todo == SaveJob(i, ThenInstall)
    ensures var c := Change(w.todo, w.mem, w.clock); c.Some? && Spills(cfg.hotLimit, c.value, {})
  {
    var c := Change(w.todo, w.mem, w.clock).value;
    assert c.jobs == map[i.assignment.jobID := i.(updated := w.clock)] && |c.jobs| == 1;
    HappyPath.NothingToSpill(cfg.hotLimit, c);
  }

  /** A fallback interrupted after its first mark leaves the booted slot bad and the agent ready for the next job. */
  lemma InterruptedFallback(cfg: Config, w: World) returns (v: World, u: World)
    requires Inv(cfg, w) && !w.poisoned && ActiveJob(w.mem).None? && w.todo.CallMark? && w.todo.kind == Bad
    requires w.todo.slot == w.dev.booted && SlotOf(w.dev, w.dev.booted).Some?
    ensures Next(cfg, w, Mark(true, true), v) && Next(cfg, v, Crash, u)
    ensures u.todo.Idle? && u.mem == w.mem && !GoodOf(u.dev, u.dev.booted)
  {
    hide Inv, FindSlot, SetGood;
    InSync(cfg, w);
    MarkedSlots(w.dev, Bad, w.todo.slot, w.todo.slot);
    v := Apply(cfg, w, Mark(true, true));
    u := Apply(cfg, v, Crash);
  }
}
