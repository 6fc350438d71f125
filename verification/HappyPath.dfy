/**
 Updates do happen (internal/ota/engine.go): from every freshly provisioned device, every admissible assignment of an
 operating-system release has a run that carries it to Committed. Safety alone would also hold of an engine that never
 does anything.
 */
module HappyPath {
  import opened Model
  import opened Journal
  import opened Engine
  import opened EngineInvariant
  import EngineWrites
  import EngineRuns
  import Simulator
  import JobIdentity

  // ---------------------------------------------------------------- paths

  /** One clock: calls read the device's clock, and it does not go back. */
  predicate Timely(w: World, l: Label) {
    && (l.Submit? ==> l.now == w.clock)
    && (l.BeginStep? || l.BeginReboot? || l.BeginAbort? ==> l.inp.now == w.clock)
    && (l.SetClock? ==> l.clock >= w.clock)
  }

  ghost predicate IsPath(cfg: Config, ws: seq<World>, ls: seq<Label>) {
    |ws| == |ls| + 1 && forall i | 0 <= i < |ls| :: Next(cfg, ws[i], ls[i], ws[i + 1]) && Timely(ws[i], ls[i])
  }

  ghost predicate Leads(cfg: Config, w: World, v: World) {
    exists ws, ls :: IsPath(cfg, ws, ls) && ws[0] == w && ws[|ls|] == v
  }

  lemma Then(cfg: Config, w: World, v: World, l: Label, u: World)
    requires Leads(cfg, w, v) && Next(cfg, v, l, u) && Timely(v, l)
    ensures Leads(cfg, w, u)
  {
    hide Next, Timely;
    var ws, ls :| IsPath(cfg, ws, ls) && ws[0] == w && ws[|ls|] == v;
    assert IsPath(cfg, ws + [u], ls + [l]);
    assert (ws + [u])[0] == w && (ws + [u])[|ls + [l]|] == u;
  }

  lemma Stays(cfg: Config, w: World)
    ensures Leads(cfg, w, w)
  {
    hide Next;
    var ws: seq<World>, ls: seq<Label> := [w], [];
    assert IsPath(cfg, ws, ls) && ws[0] == w && ws[|ls|] == w;
  }

  lemma {:induction false} Joined(cfg: Config, w: World, v: World, u: World)
    requires Leads(cfg, w, v) && Leads(cfg, v, u)
    ensures Leads(cfg, w, u)
  {
    hide Next, Timely;
    var ws, ls :| IsPath(cfg, ws, ls) && ws[0] == w && ws[|ls|] == v;
    var vs, ks :| IsPath(cfg, vs, ks) && vs[0] == v && vs[|ks|] == u;
    var us, ms := ws + vs[1..], ls + ks;
    forall i | 0 <= i < |ms| ensures Next(cfg, us[i], ms[i], us[i + 1]) && Timely(us[i], ms[i]) {
      if i >= |ls| {
        var k := i - |ls|;
        assert Next(cfg, vs[k], ks[k], vs[k + 1]) && Timely(vs[k], ks[k]);
      } else {
        assert Next(cfg, ws[i], ls[i], ws[i + 1]) && Timely(ws[i], ls[i]);
      }
    }
    assert IsPath(cfg, us, ms) && us[0] == w && us[|ms|] == u;
  }

  lemma PathOf(cfg: Config, w: World, v: World) returns (ws: seq<World>, ls: seq<Label>)
    requires Leads(cfg, w, v)
    ensures IsPath(cfg, ws, ls) && ws[0] == w && ws[|ls|] == v
  {
    hide Next, Timely;
    ws, ls :| IsPath(cfg, ws, ls) && ws[0] == w && ws[|ls|] == v;
  }

  // ---------------------------------------------------------------- one job, alone

  /** Between calls, with `j` the only job, active, and nothing wrong. */
  ghost predicate Ready(cfg: Config, w: World, j: Job, events: nat) {
    && EngineInvariant.Inv(cfg, w) && !w.poisoned && w.todo.Idle?
    && Alone(w.mem, j) && !Terminal(j.state) && |w.mem.events| == events
  }

  predicate Alone(d: Database, j: Job) {
    d.active == j.assignment.jobID && d.jobs == map[j.assignment.jobID := j]
  }

  /** Everything the call learns from outside is good. */
  function Fine(now: int): Inputs {
    Inputs(now, now, true, true, true, Complete, true, true, true, true, None)
  }

  lemma AloneFacts(d: Database, j: Job)
    requires Alone(d, j)
    ensures ActiveJob(d) == Some(j) && |d.jobs| == 1 && (!Terminal(j.state) ==> IsLatest(d.jobs, None))
  {
  }

  lemma NothingToSpill(limit: nat, d: Database)
    requires |d.jobs| <= limit
    ensures Spills(limit, d, {}) && Without(d, {}) == d
  {
    assert d.jobs - {} == d.jobs;
  }

  /** A pending save of the only job goes through. */
  lemma Writes(cfg: Config, w: World, j: Job, k: Job, events: nat) returns (v: World)
    requires cfg.hotLimit >= 1 && EngineInvariant.Inv(cfg, w) && !w.poisoned && Alone(w.mem, j)
    requires w.todo.SaveJob? && w.todo.job == k && k.assignment == j.assignment
    requires |w.mem.events| == events < OUTBOX_LIMIT
    ensures Next(cfg, w, Write({}, Durable), v) && EngineInvariant.Inv(cfg, v)
    ensures v == w.(mem := v.mem, disk := v.disk, archive := v.archive, todo := AfterWrite(w.todo, w.clock))
    ensures v.mem.jobs == map[k.assignment.jobID := k.(updated := w.clock)] && |v.mem.events| == events + 1
    ensures v.mem.active == if Terminal(k.state) then "" else k.assignment.jobID
  {
    hide EngineInvariant.Inv, Journal.Valid, Spills, AfterWrite;
    var c := Change(w.todo, w.mem, w.clock).value;
    AloneFacts(w.mem, j);
    assert c.jobs == map[k.assignment.jobID := k.(updated := w.clock)] && |c.jobs| == 1;
    NothingToSpill(cfg.hotLimit, c);
    var l := Write({}, Durable);
    EngineRuns.WritesAreValid(cfg, w, {}, Durable);
    v := Apply(cfg, w, l);
    EngineWrites.Keep(cfg, w, l);
  }

  /** A call of Step: its decision. */
  lemma Decides(cfg: Config, w: World, j: Job, events: nat, now: int) returns (v: World)
    requires Ready(cfg, w, j, events)
    ensures Next(cfg, w, BeginStep(Fine(now)), v) && EngineInvariant.Inv(cfg, v)
    ensures var p := Decide(cfg, w.mem, Some(w.dev), w.healthySince, Fine(now));
            v == w.(todo := p.todo, healthySince := p.healthySince, probes := v.probes, healthyFrom := v.healthyFrom)
    ensures ActiveJob(w.mem) == Some(j)
  {
    hide EngineInvariant.Inv, Decide, IsLatest;
    AloneFacts(w.mem, j);
    var l := BeginStep(Fine(now));
    v := Apply(cfg, w, l);
    EngineWrites.Keep(cfg, w, l);
  }

  /** A call of Step that saves the job as `k` and does no more. */
  lemma Saves(cfg: Config, w: World, j: Job, k: Job, events: nat, now: int) returns (v: World)
    requires cfg.hotLimit >= 1 && Ready(cfg, w, j, events) && events < OUTBOX_LIMIT && now == w.clock
    requires Decide(cfg, w.mem, Some(w.dev), w.healthySince, Fine(now)).todo == SaveJob(k, Stop)
    requires k.assignment == j.assignment && !Terminal(k.state)
    ensures Leads(cfg, w, v) && Ready(cfg, v, k.(updated := w.clock), events + 1)
    ensures v.dev == w.dev && v.clock == w.clock
    ensures v.healthySince == Decide(cfg, w.mem, Some(w.dev), w.healthySince, Fine(now)).healthySince
  {
    hide EngineInvariant.Inv, Decide, Next, Leads;
    var u := Decides(cfg, w, j, events, now);
    v := Writes(cfg, u, j, k, events);
    Stays(cfg, w);
    Then(cfg, w, w, BeginStep(Fine(now)), u);
    Then(cfg, w, u, Write({}, Durable), v);
  }

  // ---------------------------------------------------------------- the stages of an update

  /** The job is the one that `a` made, and the time lies in its window. */
  predicate Of(cfg: Config, j: Job, a: Assignment, now: int) {
    && j.assignment == a && j.release == cfg.decode(a.release.payload) && !j.rebootRequested
    && a.notBefore <= now < a.deadline <= j.release.expires
  }

  /** A device that can take the release: two slots, neither of them with its version. */
  predicate Takes(cfg: Config, d: Device, r: Release) {
    && d.operation.Quiet? && d.compatible == cfg.compatible && Other(d).Some?
    && forall i | 0 <= i < |d.slots| :: d.slots[i].version != r.version
  }

  /** What the assignment, the device and the clock must satisfy; nothing about the engine. */
  predicate Suits(cfg: Config, w: World, a: Assignment) {
    && cfg.Valid() && JobIdentity.Admissible(cfg, EmptyDatabase(), a, true, w.clock)
    && a.autoReboot && a.notBefore <= w.clock && cfg.decode(a.release.payload).HasOS()
    && Takes(cfg, w.dev, cfg.decode(a.release.payload))
  }

  /** The assignment is admissible and may start now. */
  predicate Starts(cfg: Config, w: World, a: Assignment) {
    cfg.Valid() && JobIdentity.Admissible(cfg, EmptyDatabase(), a, true, w.clock) && a.notBefore <= w.clock
  }

  lemma Accepts(cfg: Config, w: World, a: Assignment) returns (v: World, j: Job)
    requires Init(w) && Starts(cfg, w, a)
    ensures Leads(cfg, w, v) && Ready(cfg, v, j, 1) && j.state == Accepted && Of(cfg, j, a, v.clock)
    ensures v.dev == w.dev
  {
    hide EngineInvariant.Inv, Next, Leads, IsIdentifier, Journal.Valid, Spills, Release.HasOS, Other;
    InitInv(cfg, w);
    var l := Submit(a, true, w.clock);
    var u := Submits(cfg, w, a);
    j := u.todo.job;
    var c := Change(u.todo, u.mem, u.clock).value;
    assert c.jobs == map[a.jobID := j];
    NothingToSpill(cfg.hotLimit, c);
    var m := Write({}, Durable);
    EngineRuns.WritesAreValid(cfg, u, {}, Durable);
    v := Apply(cfg, u, m);
    EngineWrites.Keep(cfg, u, m);
    Stays(cfg, w);
    Then(cfg, w, w, l, u);
    IsNext(cfg, u, m);
    Then(cfg, w, u, m, v);
  }

  lemma IsNext(cfg: Config, w: World, l: Label)
    requires Enabled(cfg, w, l)
    ensures Next(cfg, w, l, Apply(cfg, w, l))
  {
  }

  lemma Submits(cfg: Config, w: World, a: Assignment) returns (v: World)
    requires Init(w) && Starts(cfg, w, a)
    ensures Next(cfg, w, Submit(a, true, w.clock), v) && EngineInvariant.Inv(cfg, v)
    ensures v == w.(todo := v.todo) && v.todo.AcceptJob? && v.todo.job.state == Accepted && v.todo.job.assignment == a
    ensures v.todo.job.release == cfg.decode(a.release.payload) && !v.todo.job.rebootRequested
  {
    hide EngineInvariant.Inv, IsIdentifier, Release.HasOS, Takes;
    InitInv(cfg, w);
    var l := Submit(a, true, w.clock);
    v := Apply(cfg, w, l);
    EngineWrites.Keep(cfg, w, l);
  }

  /** Accepted, Downloading and Verified follow each other. */
  lemma Fetches(cfg: Config, w: World, a: Assignment, j: Job, events: nat) returns (v: World, k: Job)
    requires cfg.Valid() && Ready(cfg, w, j, events) && j.state == Accepted && Of(cfg, j, a, w.clock)
    requires events + 2 < OUTBOX_LIMIT
    ensures Leads(cfg, w, v) && Ready(cfg, v, k, events + 2) && k.state == Verified && Of(cfg, k, a, v.clock)
    ensures v.dev == w.dev
  {
    hide EngineInvariant.Inv, Next, Leads, Decide, Release.HasOS;
    var d := j.(state := Downloading);
    PlansDownload(cfg, w, a, j, events);
    var u := Saves(cfg, w, j, d, events, w.clock);
    var d' := d.(updated := w.clock);
    k := d'.(deferred := false, state := Verified);
    PlansDownload(cfg, u, a, d', events + 1);
    v := Saves(cfg, u, d', k, events + 1, u.clock);
    k := k.(updated := u.clock);
    Joined(cfg, w, u, v);
  }

  lemma PlansDownload(cfg: Config, w: World, a: Assignment, j: Job, events: nat)
    requires Ready(cfg, w, j, events) && Of(cfg, j, a, w.clock) && (j.state == Accepted || j.state == Downloading)
    ensures Decide(cfg, w.mem, Some(w.dev), w.healthySince, Fine(w.clock)).todo
            == SaveJob(if j.state == Accepted then j.(state := Downloading)
                       else j.(deferred := false, state := Verified), Stop)
  {
    hide EngineInvariant.Inv, StepVerified, Release.HasOS;
    AloneFacts(w.mem, j);
  }

  /** The device after an installation that works. */
  function Installed(d: Device, target: string, version: string): Device {
    d.(primary := target,
       slots := seq(|d.slots|, i requires 0 <= i < |d.slots| =>
                  if d.slots[i].name == target then Slot(target, version, false) else d.slots[i]))
  }

  lemma InstalledFacts(d: Device, version: string)
    requires Other(d).Some?
    ensures var t := Other(d).value; var e := Installed(d, t, version);
            && InstallMayYield(d, e) && VersionOf(e, t) == version && SlotOf(e, t).Some? && e.primary == t
            && e.operation == d.operation && e.booted == d.booted && e.bootID == d.bootID
  {
    var t := Other(d).value;
    var e := Installed(d, t, version);
    InstallKeepsNames(d.slots, e.slots, d.booted, t);
    Simulator.FindsWritten(e.slots, t, version);
  }

  /** What the installed job says about the device. */
  predicate Aimed(d: Device, j: Job) {
    && d.operation.Quiet? && j.targetSlot != j.oldSlot && SlotOf(d, j.targetSlot).Some?
    && VersionOf(d, j.targetSlot) == j.release.version
  }

  lemma PlansInstall(cfg: Config, w: World, a: Assignment, j: Job, events: nat) returns (k: Job)
    requires Ready(cfg, w, j, events) && j.state == Verified && Of(cfg, j, a, w.clock) && Takes(cfg, w.dev, j.release)
    requires j.release.HasOS()
    ensures Decide(cfg, w.mem, Some(w.dev), w.healthySince, Fine(w.clock)).todo == SaveJob(k, ThenInstall)
    ensures k.state == Installing && Of(cfg, k, a, w.clock) && k.oldSlot == w.dev.booted
    ensures k.targetSlot == Other(w.dev).value
    ensures k.bootID == w.dev.bootID
  {
    hide EngineInvariant.Inv, Release.HasOS, Other;
    AloneFacts(w.mem, j);
    k := Decide(cfg, w.mem, Some(w.dev), w.healthySince, Fine(w.clock)).todo.job;
  }

  /** Verified: install, inspect, and wait for the reboot. */
  lemma Installs(cfg: Config, w: World, a: Assignment, j: Job, events: nat) returns (v: World, k: Job)
    requires cfg.Valid() && Ready(cfg, w, j, events) && j.state == Verified && Of(cfg, j, a, w.clock)
    requires events + 2 < OUTBOX_LIMIT
    requires Takes(cfg, w.dev, j.release) && j.release.HasOS()
    ensures Leads(cfg, w, v) && Ready(cfg, v, k, events + 2) && k.state == AwaitingReboot && Of(cfg, k, a, v.clock)
    ensures Aimed(v.dev, k) && v.dev.booted == k.oldSlot && v.dev.primary == k.targetSlot && v.dev.bootID == k.bootID
    ensures k.oldSlot == w.dev.booted
  {
    hide EngineInvariant.Inv, Leads, Next, Decide, Release.HasOS, FindSlot, Other, Takes, InstallMayYield, Installed;
    var i := PlansInstall(cfg, w, a, j, events);
    TakesFacts(cfg, w.dev, j.release);
    InstalledFacts(w.dev, j.release.version);
    var begun := Decides(cfg, w, j, events, w.clock);
    var saved := Writes(cfg, begun, j, i, events);
    var i' := i.(updated := w.clock);
    var after := Installed(w.dev, i.targetSlot, i.release.version);
    var done := InstallStep(cfg, saved, i', after);
    var seen := InspectStep(cfg, done, i');
    k := i'.(state := AwaitingReboot);
    v := Writes(cfg, seen, i', k, events + 1);
    k := k.(updated := w.clock);
    Stays(cfg, w);
    Then(cfg, w, w, BeginStep(Fine(w.clock)), begun);
    Then(cfg, w, begun, Write({}, Durable), saved);
    Then(cfg, w, saved, Install(after, true, false), done);
    Then(cfg, w, done, Inspect(true), seen);
    Then(cfg, w, seen, Write({}, Durable), v);
  }

  lemma TakesFacts(cfg: Config, d: Device, r: Release)
    requires Takes(cfg, d, r)
    ensures Other(d).Some? && d.operation.Quiet?
  {
  }

  lemma InstallStep(cfg: Config, w: World, j: Job, after: Device) returns (v: World)
    requires EngineInvariant.Inv(cfg, w) && w.todo == CallInstall(j) && InstallMayYield(w.dev, after)
    ensures Next(cfg, w, Install(after, true, false), v) && EngineInvariant.Inv(cfg, v)
    ensures v == w.(dev := after, writer := false, installs := v.installs, todo := InspectInstall(j))
  {
    hide EngineInvariant.Inv, InstallMayYield;
    var l := Install(after, true, false);
    v := Apply(cfg, w, l);
    EngineWrites.Keep(cfg, w, l);
  }

  lemma InspectStep(cfg: Config, w: World, j: Job) returns (v: World)
    requires EngineInvariant.Inv(cfg, w) && w.todo == InspectInstall(j) && w.dev.operation.Quiet?
    requires w.dev.booted == j.oldSlot && w.dev.primary == j.targetSlot
    requires VersionOf(w.dev, j.targetSlot) == j.release.version
    ensures Next(cfg, w, Inspect(true), v) && EngineInvariant.Inv(cfg, v)
    ensures v == w.(todo := SaveJob(j.(state := AwaitingReboot), Stop))
  {
    hide EngineInvariant.Inv, FindSlot;
    var l := Inspect(true);
    v := Apply(cfg, w, l);
    EngineWrites.Keep(cfg, w, l);
  }

  lemma PlansReboot(cfg: Config, w: World, a: Assignment, j: Job, events: nat)
    requires Ready(cfg, w, j, events) && j.state == AwaitingReboot && Of(cfg, j, a, w.clock) && a.autoReboot
    requires w.dev.bootID == j.bootID && w.dev.booted == j.oldSlot
    ensures Decide(cfg, w.mem, Some(w.dev), w.healthySince, Fine(w.clock)).todo
            == SaveJob(j.(rebootRequested := true), ThenReboot)
  {
    hide EngineInvariant.Inv, Release.HasOS, StepHealth;
    AloneFacts(w.mem, j);
  }

  lemma RebootStep(cfg: Config, w: World, b: Boot) returns (v: World)
    requires EngineInvariant.Inv(cfg, w) && w.todo.CallReboot? && b.bootID > w.dev.bootID
    ensures Next(cfg, w, Reboot(true, Some(b)), v) && EngineInvariant.Inv(cfg, v)
    ensures v == w.(dev := Booted(w.dev, b), writer := false, todo := Idle)
  {
    hide EngineInvariant.Inv;
    var l := Reboot(true, Some(b));
    v := Apply(cfg, w, l);
    EngineWrites.Keep(cfg, w, l);
  }

  /** AwaitingReboot: reboot into the new slot. */
  lemma Reboots(cfg: Config, w: World, a: Assignment, j: Job, events: nat) returns (v: World, k: Job)
    requires cfg.Valid() && Ready(cfg, w, j, events) && j.state == AwaitingReboot && Of(cfg, j, a, w.clock)
    requires events + 1 < OUTBOX_LIMIT && a.autoReboot
    requires Aimed(w.dev, j) && w.dev.booted == j.oldSlot && w.dev.primary == j.targetSlot && w.dev.bootID == j.bootID
    ensures Leads(cfg, w, v) && Ready(cfg, v, k, events + 1) && k.state == AwaitingReboot && k.assignment == a
    ensures Aimed(v.dev, k) && v.dev.booted == k.targetSlot && v.dev.bootID != k.bootID && k.oldSlot == j.oldSlot
    ensures k.release == j.release
  {
    hide EngineInvariant.Inv, Leads, Next, Decide, Release.HasOS, FindSlot;
    PlansReboot(cfg, w, a, j, events);
    k := j.(rebootRequested := true);
    var begun := Decides(cfg, w, j, events, w.clock);
    var saved := Writes(cfg, begun, j, k, events);
    k := k.(updated := w.clock);
    var boot := Boot(j.targetSlot, j.targetSlot, w.dev.bootID + 1);
    v := RebootStep(cfg, saved, boot);
    Stays(cfg, w);
    Then(cfg, w, w, BeginStep(Fine(w.clock)), begun);
    Then(cfg, w, begun, Write({}, Durable), saved);
    Then(cfg, w, saved, Reboot(true, Some(boot)), v);
  }

  /** In the new slot: the health window opens. */
  lemma OpensWindow(cfg: Config, w: World, a: Assignment, j: Job, events: nat) returns (v: World, k: Job)
    requires cfg.Valid() && Ready(cfg, w, j, events) && j.state == AwaitingReboot && j.assignment == a
    requires events + 1 < OUTBOX_LIMIT
    requires Aimed(w.dev, j) && w.dev.booted == j.targetSlot && w.dev.bootID != j.bootID
    ensures Leads(cfg, w, v) && Ready(cfg, v, k, events + 1) && k.state == CheckingHealth && k.assignment == a
    ensures Aimed(v.dev, k) && v.dev.booted == k.targetSlot && v.dev.bootID == k.bootID
    ensures k.healthStarted == Some(v.clock) && v.healthySince.None? && k.oldSlot == j.oldSlot && k.release == j.release
  {
    hide EngineInvariant.Inv, Leads, Decide, Next, FindSlot;
    k := j.(healthStarted := Some(w.clock), bootID := w.dev.bootID, state := CheckingHealth);
    PlansWindow(cfg, w, j, k, events);
    v := Saves(cfg, w, j, k, events, w.clock);
    k := k.(updated := w.clock);
  }

  lemma PlansWindow(cfg: Config, w: World, j: Job, k: Job, events: nat)
    requires Ready(cfg, w, j, events) && j.state == AwaitingReboot && Aimed(w.dev, j)
    requires w.dev.booted == j.targetSlot && w.dev.bootID != j.bootID
    requires k == j.(healthStarted := Some(w.clock), bootID := w.dev.bootID, state := CheckingHealth)
    ensures var p := Decide(cfg, w.mem, Some(w.dev), w.healthySince, Fine(w.clock));
            p.todo == SaveJob(k, Stop) && p.healthySince.None?
  {
    hide EngineInvariant.Inv, FindSlot, StepHealth;
    AloneFacts(w.mem, j);
  }

  lemma PlansProbe(cfg: Config, w: World, j: Job, events: nat, now: int)
    requires Ready(cfg, w, j, events) && j.state == CheckingHealth && Aimed(w.dev, j) && j.healthStarted.Some?
    requires w.dev.booted == j.targetSlot && w.dev.bootID == j.bootID
    requires j.healthStarted.value <= now < j.healthStarted.value + cfg.healthTimeout
    ensures var p := Decide(cfg, w.mem, Some(w.dev), w.healthySince, Fine(now));
            var since := if w.healthySince.None? then now else w.healthySince.value;
            && p.healthySince == Some(since)
            && p.todo == if now - since < cfg.healthStable then Idle else SaveJob(j.(state := Committing), Stop)
  {
    hide EngineInvariant.Inv, FindSlot;
    AloneFacts(w.mem, j);
  }

  /** A call that only probes, and the time that passes after it. */
  lemma Probes(cfg: Config, w: World, j: Job, events: nat, now: int, later: int) returns (v: World)
    requires Ready(cfg, w, j, events) && Decide(cfg, w.mem, Some(w.dev), w.healthySince, Fine(now)).todo.Idle?
    requires now == w.clock <= later
    ensures Leads(cfg, w, v) && Ready(cfg, v, j, events) && v.dev == w.dev && v.clock == later
    ensures v.healthySince == Decide(cfg, w.mem, Some(w.dev), w.healthySince, Fine(now)).healthySince
  {
    hide EngineInvariant.Inv, Leads, Decide, Next;
    var u := Decides(cfg, w, j, events, now);
    v := u.(clock := later);
    Ticks(cfg, u, later);
    Stays(cfg, w);
    Then(cfg, w, w, BeginStep(Fine(now)), u);
    Then(cfg, w, u, SetClock(later), v);
  }

  lemma Ticks(cfg: Config, w: World, later: int)
    requires EngineInvariant.Inv(cfg, w)
    ensures Next(cfg, w, SetClock(later), w.(clock := later)) && EngineInvariant.Inv(cfg, w.(clock := later))
  {
    hide EngineInvariant.Inv;
    EngineWrites.Keep(cfg, w, SetClock(later));
  }

  /** CheckingHealth: passed probes for the configured time. */
  lemma StaysHealthy(cfg: Config, w: World, j: Job, events: nat) returns (v: World, k: Job)
    requires cfg.Valid() && Ready(cfg, w, j, events) && j.state == CheckingHealth && events + 1 < OUTBOX_LIMIT
    requires Aimed(w.dev, j) && w.dev.booted == j.targetSlot && w.dev.bootID == j.bootID
    requires j.healthStarted == Some(w.clock) && w.healthySince.None?
    ensures Leads(cfg, w, v) && Ready(cfg, v, k, events + 1) && v.dev == w.dev
    ensures k == j.(state := Committing, updated := k.updated)
  {
    hide EngineInvariant.Inv, Leads, Decide, Next, FindSlot;
    var u := w;
    PlansProbe(cfg, w, j, events, w.clock);
    Stays(cfg, w);
    if cfg.healthStable > 0 {
      u := Probes(cfg, w, j, events, w.clock, w.clock + cfg.healthStable);
      PlansProbe(cfg, u, j, events, u.clock);
    }
    k := j.(state := Committing);
    v := Saves(cfg, u, j, k, events, u.clock);
    k := k.(updated := u.clock);
    Joined(cfg, w, u, v);
  }

  lemma PlansCommit(cfg: Config, w: World, j: Job, events: nat)
    requires Ready(cfg, w, j, events) && j.state == Committing && Aimed(w.dev, j)
    requires w.dev.booted == j.targetSlot && w.dev.bootID == j.bootID
    ensures Decide(cfg, w.mem, Some(w.dev), w.healthySince, Fine(w.clock)).todo
            == CallMark(Good, j.targetSlot, SaveJob(j.(state := Committed), Stop))
  {
    hide EngineInvariant.Inv, FindSlot;
    AloneFacts(w.mem, j);
  }

  lemma MarkStep(cfg: Config, w: World) returns (v: World)
    requires EngineInvariant.Inv(cfg, w) && w.todo.CallMark? && SlotOf(w.dev, w.todo.slot).Some?
    ensures Next(cfg, w, Mark(true, true), v) && EngineInvariant.Inv(cfg, v)
    ensures v == w.(dev := Marked(w.dev, w.todo.kind, w.todo.slot), todo := w.todo.next)
  {
    hide EngineInvariant.Inv, FindSlot, SetGood;
    var l := Mark(true, true);
    v := Apply(cfg, w, l);
    EngineWrites.Keep(cfg, w, l);
  }

  /** Committing: mark the slot good and commit. */
  lemma Commits(cfg: Config, w: World, j: Job, events: nat) returns (v: World)
    requires cfg.Valid() && Ready(cfg, w, j, events) && j.state == Committing && events + 1 < OUTBOX_LIMIT
    requires Aimed(w.dev, j) && w.dev.booted == j.targetSlot && w.dev.bootID == j.bootID
    ensures Leads(cfg, w, v) && EngineInvariant.Inv(cfg, v) && !v.poisoned && v.todo.Idle?
    ensures j.assignment.jobID in v.mem.jobs && v.mem.jobs[j.assignment.jobID].state == Committed
    ensures v.dev.booted == j.targetSlot && GoodOf(v.dev, j.targetSlot)
    ensures VersionOf(v.dev, j.targetSlot) == j.release.version
  {
    hide EngineInvariant.Inv, Leads, Decide, Next, FindSlot, SetGood;
    PlansCommit(cfg, w, j, events);
    var begun := Decides(cfg, w, j, events, w.clock);
    var marked := MarkStep(cfg, begun);
    MarkedSlots(w.dev, Good, j.targetSlot, j.targetSlot);
    v := Writes(cfg, marked, j, j.(state := Committed), events);
    Stays(cfg, w);
    Then(cfg, w, w, BeginStep(Fine(w.clock)), begun);
    Then(cfg, w, begun, Mark(true, true), marked);
    Then(cfg, w, marked, Write({}, Durable), v);
  }

  // ---------------------------------------------------------------- the whole update

  /** The update is over: committed, running the new version in the other slot, marked good. */
  predicate Updated(w: World, a: Assignment, r: Release, v: World) {
    && a.jobID in v.disk.jobs && v.disk.jobs[a.jobID].state == Committed
    && v.dev.booted != w.dev.booted && VersionOf(v.dev, v.dev.booted) == r.version && GoodOf(v.dev, v.dev.booted)
  }

  lemma Upgrades(cfg: Config, w: World, a: Assignment) returns (v: World)
    requires Init(w) && Suits(cfg, w, a)
    ensures Leads(cfg, w, v) && Updated(w, a, cfg.decode(a.release.payload), v)
  {
    hide EngineInvariant.Inv, Leads, Decide, Next, FindSlot, Init, JobIdentity.Admissible, Other, Release.HasOS;
    var w1, j1 := Accepts(cfg, w, a);
    var w2, j2 := Fetches(cfg, w1, a, j1, 1);
    Joined(cfg, w, w1, w2);
    var w3, j3 := Installs(cfg, w2, a, j2, 3);
    Joined(cfg, w, w2, w3);
    var w4, j4 := Reboots(cfg, w3, a, j3, 5);
    Joined(cfg, w, w3, w4);
    var w5, j5 := OpensWindow(cfg, w4, a, j4, 6);
    Joined(cfg, w, w4, w5);
    var w6, j6 := StaysHealthy(cfg, w5, j5, 7);
    Joined(cfg, w, w5, w6);
    v := Commits(cfg, w6, j6, 8);
    Joined(cfg, w, w6, v);
    JobIdentity.Same(cfg, v);
  }

  /** From every fresh device, every suitable assignment has a run of the engine that ends with the update in place. */
  lemma UpdateCanSucceed(cfg: Config, w: World, a: Assignment) returns (ws: seq<World>, ls: seq<Label>)
    requires Init(w) && Suits(cfg, w, a)
    ensures IsRun(cfg, ws, ls) && ws[0] == w && Updated(w, a, cfg.decode(a.release.payload), ws[|ls|])
    ensures forall i | 0 <= i < |ls| :: Timely(ws[i], ls[i])
  {
    hide Next, Timely, Init, Suits, Updated;
    var v := Upgrades(cfg, w, a);
    ws, ls :| IsPath(cfg, ws, ls) && ws[0] == w && ws[|ls|] == v;
  }

  // ---------------------------------------------------------------- releases of side payloads only

  lemma PlansPayloads(cfg: Config, w: World, a: Assignment, j: Job, events: nat)
    requires Ready(cfg, w, j, events) && j.state == Verified && Of(cfg, j, a, w.clock) && !j.release.HasOS()
    ensures Decide(cfg, w.mem, Some(w.dev), w.healthySince, Fine(w.clock)).todo
            == SaveJob(j.(state := Committed, payloadsApplied := j.payloadsApplied || j.release.targets != []), Stop)
  {
    hide EngineInvariant.Inv, Release.HasOS, Other;
    AloneFacts(w.mem, j);
  }

  /** A release without an operating-system image is done when its payloads are. */
  lemma CommitsPayloads(cfg: Config, w: World, a: Assignment, j: Job, events: nat) returns (v: World)
    requires cfg.Valid() && Ready(cfg, w, j, events) && j.state == Verified && Of(cfg, j, a, w.clock)
    requires !j.release.HasOS() && events + 1 < OUTBOX_LIMIT
    ensures Leads(cfg, w, v) && EngineInvariant.Inv(cfg, v) && !v.poisoned && v.todo.Idle? && v.dev == w.dev
    ensures a.jobID in v.mem.jobs && v.mem.jobs[a.jobID].state == Committed && v.mem.active == ""
  {
    hide EngineInvariant.Inv, Leads, Decide, Next, Release.HasOS;
    PlansPayloads(cfg, w, a, j, events);
    var k := j.(state := Committed, payloadsApplied := j.payloadsApplied || j.release.targets != []);
    var begun := Decides(cfg, w, j, events, w.clock);
    v := Writes(cfg, begun, j, k, events);
    Stays(cfg, w);
    Then(cfg, w, w, BeginStep(Fine(w.clock)), begun);
    Then(cfg, w, begun, Write({}, Durable), v);
  }

  /**
   From every fresh device, whatever its slots are and do, every admissible assignment of a release without an
   operating-system image has a run that commits it and leaves the device alone.
   */
  lemma PayloadUpdateCanSucceed(cfg: Config, w: World, a: Assignment) returns (ws: seq<World>, ls: seq<Label>)
    requires Init(w) && Starts(cfg, w, a) && !cfg.decode(a.release.payload).HasOS()
    ensures IsRun(cfg, ws, ls) && ws[0] == w && forall i | 0 <= i < |ls| :: Timely(ws[i], ls[i])
    ensures var v := ws[|ls|];
            a.jobID in v.disk.jobs && v.disk.jobs[a.jobID].state == Committed && v.disk.active == "" && v.dev == w.dev
  {
    hide Next, Timely, Init, EngineInvariant.Inv, Leads, JobIdentity.Admissible, Release.HasOS;
    var w1, j1 := Accepts(cfg, w, a);
    var w2, j2 := Fetches(cfg, w1, a, j1, 1);
    Joined(cfg, w, w1, w2);
    var v := CommitsPayloads(cfg, w2, a, j2, 3);
    Joined(cfg, w, w2, v);
    JobIdentity.Same(cfg, v);
    ws, ls := PathOf(cfg, w, v);
  }
}
