/**
 The update agent as an object (internal/ota/engine.go, internal/ota/boot.go): the engine's calls on top of the
 journal store and the simulated device, with commits that may fail. Each call is carried out write by write and
 backend call by backend call, and every world it passes through is recorded, so that a death of the agent between
 any two of them leaves one of the recorded worlds.
 */
module Agent {
  import opened Model
  import opened Journal
  import opened Engine
  import opened EngineInvariant
  import EngineProof
  import EngineWrites
  import EngineRuns
  import opened JournalStore
  import opened Simulator
  import Liveness

  /** The outcomes of the call's journal writes, in order, and whether the artifact is still intact at the install. */
  datatype Luck = Luck(writes: nat -> Outcome, artifactOk: bool)

  /** Steps left in a program. */
  function Length(t: Todo): nat {
    match t
    case Idle => 0
    case SaveJob(_, ThenInstall) => 4
    case SaveJob(_, ThenReboot) => 3
    case CallInstall(_) => 3
    case InspectInstall(_) => 2
    case CallMark(_, _, next) => 1 + Length(next)
    case CallReboot(_) => 2
    case _ => 1
  }

  /** A step that continues an engine call. */
  predicate OfCall(l: Label) {
    l.Write? || l.Install? || l.Inspect? || l.Mark? || l.Reboot?
  }

  predicate Finished(j: Job) {
    j.state == Committed || j.state == RolledBack
  }

  /** One pass over the jobs, in any order: the finished one with the largest sequence. */
  method LatestJob(jobs: map<string, Job>) returns (latest: Option<Job>)
    ensures IsLatest(jobs, latest)
  {
    latest := None;
    var left := jobs.Keys;
    while left != {}
      invariant left <= jobs.Keys
      invariant latest.Some? ==>
                  latest.value in jobs.Values && Finished(latest.value) && latest.value.release.sequence > 0
      invariant forall id | id in jobs && id !in left && Finished(jobs[id]) ::
        jobs[id].release.sequence <= if latest.Some? then latest.value.release.sequence else 0
      decreases |left|
    {
      var id :| id in left;
      left := left - {id};
      var best := if latest.Some? then latest.value.release.sequence else 0;
      if Finished(jobs[id]) && jobs[id].release.sequence > best {
        latest := Some(jobs[id]);
      }
    }
  }

  /** The events that stay after an acknowledgment. */
  method EventsAfter(events: seq<Event>, sequence: nat) returns (kept: seq<Event>)
    ensures kept == DropAcked(events, sequence)
  {
    var i := 0;
    assert events[0..] == events;
    while i < |events| && events[i].sequence <= sequence
      invariant i <= |events| && DropAcked(events, sequence) == DropAcked(events[i..], sequence)
    {
      assert events[i..][1..] == events[i + 1..] && events[i..][0] == events[i];
      i := i + 1;
    }
    assert i < |events| ==> events[i..][0] == events[i];
    kept := events[i..];
  }

  lemma WriteShortens(t: Todo, now: int)
    requires IsWrite(t)
    ensures Length(AfterWrite(t, now)) < Length(t) && Length(Idle) < Length(t)
  {
  }

  class Agent {
    const cfg: Config
    const store: Store
    const sim: Simulator
    var healthySince: Option<int>
    var todo: Todo
    var clock: int
    ghost var installs: multiset<nat>
    ghost var probes: seq<Probe>
    ghost var healthyFrom: nat
    ghost var accepted: seq<Assignment>
    ghost var worlds: seq<World>
    ghost var labels: seq<Label>

    ghost function Now(): World
      reads this, store, store.disk, sim
    {
      World(Register(store.disk.Contents()), store.disk.archive, store.data, store.poisoned, healthySince, todo,
            sim.dev, false, clock, installs, probes, healthyFrom, accepted)
    }

    /** The recorded history is a run of the engine that ends here. */
    ghost predicate Valid()
      reads this, store, store.disk, sim
    {
      && store.limit == cfg.hotLimit >= 1
      && store.Faithful()
      && |worlds| == |labels| + 1 && Engine.IsRun(cfg, worlds, labels)
      && worlds[|labels|] == Now()
      && EngineInvariant.Inv(cfg, Now())
    }

    /**
     The history has grown by one step of the call in progress, `smooth` or not, and the program has become shorter.
     */
    twostate predicate Continued(smooth: bool)
      reads this, store, store.disk, sim
    {
      && Valid() && old(worlds) <= worlds && |labels| == |old(labels)| + 1 && labels[..|old(labels)|] == old(labels)
      && OfCall(labels[|old(labels)|]) && Length(todo) < Length(old(todo))
      && (smooth ==> Liveness.Smooth(old(Now()), labels[|old(labels)|]))
    }

    /** The history has grown by one call, begun with `l` and carried to its end. */
    twostate predicate Called(l: Label)
      reads this, store, store.disk, sim
    {
      && Valid() && todo.Idle? && old(worlds) <= worlds && old(labels) + [l] <= labels
      && forall i | |old(labels)| < i < |labels| :: OfCall(labels[i])
    }

    /** Nothing is going to fail. */
    ghost predicate Lucky(luck: Luck)
      reads this, sim`failBoot
    {
      !sim.failBoot && forall n: nat :: luck.writes(n).Durable?
    }

    /** No step from the `n`-th on failed. */
    ghost predicate SmoothFrom(n: nat)
      reads this
    {
      |worlds| == |labels| + 1 && forall i | n <= i < |labels| :: Liveness.Smooth(worlds[i], labels[i])
    }

    constructor (cfg: Config, store: Store, sim: Simulator, clock: int)
      requires store.limit == cfg.hotLimit >= 1 && store.Faithful()
      requires store.data == EmptyDatabase() && !store.poisoned && store.disk.archive == map[] && sim.dev.bootID > 0
      ensures this.cfg == cfg && this.store == store && this.sim == sim && this.clock == clock
      ensures Valid() && todo.Idle?
    {
      this.cfg, this.store, this.sim, this.clock := cfg, store, sim, clock;
      healthySince, todo := None, Idle;
      installs, probes, healthyFrom, accepted, labels := multiset{}, [], 0, [], [];
      new;
      worlds := [Now()];
      InitInv(cfg, Now());
    }

    /** Everything this agent has ever done was safe. */
    lemma HistoryIsSafe()
      requires Valid()
      ensures forall i | 0 <= i < |labels| :: EngineRuns.Safe(cfg, worlds[i], labels[i], worlds[i + 1])
    {
      hide EngineInvariant.Inv, EngineRuns.Safe, Now, Store.Faithful;
      EngineRuns.EveryRunIsSafe(cfg, worlds, labels);
    }

    /** Records a step of the engine that has just been carried out. */
    ghost method Record(l: Label)
      requires store.limit == cfg.hotLimit >= 1 && store.Faithful()
      requires Engine.IsRun(cfg, worlds, labels) && EngineInvariant.Inv(cfg, worlds[|labels|])
      requires Next(cfg, worlds[|labels|], l, Now())
      modifies this`worlds, this`labels
      ensures Valid() && worlds == old(worlds) + [Now()] && labels == old(labels) + [l]
      ensures Now() == old(Now())
    {
      hide EngineInvariant.Inv, Enabled, Apply;
      EngineWrites.Keep(cfg, worlds[|labels|], l);
      RunExtends(cfg, worlds, labels, l, Now());
      worlds, labels := worlds + [Now()], labels + [l];
    }

    /** The world after a journal write, but for what it leaves of the store. */
    ghost function Written(ok: bool, accepts: bool): World
      requires accepts ==> todo.AcceptJob?
      reads this, store, store.disk, sim
    {
      Now().(todo := if ok then AfterWrite(todo, clock) else Idle,
             accepted := if accepts then accepted + [todo.job.assignment] else accepted)
    }

    /** Hands the change of a journal write to the store. */
    method Commit(outcome: Outcome) returns (ok: bool, ghost accepts: bool, ghost moved: set<string>)
      requires Valid() && IsWrite(todo)
      modifies store, store.disk
      ensures store.Faithful() && (accepts ==> todo.AcceptJob?)
      ensures Next(cfg, old(Now()), Label.Write(moved, outcome), Written(ok, accepts))
    {
      hide EngineInvariant.Inv, JournalStore.Inv, Engine.IsRun, Change, Spills, Updated, Filed, HasRoom, Register,
           AfterWrite, Enabled, Apply, IsWrite;
      ghost var w, k := Now(), store.disk.Contents();
      var change := Change(todo, store.data, clock);
      accepts := todo.AcceptJob? && change.Some? && !w.poisoned && !outcome.FailedLost?;
      if change.Some? {
        ChangeFits(cfg, w);
      }
      ghost var taken;
      ok, taken := store.Update(change, outcome);
      moved := if taken.Some? then taken.value.ids else {};
      if w.poisoned && change.Some? {
        moved := RoomSpills(cfg.hotLimit, change.value);
      }
      StaysPut(cfg.hotLimit, k, w, change, outcome);
      WriteIsNext(cfg, w, k, moved, outcome);
    }

    /** Carries out a journal write. */
    method Write(outcome: Outcome)
      requires Valid() && IsWrite(todo)
      modifies this`todo, this`accepted, this`worlds, this`labels, store, store.disk
      ensures Continued(outcome.Durable?)
    {
      hide EngineInvariant.Inv, Store.Faithful, Engine.IsRun, Register, AfterWrite, Length, Next, IsWrite;
      WriteShortens(todo, clock);
      var ok, accepts, moved := Commit(outcome);
      if accepts {
        accepted := accepted + [todo.job.assignment];
      }
      todo := if ok then AfterWrite(todo, clock) else Idle;
      Record(Label.Write(moved, outcome));
    }

    method Install(artifactOk: bool)
      requires Valid() && todo.CallInstall?
      modifies this`todo, this`installs, this`worlds, this`labels, sim`dev
      ensures Continued(true)
    {
      hide EngineInvariant.Inv, JournalStore.Inv, Engine.IsRun, Change, Decide, InstallMayYield;
      var j := todo.job;
      var ok := sim.Install(j.release.version, artifactOk);
      installs := installs + multiset{j.release.sequence};
      todo := if ok then InspectInstall(j) else SaveJob(j.(state := NeedsRecovery), Stop);
      Record(Label.Install(sim.dev, ok, false));
    }

    method Inspect()
      requires Valid() && todo.InspectInstall?
      modifies this`todo, this`worlds, this`labels
      ensures Continued(true)
    {
      hide EngineInvariant.Inv, JournalStore.Inv, Engine.IsRun, Change, Decide, FindSlot;
      todo := AfterInspect(todo.job, Some(sim.dev));
      Record(Label.Inspect(true));
    }

    method Mark()
      requires Valid() && todo.CallMark?
      modifies this`todo, this`worlds, this`labels, sim`dev
      ensures Continued(true)
    {
      hide EngineInvariant.Inv, JournalStore.Inv, Engine.IsRun, Change, Decide, FindSlot, SetGood;
      var ok := sim.Mark(todo.kind, todo.slot);
      todo := if ok then todo.next else Idle;
      Record(Label.Mark(ok, ok));
    }

    method Reboot()
      requires Valid() && todo.CallReboot?
      modifies this`todo, this`worlds, this`labels, sim`dev
      ensures Continued(!sim.failBoot)
    {
      hide EngineInvariant.Inv, JournalStore.Inv, Engine.IsRun, Change, Decide, FindSlot;
      ghost var boot := NextBoot(sim.dev, sim.failBoot);
      sim.Reboot();
      todo := Idle;
      Record(Label.Reboot(true, Some(boot)));
    }

    /** Carries out the next step of the call in progress. */
    method Advance(outcome: Outcome, artifactOk: bool)
      requires Valid() && !todo.Idle?
      modifies this`todo, this`accepted, this`installs, this`worlds, this`labels, store, store.disk, sim`dev
      ensures Continued(outcome.Durable? && !sim.failBoot)
    {
      hide EngineInvariant.Inv, JournalStore.Inv, Engine.IsRun, Now, Store.Faithful, Liveness.Smooth, Length;
      if IsWrite(todo) {
        Write(outcome);
      } else if todo.CallInstall? {
        Install(artifactOk);
      } else if todo.InspectInstall? {
        Inspect();
      } else if todo.CallMark? {
        Mark();
      } else {
        Reboot();
      }
    }

    /** Carries a call to its end. */
    method Finish(luck: Luck)
      requires Valid()
      modifies this`todo, this`accepted, this`installs, this`worlds, this`labels, store, store.disk, sim`dev
      ensures Valid() && todo.Idle? && old(worlds) <= worlds && old(labels) <= labels
      ensures forall i | |old(labels)| <= i < |labels| :: OfCall(labels[i])
      ensures Lucky(luck) ==> SmoothFrom(|old(labels)|)
    {
      hide EngineInvariant.Inv, JournalStore.Inv, Engine.IsRun, Now, Store.Faithful, Liveness.Smooth, Length;
      var written := 0;
      while !todo.Idle?
        invariant Valid() && old(worlds) <= worlds && old(labels) <= labels
        invariant forall i | |old(labels)| <= i < |labels| :: OfCall(labels[i])
        invariant Lucky(luck) ==> SmoothFrom(|old(labels)|)
        decreases Length(todo)
      {
        Advance(luck.writes(written), luck.artifactOk);
        written := written + 1;
      }
    }

    /** `Submit`. `verified` covers the envelope, measured boot and supply chain. */
    method Submit(a: Assignment, verified: bool, luck: Luck) returns (reply: Reply)
      requires Valid() && todo.Idle?
      modifies this`todo, this`accepted, this`installs, this`worlds, this`labels, store, store.disk, sim`dev
      ensures reply == DecideSubmit(cfg, old(store.data), a, verified, clock)
      ensures Called(Label.Submit(a, verified, clock))
    {
      hide EngineInvariant.Inv, JournalStore.Inv, Engine.IsRun, DecideSubmit, Store.Faithful;
      reply := DecideSubmit(cfg, store.data, a, verified, clock);
      if reply.Proceed? {
        todo := AcceptJob(reply.job);
      }
      Record(Label.Submit(a, verified, clock));
      Finish(luck);
    }

    /** The decision of a call of `Step`. */
    method Begin(learnt: Inputs)
      requires Valid() && todo.Idle? && IsLatest(store.data.jobs, learnt.latest)
      modifies this`healthySince, this`todo, this`healthyFrom, this`probes, this`worlds, this`labels
      ensures Valid() && old(worlds) <= worlds && labels == old(labels) + [BeginStep(learnt)]
    {
      hide EngineInvariant.Inv, JournalStore.Inv, Engine.IsRun, Decide, IsLatest, Store.Faithful;
      var status := if learnt.statusOk then Some(sim.dev) else None;
      var plan := Decide(cfg, store.data, status, healthySince, learnt);
      if healthySince.None? {
        healthyFrom := |probes|;
      }
      if plan.probed {
        probes := probes + [Probe(sim.dev.bootID, learnt.now, learnt.healthy)];
      }
      healthySince, todo := plan.healthySince, plan.todo;
      Record(BeginStep(learnt));
    }

    /** `Step`, with what it learns from outside in `inp`. When nothing fails, it is one smooth round. */
    method Step(inp: Inputs, luck: Luck) returns (ghost latest: Option<Job>)
      requires Valid() && todo.Idle?
      modifies this, store, store.disk, sim`dev
      ensures clock == old(clock) && IsLatest(old(store.data.jobs), latest)
      ensures Called(BeginStep(inp.(latest := latest)))
      ensures old(Lucky(luck)) ==>
                Liveness.IsRound(cfg, inp.(latest := latest), worlds[|old(labels)|..], labels[|old(labels)|..])
    {
      hide EngineInvariant.Inv, JournalStore.Inv, Engine.IsRun, IsLatest, Store.Faithful, Now, Liveness.IsRound,
           Liveness.Smooth;
      var found := LatestJob(store.data.jobs);
      latest := found;
      var learnt := inp.(latest := found);
      ghost var n := |labels|;
      Begin(learnt);
      Finish(luck);
      if Lucky(luck) {
        IdleNow();
        RoundOf(cfg, learnt, worlds, labels, n);
      }
    }

    lemma IdleNow()
      ensures Now().todo == todo
    {
    }

    method RequestReboot(inp: Inputs, luck: Luck)
      requires Valid() && todo.Idle?
      modifies this`todo, this`accepted, this`installs, this`worlds, this`labels, store, store.disk, sim`dev
      ensures Called(BeginReboot(inp))
    {
      hide EngineInvariant.Inv, JournalStore.Inv, Engine.IsRun, DecideReboot, Store.Faithful;
      todo := DecideReboot(store.data, if inp.statusOk then Some(sim.dev) else None, inp);
      Record(BeginReboot(inp));
      Finish(luck);
    }

    method RecoverAbort(inp: Inputs, luck: Luck)
      requires Valid() && todo.Idle?
      modifies this`todo, this`accepted, this`installs, this`worlds, this`labels, store, store.disk, sim`dev
      ensures Called(BeginAbort(inp))
    {
      hide EngineInvariant.Inv, JournalStore.Inv, Engine.IsRun, DecideAbort, Store.Faithful;
      todo := DecideAbort(store.data, if inp.statusOk then Some(sim.dev) else None);
      Record(BeginAbort(inp));
      Finish(luck);
    }

    /** `Ack`; it may fall between any two steps of a call. */
    method Acknowledge(sequence: nat, outcome: Outcome) returns (ghost moved: set<string>)
      requires Valid()
      modifies this`worlds, this`labels, store, store.disk
      ensures Valid() && worlds == old(worlds) + [Now()]
      ensures labels == old(labels) + [Label.Ack(sequence, moved, outcome)]
    {
      hide EngineInvariant.Inv, JournalStore.Inv, Engine.IsRun, Spills, Updated, Filed, HasRoom, Register, Acked,
           Apply, Committed';
      ghost var w, k := Now(), store.disk.Contents();
      var change := None;
      if sequence <= store.data.eventSequence {
        var kept := EventsAfter(store.data.events, sequence);
        change := Some(store.data.(events := kept));
      }
      AckIs(store.data, sequence);
      if change.Some? {
        AckFits(cfg, w, sequence);
      }
      var ok, taken := store.Update(change, outcome);
      moved := if taken.Some? then taken.value.ids else {};
      if w.poisoned && change.Some? {
        moved := RoomSpills(cfg.hotLimit, change.value);
      }
      StaysPut(cfg.hotLimit, k, w, change, outcome);
      AckMatches(cfg, w, k, sequence, moved, outcome);
      Record(Label.Ack(sequence, moved, outcome));
    }

    method SetTime(time: int)
      requires Valid()
      modifies this`clock, this`worlds, this`labels
      ensures Valid() && clock == time && worlds == old(worlds) + [Now()] && labels == old(labels) + [SetClock(time)]
    {
      hide EngineInvariant.Inv, JournalStore.Inv, Engine.IsRun, Store.Faithful;
      clock := time;
      Record(SetClock(time));
    }

    /** The agent dies, wherever it was, and starts again from what is durable. */
    method Restart(renameOk: bool) returns (ok: bool)
      requires Valid()
      modifies this, store, store.disk
      ensures Register(store.disk.Contents()) == old(Register(store.disk.Contents()))
      ensures ok <==> !Damaged(cfg.hotLimit, old(store.disk.legacy))
      ensures ok ==> Valid() && todo.Idle? && worlds == old(worlds) + [Now()] && labels == old(labels) + [Crash]
      ensures !ok ==> store.disk.Contents() == old(store.disk.Contents())
    {
      hide EngineInvariant.Inv, Engine.IsRun, Journal.Valid;
      ghost var w := Now();
      ok := store.Load(Durable, renameOk);
      if ok {
        healthySince, todo := None, Idle;
        assert Now() == Restarted(w);
        Record(Crash);
      }
    }
  }

  /** What compaction takes, filed under its own identifiers. */
  function TakenOf(change: Option<Database>, ids: set<string>): Option<Taken> {
    if change.None? then None else Some(Taken(ids, MovedJobs(change.value, ids)))
  }

  /** What the store does with a change is what the engine's write does. */
  lemma CommitMatches(cfg: Config, w: World, k: Disk, spilled: set<string>, outcome: Outcome)
    requires EngineInvariant.Inv(cfg, w) && Enabled(cfg, w, Write(spilled, outcome))
    requires Register(k) == w.disk && k.archive == w.archive
    ensures var c := Change(w.todo, w.mem, w.clock);
            var (k', m, ok) := Updated(cfg.hotLimit, k, Memory(w.mem, w.poisoned), c, TakenOf(c, spilled), outcome);
            var v := DoWrite(cfg, w, spilled, outcome);
            v == w.(disk := Register(k'), archive := k'.archive, mem := m.data, poisoned := m.poisoned,
                    todo := if ok then AfterWrite(w.todo, w.clock) else Idle,
                    accepted := if w.todo.AcceptJob? && c.Some? && !w.poisoned && !outcome.FailedLost?
                                then w.accepted + [w.todo.job.assignment] else w.accepted)
  {
    hide EngineInvariant.Inv, Change, Journal.Valid, Spills, AfterWrite, Register, Persisted, Committed', Without,
         MovedJobs;
    var c := Change(w.todo, w.mem, w.clock);
    if c.Some? && !w.poisoned {
      EngineRuns.WritesAreValid(cfg, w, spilled, outcome);
      EngineRuns.ChangeKeepsJobs(cfg, w.todo, w.mem, w.clock, spilled);
      PersistMatches(w, k, c.value, spilled, outcome);
    }
  }

  /** What the store did is a step of the transition system. */
  lemma WriteIsNext(cfg: Config, w: World, k: Disk, spilled: set<string>, outcome: Outcome)
    requires EngineInvariant.Inv(cfg, w) && IsWrite(w.todo) && Register(k) == w.disk && k.archive == w.archive
    requires var c := Change(w.todo, w.mem, w.clock); c.Some? ==> Spills(cfg.hotLimit, c.value, spilled)
    ensures var c := Change(w.todo, w.mem, w.clock);
            var (k', m, ok) := Updated(cfg.hotLimit, k, Memory(w.mem, w.poisoned), c, TakenOf(c, spilled), outcome);
            Next(cfg, w, Label.Write(spilled, outcome),
                 w.(disk := Register(k'), archive := k'.archive, mem := m.data, poisoned := m.poisoned,
                    todo := if ok then AfterWrite(w.todo, w.clock) else Idle,
                    accepted := if w.todo.AcceptJob? && c.Some? && !w.poisoned && !outcome.FailedLost?
                                then w.accepted + [w.todo.job.assignment] else w.accepted))
  {
    hide EngineInvariant.Inv, Change, Spills, AfterWrite, Register, Updated, DoWrite;
    CommitMatches(cfg, w, k, spilled, outcome);
  }

  /** A transaction of the store is a commit of the transition system. */
  lemma PersistMatches(w: World, k: Disk, c: Database, spilled: set<string>, outcome: Outcome)
    requires Register(k) == w.disk && k.archive == w.archive && spilled <= c.jobs.Keys
    ensures var k' := Persisted(k, Without(c, spilled), MovedJobs(c, spilled), outcome);
            var m := if outcome.Durable? then Memory(Without(c, spilled), false) else Memory(w.mem, true);
            && Committed'(w, c, spilled, outcome).(poisoned := m.poisoned)
               == w.(disk := Register(k'), archive := k'.archive, mem := m.data, poisoned := m.poisoned)
            && (Committed'(w, c, spilled, outcome).poisoned <==> w.poisoned || m.poisoned)
  {
    assert MovedJobs(c, spilled) == map id | id in spilled :: c.jobs[id];
  }

  lemma RoomSpills(limit: nat, d: Database) returns (moved: set<string>)
    requires HasRoom(limit, d)
    ensures Spills(limit, d, moved)
  {
    moved := SpillsExist(limit, d);
  }

  /** A refused update does not depend on what compaction would have moved. */
  lemma StaysPut(limit: nat, k: Disk, w: World, change: Option<Database>, outcome: Outcome)
    ensures w.poisoned || change.None? ==>
              forall taken :: Updated(limit, k, Memory(w.mem, w.poisoned), change, taken, outcome)
                            == (k, Memory(w.mem, w.poisoned), false)
  {
  }

  lemma AckIs(d: Database, sequence: nat)
    ensures Acked(d, sequence) == if sequence > d.eventSequence then None
            else Some(d.(events := DropAcked(d.events, sequence)))
  {
  }

  lemma AckFits(cfg: Config, w: World, sequence: nat)
    requires EngineInvariant.Inv(cfg, w) && cfg.hotLimit >= 1 && Acked(w.mem, sequence).Some?
    ensures Filed(Acked(w.mem, sequence).value) && HasRoom(cfg.hotLimit, Acked(w.mem, sequence).value)
  {
    hide Agrees, Books, Increasing, InstallsOnce, Healthy, Synced, FindSlot, Allowed, WriterOwned, Filed, HasRoom;
    DropAckedSuffix(w.mem.events, sequence);
    SameJobsFit(cfg, w.mem, Acked(w.mem, sequence).value);
  }

  lemma AckMatches(cfg: Config, w: World, k: Disk, sequence: nat, spilled: set<string>, outcome: Outcome)
    requires EngineInvariant.Inv(cfg, w) && Enabled(cfg, w, Label.Ack(sequence, spilled, outcome))
    requires Register(k) == w.disk && k.archive == w.archive
    ensures var (k', m, ok) := Updated(cfg.hotLimit, k, Memory(w.mem, w.poisoned), Acked(w.mem, sequence),
                                        TakenOf(Acked(w.mem, sequence), spilled), outcome);
            Apply(cfg, w, Label.Ack(sequence, spilled, outcome))
            == w.(disk := Register(k'), archive := k'.archive, mem := m.data, poisoned := m.poisoned)
  {
    hide EngineInvariant.Inv, Acked, Journal.Valid, Spillable, Movable;
    var c := Acked(w.mem, sequence);
    if c.Some? && !w.poisoned {
      AckSpillsJobs(cfg.hotLimit, c.value, spilled);
      assert MovedJobs(c.value, spilled) == map id | id in spilled :: c.value.jobs[id];
    }
  }

  lemma AckSpillsJobs(limit: nat, d: Database, spilled: set<string>)
    requires Spills(limit, d, spilled)
    ensures spilled <= d.jobs.Keys
  {
  }

  lemma ConsistentIsFiled(limit: nat, d: Database)
    requires limit >= 1 && "" !in d.jobs && forall id | id in d.jobs :: JobConsistent(d, id)
    requires |d.events| <= OUTBOX_LIMIT
    ensures Filed(d) && HasRoom(limit, d)
  {
    hide Movable;
    CapacityUnreachable(limit, d);
  }

  lemma SaveFits(cfg: Config, d: Database, j0: Job, t: Todo, now: int)
    requires Books(cfg, d) && ActiveJob(d) == Some(j0) && t.SaveJob? && EngineProof.SameIdentity(t.job, j0)
    requires Change(t, d, now).Some? && cfg.hotLimit >= 1
    ensures Filed(Change(t, d, now).value) && HasRoom(cfg.hotLimit, Change(t, d, now).value)
  {
    hide EventsOrdered, Filed, HasRoom;
    EngineRuns.SavedConsistent(cfg, d, j0, t, now);
    assert JobConsistent(d, d.active);
    ConsistentIsFiled(cfg.hotLimit, Change(t, d, now).value);
  }

  lemma AcceptFits(cfg: Config, d: Database, j: Job, now: int)
    requires Books(cfg, d) && j.fingerprint == FingerprintOf(j.assignment) && j.assignment.jobID != ""
    requires Change(AcceptJob(j), d, now).Some? && cfg.hotLimit >= 1
    ensures Filed(Change(AcceptJob(j), d, now).value) && HasRoom(cfg.hotLimit, Change(AcceptJob(j), d, now).value)
  {
    hide EventsOrdered, Filed, HasRoom;
    AcceptConsistent(cfg, d, j, now);
    ConsistentIsFiled(cfg.hotLimit, Change(AcceptJob(j), d, now).value);
  }

  lemma SameJobsFit(cfg: Config, d: Database, c: Database)
    requires Books(cfg, d) && cfg.hotLimit >= 1
    requires c.jobs == d.jobs && c.active == d.active && c.highSequence == d.highSequence && |c.events| <= |d.events|
    ensures Filed(c) && HasRoom(cfg.hotLimit, c)
  {
    hide EventsOrdered, Filed, HasRoom;
    forall id | id in c.jobs ensures JobConsistent(c, id) {
      assert JobConsistent(d, id);
    }
    ConsistentIsFiled(cfg.hotLimit, c);
  }

  /** Every change the engine makes is one the store has room for. */
  lemma ChangeFits(cfg: Config, w: World)
    requires EngineInvariant.Inv(cfg, w) && IsWrite(w.todo) && cfg.hotLimit >= 1
    requires Change(w.todo, w.mem, w.clock).Some?
    ensures var c := Change(w.todo, w.mem, w.clock).value; Filed(c) && HasRoom(cfg.hotLimit, c)
  {
    hide Agrees, Books, Increasing, InstallsOnce, Healthy, Synced, FindSlot, Licensed, Program, WriterOwned, Filed,
         HasRoom;
    if w.todo.SaveJob? {
      EngineWrites.LicensedSave(cfg, w.todo, SceneOf(w));
      SaveFits(cfg, w.mem, ActiveJob(w.mem).value, w.todo, w.clock);
    } else if w.todo.AcceptJob? {
      AcceptFits(cfg, w.mem, w.todo.job, w.clock);
    } else {
      SameJobsFit(cfg, w.mem, Change(w.todo, w.mem, w.clock).value);
    }
  }

  lemma AcceptConsistent(cfg: Config, d: Database, j: Job, now: int)
    requires Books(cfg, d) && j.fingerprint == FingerprintOf(j.assignment)
    requires Change(AcceptJob(j), d, now).Some?
    ensures var c := Change(AcceptJob(j), d, now).value; forall id | id in c.jobs :: JobConsistent(c, id)
  {
    hide EventsOrdered;
    var c := Change(AcceptJob(j), d, now).value;
    forall id | id in c.jobs ensures JobConsistent(c, id) {
      if id != j.assignment.jobID {
        assert JobConsistent(d, id);
      }
    }
  }

  /** The end of a run that starts with a call and goes on smoothly is a round. */
  lemma RoundOf(cfg: Config, inp: Inputs, ws: seq<World>, ls: seq<Label>, n: nat)
    requires Engine.IsRun(cfg, ws, ls) && n < |ls| && ls[n] == BeginStep(inp) && ws[|ls|].todo.Idle?
    requires forall i | n < i < |ls| :: Liveness.Smooth(ws[i], ls[i])
    ensures Liveness.IsRound(cfg, inp, ws[n..], ls[n..])
  {
    hide Next, Liveness.Smooth, Init;
    var vs, ks := ws[n..], ls[n..];
    forall i | 0 <= i < |ks| ensures Liveness.Moves(cfg, vs, ks, i) {
      assert Next(cfg, ws[n + i], ls[n + i], ws[n + i + 1]);
    }
  }

  lemma RunExtends(cfg: Config, ws: seq<World>, ls: seq<Label>, l: Label, w: World)
    requires Engine.IsRun(cfg, ws, ls) && Next(cfg, ws[|ls|], l, w)
    ensures Engine.IsRun(cfg, ws + [w], ls + [l])
  {
    hide Next, Init;
  }
}
