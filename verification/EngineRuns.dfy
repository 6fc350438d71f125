/** Recovery, replay and integrity, and the theorems about whole runs of the engine. */
module EngineRuns {
  import opened Model
  import opened Journal
  import opened Engine
  import opened EngineInvariant
  import opened EngineProof
  import opened EngineWrites
  import opened EngineTheorems

  // ---------------------------------------------------------------- recovery

  /** What may be pending while the durable job needs recovery. */
  lemma RecoveryTodo(cfg: Config, w: World, j: Job)
    requires Inv(cfg, w) && ActiveJob(w.disk) == Some(j) && j.state == NeedsRecovery
    ensures j.targetSlot != j.oldSlot && j.targetSlot != ""
    ensures !w.todo.CallInstall? && !w.todo.CallReboot?
    ensures w.todo.CallMark? ==>
              && w.dev.booted == j.oldSlot
              && if w.todo.kind == Active then w.todo.slot == j.oldSlot
                 else w.todo.kind == Bad && w.todo.slot == j.targetSlot
  {
    hide Books, Increasing, InstallsOnce, Healthy, Licensed, FindSlot, Evidence;
  }

  lemma RecoverySaves(cfg: Config, c: Scene, j: Job, t: Todo)
    requires Allowed(cfg, t, c) && t.SaveJob? && ActiveJob(c.mem) == Some(j) && j.state == NeedsRecovery
    requires Agrees(cfg, c.mem, c.dev, c.writer, c.probes)
    ensures SameSlots(t.job, j) && SameIdentity(t.job, j)
    ensures t.job.state == NeedsRecovery || (t.job.state == Failed && FailedRight(j, c.dev))
  {
    hide FindSlot;
  }

  predicate StillLocked(j: Job, w': World) {
    ActiveJob(w'.disk).Some?
    && var k := ActiveJob(w'.disk).value;
       k.state == NeedsRecovery && SameIdentity(k, j) && SameSlots(k, j)
  }

  lemma RecoveryWrite(cfg: Config, w: World, spilled: set<string>, outcome: Outcome, j: Job)
    requires Inv(cfg, w) && IsWrite(w.todo) && Enabled(cfg, w, Write(spilled, outcome))
    requires ActiveJob(w.disk) == Some(j) && j.state == NeedsRecovery
    ensures var v := DoWrite(cfg, w, spilled, outcome);
            v.accepted == w.accepted && (StillLocked(j, v) || (ActiveJob(v.disk).None? && FailedRight(j, v.dev)))
  {
    hide Agrees, Books, Increasing, Allowed, InstallsOnce, Healthy, Lag, Journal.Valid, FindSlot, AddEvent, FailedRight,
         WriterOwned, Change, Spills;
    if w.todo.SaveJob? {
      RecoverySave(cfg, w, spilled, outcome, j);
    } else if w.todo.AcceptJob? {
      RecoveryAccept(cfg, w, spilled, outcome);
    } else {
      RecoveryTodoIsJob(cfg, w, j);
    }
  }

  lemma RecoveryTodoIsJob(cfg: Config, w: World, j: Job)
    requires Inv(cfg, w) && ActiveJob(w.disk) == Some(j) && j.state == NeedsRecovery
    ensures !w.todo.StartBootCheck? && !w.todo.ConfirmBoot?
  {
    hide Agrees, Books, Increasing, InstallsOnce, Healthy, Licensed, FindSlot, Program;
  }

  lemma RecoveryAccept(cfg: Config, w: World, spilled: set<string>, outcome: Outcome)
    requires Inv(cfg, w) && w.todo.AcceptJob? && Enabled(cfg, w, Write(spilled, outcome)) && ActiveJob(w.disk).Some?
    ensures DoWrite(cfg, w, spilled, outcome) == w.(todo := Idle)
  {
    hide Agrees, Increasing, Allowed, InstallsOnce, Healthy, Lag, FindSlot, Spills, AddEvent;
    ActiveNotEmpty(cfg, w.disk);
  }

  lemma RecoverySave(cfg: Config, w: World, spilled: set<string>, outcome: Outcome, j: Job)
    requires Inv(cfg, w) && w.todo.SaveJob? && Enabled(cfg, w, Write(spilled, outcome))
    requires ActiveJob(w.disk) == Some(j) && j.state == NeedsRecovery
    ensures var v := DoWrite(cfg, w, spilled, outcome);
            v.accepted == w.accepted && (StillLocked(j, v) || (ActiveJob(v.disk).None? && FailedRight(j, v.dev)))
  {
    hide Agrees, Books, Increasing, Allowed, InstallsOnce, Healthy, Lag, Journal.Valid, FindSlot, AddEvent, FailedRight,
         WriterOwned, Release.HasOS;
    var c := Change(w.todo, w.mem, w.clock);
    if Attempt(cfg, w, c, spilled).Some? {
      RecoverySaves(cfg, SceneOf(w), j, w.todo);
      SavedDatabase(cfg, w.mem, j, w.todo, w.clock, spilled);
    }
  }

  lemma ActiveNotEmpty(cfg: Config, d: Database)
    requires Books(cfg, d) && ActiveJob(d).Some?
    ensures d.active != ""
  {}

  /**
   Once a job needs recovery nothing is installed or rebooted and no job is accepted; slots are marked only by an
   abort on the original slot, and only that abort ends the job.
   */
  lemma RecoveryLocks(cfg: Config, w: World, l: Label, w': World, j: Job)
    requires Inv(cfg, w) && Next(cfg, w, l, w') && ActiveJob(w.disk) == Some(j) && j.state == NeedsRecovery
    ensures j.targetSlot != j.oldSlot && j.targetSlot != ""
    ensures !l.Install? && !l.Reboot? && w'.accepted == w.accepted
    ensures l.Mark? ==>
              && w.dev.booted == j.oldSlot
              && if w.todo.kind == Active then w.todo.slot == j.oldSlot
                 else w.todo.kind == Bad && w.todo.slot == j.targetSlot
    ensures StillLocked(j, w') || (l.Write? && ActiveJob(w'.disk).None? && FailedRight(j, w'.dev))
  {
    hide Inv, DoWrite, Begin, Acked, Attempt, Change, Decide, DecideSubmit, AfterInspect, Marked, FindSlot, FailedRight;
    RecoveryTodo(cfg, w, j);
    if l.Write? {
      RecoveryWrite(cfg, w, l.spilled, l.outcome, j);
    } else if l.Ack? {
      AckKeepsActive(cfg, w, l, w');
    } else {
      DiskIsWritten(cfg, w, l, w');
    }
  }

  lemma AckKeepsActive(cfg: Config, w: World, l: Label, w': World)
    requires Inv(cfg, w) && Next(cfg, w, l, w') && l.Ack?
    ensures ActiveJob(w'.disk) == ActiveJob(w.disk) && w'.accepted == w.accepted
  {
    hide Agrees, Books, Increasing, InstallsOnce, Healthy, Lag, Journal.Valid, FindSlot, Allowed, WriterOwned,
         DropAcked,
         ActiveJob;
    var c := Acked(w.mem, l.sequence);
    if Attempt(cfg, w, c, l.spilled).Some? {
      OtherDatabase(cfg, w.mem, c.value, l.spilled);
    }
  }

  // ---------------------------------------------------------------- replay

  lemma AcceptedBelowHigh(cfg: Config, accepted: seq<Assignment>, high: nat, a: Assignment)
    requires Increasing(cfg, accepted, high) && a in accepted
    ensures cfg.SequenceOf(a) <= high
  {}

  /** The journal write of an assignment that was accepted before changes nothing durable. */
  lemma ReplayChangesNothing(cfg: Config, w: World, l: Label, w': World)
    requires Inv(cfg, w) && Next(cfg, w, l, w') && l.Write? && w.todo.AcceptJob?
    requires w.todo.job.assignment in w.accepted
    ensures w'.disk == w.disk && w'.archive == w.archive && w'.accepted == w.accepted
  {
    InSync(cfg, w);
    hide Books, Agrees, InstallsOnce, Healthy, Lag, Journal.Valid, Spills, FindSlot, AddEvent, Increasing, Allowed;
    AcceptAllowed(cfg, SceneOf(w), w.todo.job);
    AcceptedBelowHigh(cfg, w.accepted, w.disk.highSequence, w.todo.job.assignment);
  }

  /** Submitting a job ID that is still in the hot journal returns that job, or refuses another assignment. */
  lemma SubmitFindsExisting(cfg: Config, w: World, a: Assignment, verified: bool, now: int)
    requires Inv(cfg, w) && a.jobID in w.mem.jobs && IsIdentifier(a.jobID) && a.deviceID == cfg.deviceID
    ensures var r := DecideSubmit(cfg, w.mem, a, verified, now); var j := w.mem.jobs[a.jobID];
            if j.assignment == a then r == Existing(j) else r == Refused
  {
    hide Agrees, InstallsOnce, Healthy, Lag, FindSlot, Increasing, Allowed, IsIdentifier;
    assert JobConsistent(w.mem, a.jobID);
  }

  // ---------------------------------------------------------------- integrity

  /** The integrity check before a write never refuses a job record the engine wants to write. */
  lemma SaveIsValid(cfg: Config, d: Database, j0: Job, t: Todo, now: int, spilled: set<string>)
    requires Books(cfg, d) && ActiveJob(d) == Some(j0) && t.SaveJob? && SameIdentity(t.job, j0)
    requires Change(t, d, now).Some? && Spills(cfg.hotLimit, Change(t, d, now).value, spilled)
    ensures Journal.Valid(cfg.hotLimit, Without(Change(t, d, now).value, spilled))
  {
    hide Spills, EventsOrdered;
    var c := Change(t, d, now).value;
    SavedConsistent(cfg, d, j0, t, now);
    AppendOrdered(d.events, d.eventSequence, c.events[|d.events|]);
    SpillCounts(cfg.hotLimit, c, spilled);
  }

  lemma SavedConsistent(cfg: Config, d: Database, j0: Job, t: Todo, now: int)
    requires Books(cfg, d) && ActiveJob(d) == Some(j0) && t.SaveJob? && SameIdentity(t.job, j0)
    requires Change(t, d, now).Some?
    ensures var c := Change(t, d, now).value;
            && (forall id | id in c.jobs :: JobConsistent(c, id))
            && (c.active != "" ==> c.active in c.jobs && !Terminal(c.jobs[c.active].state))
  {
    var c := Change(t, d, now).value;
    assert JobConsistent(d, d.active) && t.job.assignment.jobID == d.active;
    forall id | id in c.jobs ensures JobConsistent(c, id) {
      assert JobConsistent(d, id);
    }
  }

  lemma AppendOrdered(events: seq<Event>, last: nat, e: Event)
    requires EventsOrdered(events, last) && e.sequence == last + 1
    ensures EventsOrdered(events + [e], last + 1)
  {}

  lemma AcceptIsValid(cfg: Config, d: Database, j: Job, now: int, spilled: set<string>)
    requires Books(cfg, d) && j.state == Accepted && j.fingerprint == FingerprintOf(j.assignment)
    requires j.assignment.jobID != "" && j.assignment.jobID !in d.jobs
    requires var c := Change(AcceptJob(j), d, now); c.Some? && Spills(cfg.hotLimit, c.value, spilled)
    ensures Journal.Valid(cfg.hotLimit, Without(Change(AcceptJob(j), d, now).value, spilled))
  {
    var c := Change(AcceptJob(j), d, now).value;
    forall id | id in c.jobs ensures JobConsistent(c, id) {
      if id != j.assignment.jobID {
        assert JobConsistent(d, id);
      }
    }
    SpillCounts(cfg.hotLimit, c, spilled);
  }

  /** Compaction that takes away exactly the excess leaves at most the limit. */
  lemma SpillCounts(limit: nat, d: Database, spilled: set<string>)
    requires Spills(limit, d, spilled) && |d.events| <= OUTBOX_LIMIT && d.schema == 1
    requires forall id | id in d.jobs :: JobConsistent(d, id)
    requires d.active != "" ==> d.active in d.jobs && !Terminal(d.jobs[d.active].state)
    requires EventsOrdered(d.events, d.eventSequence)
    ensures Journal.Valid(limit, Without(d, spilled))
    ensures |Without(d, spilled).jobs| == if |d.jobs| > limit then limit else |d.jobs|
  {
    assert spilled <= d.jobs.Keys;
    assert (d.jobs - spilled).Keys == d.jobs.Keys - spilled;
    forall id | id in Without(d, spilled).jobs ensures JobConsistent(Without(d, spilled), id) {
      assert JobConsistent(d, id);
    }
  }

  lemma OtherIsValid(cfg: Config, d: Database, c: Database, spilled: set<string>)
    requires Books(cfg, d) && c.jobs == d.jobs && c.active == d.active && c.schema == d.schema
    requires c.highSequence == d.highSequence && c.eventSequence == d.eventSequence
    requires EventsOrdered(c.events, c.eventSequence) && |c.events| <= |d.events|
    requires Spills(cfg.hotLimit, c, spilled)
    ensures Journal.Valid(cfg.hotLimit, Without(c, spilled))
  {
    hide Spills;
    forall id | id in c.jobs ensures JobConsistent(c, id) {
      assert JobConsistent(d, id);
    }
    SpillCounts(cfg.hotLimit, c, spilled);
  }

  /** The integrity check never refuses an update the engine makes: only a full outbox or a failed commit does. */
  lemma WritesAreValid(cfg: Config, w: World, spilled: set<string>, outcome: Outcome)
    requires Inv(cfg, w) && !w.poisoned && Enabled(cfg, w, Write(spilled, outcome))
    requires Change(w.todo, w.mem, w.clock).Some?
    ensures Attempt(cfg, w, Change(w.todo, w.mem, w.clock), spilled).Some?
  {
    hide Agrees, Increasing, InstallsOnce, Healthy, Lag, Journal.Valid, FindSlot, Licensed, Program, Spills,
         WriterOwned;
    if w.todo.SaveJob? {
      LicensedSave(cfg, w.todo, SceneOf(w));
      SaveIsValid(cfg, w.mem, ActiveJob(w.mem).value, w.todo, w.clock, spilled);
    } else if w.todo.AcceptJob? {
      AcceptIsValid(cfg, w.mem, w.todo.job, w.clock, spilled);
    } else {
      EventsOfValid(cfg, w.mem);
      OtherIsValid(cfg, w.mem, Change(w.todo, w.mem, w.clock).value, spilled);
    }
  }

  lemma EventsOfValid(cfg: Config, d: Database)
    requires Books(cfg, d)
    ensures EventsOrdered(d.events, d.eventSequence)
  {}

  lemma AcksAreValid(cfg: Config, w: World, sequence: nat, spilled: set<string>, outcome: Outcome)
    requires Inv(cfg, w) && !w.poisoned && Enabled(cfg, w, Ack(sequence, spilled, outcome))
    requires sequence <= w.mem.eventSequence
    ensures Attempt(cfg, w, Acked(w.mem, sequence), spilled).Some?
  {
    hide Agrees, Increasing, InstallsOnce, Healthy, Lag, Journal.Valid, FindSlot, Allowed, Spills, WriterOwned;
    EventsOfValid(cfg, w.mem);
    DropAckedExact(w.mem.events, w.mem.eventSequence, sequence);
    DropAckedSuffix(w.mem.events, sequence);
    OtherIsValid(cfg, w.mem, Acked(w.mem, sequence).value, spilled);
  }

  /** Compaction forgets no job: every ID stays in the hot journal or the archive. */
  lemma NoJobForgotten(cfg: Config, w: World, l: Label, w': World)
    requires Inv(cfg, w) && Next(cfg, w, l, w')
    ensures w.disk.jobs.Keys + w.archive.Keys <= w'.disk.jobs.Keys + w'.archive.Keys
  {
    hide Inv, Journal.Valid, Spills, Decide, DecideSubmit, Committed', Begin, AfterInspect, Marked, FindSlot, Change,
         Acked;
    InSync(cfg, w);
    if l.Write? {
      var c := Change(w.todo, w.mem, w.clock);
      if Attempt(cfg, w, c, l.spilled).Some? {
        ChangeKeepsJobs(cfg, w.todo, w.mem, w.clock, l.spilled);
        CommitForgetsNothing(w, c.value, l.spilled, l.outcome);
      }
    } else if l.Ack? {
      var c := Acked(w.mem, l.sequence);
      if Attempt(cfg, w, c, l.spilled).Some? {
        AckKeepsJobs(cfg, w.mem, l.sequence, l.spilled);
        CommitForgetsNothing(w, c.value, l.spilled, l.outcome);
      }
    } else {
      DiskIsWritten(cfg, w, l, w');
    }
  }

  /** In every run, no job ID that was ever recorded is forgotten. */
  lemma {:induction false} NoJobEverForgotten(cfg: Config, ws: seq<World>, ls: seq<Label>, i: nat, k: nat)
    requires IsRun(cfg, ws, ls) && i <= k < |ws|
    ensures ws[i].disk.jobs.Keys + ws[i].archive.Keys <= ws[k].disk.jobs.Keys + ws[k].archive.Keys
    decreases k - i
  {
    hide Inv, Next;
    if i < k {
      NoJobEverForgotten(cfg, ws, ls, i, k - 1);
      Reachable(cfg, ws, ls, k - 1);
      assert Next(cfg, ws[k - 1], ls[k - 1], ws[k]);
      NoJobForgotten(cfg, ws[k - 1], ls[k - 1], ws[k]);
    }
  }

  lemma SpilledWasHot(cfg: Config, w: World, spilled: set<string>, outcome: Outcome)
    requires Inv(cfg, w) && Enabled(cfg, w, Write(spilled, outcome)) && Change(w.todo, w.mem, w.clock).Some?
    ensures spilled <= w.mem.jobs.Keys
  {
    hide Agrees, Increasing, InstallsOnce, Healthy, Synced, FindSlot, Program, WriterOwned, Journal.Valid, Licensed;
    var c := Change(w.todo, w.mem, w.clock).value;
    if w.todo.SaveJob? {
      LicensedSave(cfg, w.todo, SceneOf(w));
      DiskBooksOf(cfg, w.mem);
    }
    forall id | id in spilled ensures id in w.mem.jobs {
      assert Spillable(c, id);
    }
  }

  lemma DiskBooksOf(cfg: Config, d: Database)
    requires Books(cfg, d) && ActiveJob(d).Some?
    ensures ActiveJob(d).value.assignment.jobID == d.active
  {
    assert JobConsistent(d, d.active);
  }

  /** An archived record is replaced only when its ID is in the hot journal again and is moved a second time. */
  lemma ArchivedStays(cfg: Config, w: World, l: Label, w': World, id: string)
    requires Inv(cfg, w) && Next(cfg, w, l, w') && id in w.archive
    ensures id in w'.archive
    ensures id !in w.mem.jobs ==> w'.archive[id] == w.archive[id]
    ensures w'.archive[id] != w.archive[id] ==> (l.Write? || l.Ack?) && id in l.spilled
  {
    if l.Write? {
      hide Inv, Journal.Valid, Spills, Change, AfterWrite, Committed';
      if Change(w.todo, w.mem, w.clock).Some? {
        SpilledWasHot(cfg, w, l.spilled, l.outcome);
        ChangeKeepsJobs(cfg, w.todo, w.mem, w.clock, l.spilled);
        CommitArchives(w, Change(w.todo, w.mem, w.clock).value, l.spilled, l.outcome, id);
      }
    } else if l.Ack? {
      hide Inv, Journal.Valid, Spills, Acked, Committed';
      if Acked(w.mem, l.sequence).Some? {
        AckKeepsJobs(cfg, w.mem, l.sequence, l.spilled);
        CommitArchives(w, Acked(w.mem, l.sequence).value, l.spilled, l.outcome, id);
      }
    } else {
      hide Apply, Enabled;
      RestArchives(cfg, w, l);
    }
  }

  lemma CommitArchives(w: World, c: Database, spilled: set<string>, outcome: Outcome, id: string)
    requires spilled <= c.jobs.Keys && id in w.archive
    ensures id in Committed'(w, c, spilled, outcome).archive
    ensures id !in spilled ==> Committed'(w, c, spilled, outcome).archive[id] == w.archive[id]
  {}

  lemma RestArchives(cfg: Config, w: World, l: Label)
    requires Enabled(cfg, w, l) && !l.Write? && !l.Ack?
    ensures Apply(cfg, w, l).archive == w.archive
  {
    hide Decide, DecideSubmit, DecideReboot, DecideAbort, AfterInspect, Marked, FindSlot, IsLatest, InstallMayYield,
         Booted;
  }

  ghost predicate NotReused(ws: seq<World>, id: string, i: nat, k: nat)
    requires i <= k < |ws|
  {
    forall m | i <= m < k :: id !in ws[m].mem.jobs
  }

  /** In every run an archived record stays as it is for as long as its ID is not used again. */
  lemma {:induction false} ArchivedRecordStays(cfg: Config, ws: seq<World>, ls: seq<Label>, i: nat, k: nat, id: string)
    requires IsRun(cfg, ws, ls) && i <= k < |ws| && id in ws[i].archive && NotReused(ws, id, i, k)
    ensures id in ws[k].archive && ws[k].archive[id] == ws[i].archive[id]
    decreases k - i
  {
    hide Inv, Next;
    if i < k {
      assert NotReused(ws, id, i, k - 1);
      ArchivedRecordStays(cfg, ws, ls, i, k - 1, id);
      Reachable(cfg, ws, ls, k - 1);
      assert Next(cfg, ws[k - 1], ls[k - 1], ws[k]);
      ArchivedStays(cfg, ws[k - 1], ls[k - 1], ws[k], id);
    }
  }

  /** The hot journal is within its limit. */
  predicate Compact(cfg: Config, w: World) {
    |w.disk.jobs| <= cfg.hotLimit && |w.mem.jobs| <= cfg.hotLimit
  }

  lemma SpilledIsCompact(limit: nat, d: Database, spilled: set<string>)
    requires Spills(limit, d, spilled)
    ensures |Without(d, spilled).jobs| <= limit
    ensures |d.jobs| <= limit ==> spilled == {} && Without(d, spilled) == d
  {
    assert spilled <= d.jobs.Keys;
    assert (d.jobs - spilled).Keys == d.jobs.Keys - spilled;
    assert |d.jobs.Keys - spilled| == |d.jobs.Keys| - |spilled|;
    if |d.jobs| <= limit {
      assert spilled == {};
      assert d.jobs - spilled == d.jobs;
    }
  }

  lemma CommitIsCompact(cfg: Config, w: World, c: Database, spilled: set<string>, outcome: Outcome)
    requires Compact(cfg, w) && Spills(cfg.hotLimit, c, spilled) && spilled <= c.jobs.Keys
    ensures Compact(cfg, Committed'(w, c, spilled, outcome))
  {
    hide Spills;
    SpilledIsCompact(cfg.hotLimit, c, spilled);
  }

  lemma RestIsCompact(cfg: Config, w: World, l: Label)
    requires Compact(cfg, w) && Enabled(cfg, w, l) && !l.Write? && !l.Ack?
    ensures Compact(cfg, Apply(cfg, w, l))
  {
    hide Decide, DecideSubmit, DecideReboot, DecideAbort, AfterInspect, Marked, FindSlot, IsLatest;
  }

  lemma StaysCompact(cfg: Config, w: World, l: Label, w': World)
    requires Compact(cfg, w) && Next(cfg, w, l, w')
    ensures Compact(cfg, w')
  {
    if l.Write? {
      hide Journal.Valid, Spills, Change, AfterWrite, Committed';
      if Change(w.todo, w.mem, w.clock).Some? {
        ChangeKeepsJobs(cfg, w.todo, w.mem, w.clock, l.spilled);
        CommitIsCompact(cfg, w, Change(w.todo, w.mem, w.clock).value, l.spilled, l.outcome);
      }
    } else if l.Ack? {
      hide Journal.Valid, Spills, Acked, Committed';
      if Acked(w.mem, l.sequence).Some? {
        AckKeepsJobs(cfg, w.mem, l.sequence, l.spilled);
        CommitIsCompact(cfg, w, Acked(w.mem, l.sequence).value, l.spilled, l.outcome);
      }
    } else {
      hide Apply, Enabled;
      RestIsCompact(cfg, w, l);
    }
  }

  /** In every run the hot journal never exceeds its limit after a write. */
  lemma {:induction false} CompactThroughout(cfg: Config, ws: seq<World>, ls: seq<Label>, k: nat)
    requires IsRun(cfg, ws, ls) && k < |ws|
    ensures Compact(cfg, ws[k])
  {
    hide Next, Compact;
    if k == 0 {
      StartsCompact(cfg, ws[0]);
    } else {
      CompactThroughout(cfg, ws, ls, k - 1);
      assert Next(cfg, ws[k - 1], ls[k - 1], ws[k]);
      StaysCompact(cfg, ws[k - 1], ls[k - 1], ws[k]);
    }
  }

  lemma StartsCompact(cfg: Config, w: World)
    requires Init(w)
    ensures Compact(cfg, w)
  {
  }

  lemma ChangeKeepsJobs(cfg: Config, t: Todo, d: Database, now: int, spilled: set<string>)
    requires Change(t, d, now).Some? && Spills(cfg.hotLimit, Change(t, d, now).value, spilled)
    ensures var c := Change(t, d, now).value; spilled <= c.jobs.Keys && d.jobs.Keys <= c.jobs.Keys
  {}

  lemma AckKeepsJobs(cfg: Config, d: Database, sequence: nat, spilled: set<string>)
    requires Acked(d, sequence).Some? && Spills(cfg.hotLimit, Acked(d, sequence).value, spilled)
    ensures Acked(d, sequence).value.jobs == d.jobs && spilled <= d.jobs.Keys
  {}

  lemma CommitForgetsNothing(w: World, c: Database, spilled: set<string>, outcome: Outcome)
    requires spilled <= c.jobs.Keys && w.disk.jobs.Keys <= c.jobs.Keys
    ensures var v := Committed'(w, c, spilled, outcome);
            w.disk.jobs.Keys + w.archive.Keys <= v.disk.jobs.Keys + v.archive.Keys
  {}

  // ---------------------------------------------------------------- one step, one job

  /** The slots recorded for a job in flight are never rewritten. */
  lemma SlotsStayRecorded(cfg: Config, w: World, l: Label, w': World, j: Job, j': Job)
    requires Inv(cfg, w) && Inv(cfg, w') && Next(cfg, w, l, w')
    requires ActiveJob(w.disk) == Some(j) && InFlight(j.state) && ActiveJob(w'.disk) == Some(j')
    ensures SameSlots(j', j) && SameIdentity(j', j) && InFlight(j'.state)
  {
    var id := w'.disk.active;
    if Records(w, w', id) {
      OnlyWritesRecord(cfg, w, l, w', id);
      if w.todo.SaveJob? {
        hide Agrees, Books, Increasing, Allowed, InstallsOnce, Healthy, Lag, FindSlot, Next, WriterOwned, Licensed;
        LicensedSave(cfg, w.todo, SceneOf(w));
        LicensedSlots(cfg, SceneOf(w), j, w.todo.job);
        ActiveNotTerminal(cfg, w'.disk);
      } else {
        AcceptNeedsNoActive(cfg, w, l, w', id);
      }
    } else {
      hide Agrees, Increasing, Allowed, InstallsOnce, Healthy, Lag, FindSlot, Next, Books;
      ActiveNotTerminal(cfg, w'.disk);
      NotTerminalIsActive(cfg, w, w', id, l);
    }
  }

  lemma LicensedSlots(cfg: Config, c: Scene, j0: Job, j: Job)
    requires Licensed(cfg, c, j0, j) && InFlight(j0.state)
    ensures SameSlots(j, j0) && SameIdentity(j, j0) && !BeforeInstall(j.state)
  {}

  lemma ActiveNotTerminal(cfg: Config, d: Database)
    requires Books(cfg, d) && ActiveJob(d).Some?
    ensures !Terminal(ActiveJob(d).value.state)
  {}

  lemma NotTerminalIsActive(cfg: Config, w: World, w': World, id: string, l: Label)
    requires Inv(cfg, w) && id in w'.disk.jobs && !Records(w, w', id) && !Terminal(w'.disk.jobs[id].state)
    ensures id == w.disk.active && w'.disk.jobs[id] == w.disk.jobs[id]
  {
    hide Agrees, Increasing, Allowed, InstallsOnce, Healthy, Lag;
    assert JobConsistent(w.disk, id);
  }

  // ---------------------------------------------------------------- whole runs

  /** The old slot of the durable job in flight is left alone. */
  predicate SparesOldSlot(w: World, w': World) {
    ActiveJob(w.disk).Some? && InFlight(ActiveJob(w.disk).value.state) ==>
      var old' := ActiveJob(w.disk).value.oldSlot; SlotOf(w'.dev, old') == SlotOf(w.dev, old')
  }

  /** A newly journalled verdict describes the device as it is. */
  predicate HonestVerdicts(w: World, w': World) {
    forall id | id in w'.disk.jobs && Records(w, w', id) ::
      var j := w'.disk.jobs[id];
      && (j.state == RolledBack ==> RolledBackRight(j, w'.dev))
      && (j.state == Committed ==>
            if j.release.HasOS() then CommittedRight(j, w'.dev) else w'.installs[j.release.sequence] == 0)
      && (j.state == Failed ==> w'.installs[j.release.sequence] == 0 || FailedRight(j, w'.dev))
  }

  /** An install belongs to a job durably Installing, for the first time. */
  predicate InstallsDurably(w: World, l: Label) {
    l.Install? ==>
      && w.todo.CallInstall? && ActiveJob(w.disk) == Some(w.todo.job) && w.todo.job.state == Installing
      && w.installs[w.todo.job.release.sequence] == 0
  }

  /** A job's target is marked good only on evidence gathered in this boot, inside the job's window. */
  ghost predicate MarksGoodOnEvidence(cfg: Config, w: World, l: Label) {
    l.Mark? && w.todo.CallMark? && w.todo.kind == Good && ActiveJob(w.mem).Some? ==>
      var j := ActiveJob(w.mem).value;
      j.bootID == w.dev.bootID && w.dev.booted == j.targetSlot == w.todo.slot && Evidence(cfg, w.probes, j)
  }

  predicate LockedForRecovery(w: World, l: Label, w': World) {
    ActiveJob(w.disk).Some? && ActiveJob(w.disk).value.state == NeedsRecovery ==>
      var j := ActiveJob(w.disk).value;
      && j.targetSlot != j.oldSlot && j.targetSlot != "" && !l.Install? && !l.Reboot? && w'.accepted == w.accepted
      && (l.Mark? ==> w.dev.booted == j.oldSlot)
      && (StillLocked(j, w') || (l.Write? && ActiveJob(w'.disk).None? && FailedRight(j, w'.dev)))
  }

  ghost predicate Safe(cfg: Config, w: World, l: Label, w': World) {
    && SparesOldSlot(w, w') && HonestVerdicts(w, w') && InstallsDurably(w, l)
    && MarksGoodOnEvidence(cfg, w, l) && LockedForRecovery(w, l, w')
  }

  lemma InstallIsDurable(cfg: Config, w: World)
    requires Inv(cfg, w) && w.todo.CallInstall?
    ensures ActiveJob(w.disk) == Some(w.todo.job) && w.todo.job.state == Installing
    ensures w.installs[w.todo.job.release.sequence] == 0
  {
    hide Books, Increasing, InstallsOnce, Healthy, Licensed, Agrees, Program, Lag;
  }

  lemma InstallIsCalled(cfg: Config, w: World, l: Label, w': World)
    requires Next(cfg, w, l, w') && l.Install?
    ensures w.todo.CallInstall?
  {
    hide Apply;
  }

  lemma StepIsHonest(cfg: Config, w: World, l: Label, w': World)
    requires Inv(cfg, w) && Next(cfg, w, l, w')
    ensures HonestVerdicts(w, w')
  {
    hide Inv, Next, FindSlot, CommittedRight, RolledBackRight, FailedRight, Release.HasOS;
    forall id | id in w'.disk.jobs && Records(w, w', id)
      ensures var j := w'.disk.jobs[id];
              && (j.state == RolledBack ==> RolledBackRight(j, w'.dev))
              && (j.state == Committed ==>
                    if j.release.HasOS() then CommittedRight(j, w'.dev) else w'.installs[j.release.sequence] == 0)
              && (j.state == Failed ==> w'.installs[j.release.sequence] == 0 || FailedRight(j, w'.dev))
    {
      VerdictsMatchDevice(cfg, w, l, w', id);
    }
  }

  lemma StepIsSafe(cfg: Config, w: World, l: Label, w': World)
    requires Inv(cfg, w) && Next(cfg, w, l, w')
    ensures Safe(cfg, w, l, w')
  {
    hide Inv, Next, Evidence, FindSlot, FailedRight, HonestVerdicts;
    StepIsHonest(cfg, w, l, w');
    if ActiveJob(w.disk).Some? {
      var j := ActiveJob(w.disk).value;
      if InFlight(j.state) {
        StepSparesOld(cfg, w, l, w', j);
      }
      if j.state == NeedsRecovery {
        RecoveryLocks(cfg, w, l, w', j);
      }
    }
    if w.todo.CallMark? && w.todo.kind == Good && ActiveJob(w.mem).Some? {
      GoodNeedsEvidence(cfg, w, ActiveJob(w.mem).value);
    }
    if l.Install? {
      InstallIsCalled(cfg, w, l, w');
      InstallIsDurable(cfg, w);
    }
  }

  /** Every step of every run is safe. */
  lemma EveryRunIsSafe(cfg: Config, ws: seq<World>, ls: seq<Label>)
    requires IsRun(cfg, ws, ls)
    ensures forall i | 0 <= i < |ls| :: Safe(cfg, ws[i], ls[i], ws[i + 1])
  {
    hide Safe, Inv, Apply, Enabled;
    forall i | 0 <= i < |ls| ensures Safe(cfg, ws[i], ls[i], ws[i + 1]) {
      Reachable(cfg, ws, ls, i);
      assert Next(cfg, ws[i], ls[i], ws[i + 1]);
      StepIsSafe(cfg, ws[i], ls[i], ws[i + 1]);
    }
  }

  /** Install is called at most once per job, and accepted releases only ever move forward. */
  lemma EveryRunMovesForward(cfg: Config, ws: seq<World>, ls: seq<Label>, k: nat)
    requires IsRun(cfg, ws, ls) && k < |ws|
    ensures forall q :: ws[k].installs[q] <= 1
    ensures forall i, m | 0 <= i < m < |ws[k].accepted| ::
              cfg.SequenceOf(ws[k].accepted[i]) < cfg.SequenceOf(ws[k].accepted[m])
    ensures Journal.Valid(cfg.hotLimit, ws[k].disk)
  {
    Reachable(cfg, ws, ls, k);
    hide IsRun, Healthy, Allowed, Agrees, Lag, WriterOwned;
  }

  ghost predicate InFlightThroughout(ws: seq<World>, i: nat, k: nat)
    requires i <= k < |ws|
  {
    forall m | i <= m <= k :: ActiveJob(ws[m].disk).Some? && InFlight(ActiveJob(ws[m].disk).value.state)
  }

  /**
   From the moment a job is durably Installing until its verdict is durable, however many crashes and reboots lie
   in between, the old slot keeps its version and its flag, and the journal keeps naming the same slots.
   */
  lemma {:induction false} OldSlotThroughout(cfg: Config, ws: seq<World>, ls: seq<Label>, i: nat, k: nat)
    requires IsRun(cfg, ws, ls) && i <= k < |ws| && InFlightThroughout(ws, i, k)
    ensures var j := ActiveJob(ws[i].disk).value; var j' := ActiveJob(ws[k].disk).value;
            SameSlots(j', j) && SameIdentity(j', j) && SlotOf(ws[k].dev, j.oldSlot) == SlotOf(ws[i].dev, j.oldSlot)
    decreases k - i
  {
    hide Inv, Apply, Enabled, FindSlot;
    if i < k {
      assert InFlightThroughout(ws, i, k - 1);
      OldSlotThroughout(cfg, ws, ls, i, k - 1);
      Reachable(cfg, ws, ls, k - 1);
      Reachable(cfg, ws, ls, k);
      assert Next(cfg, ws[k - 1], ls[k - 1], ws[k]);
      var j, j' := ActiveJob(ws[k - 1].disk).value, ActiveJob(ws[k].disk).value;
      StepSparesOld(cfg, ws[k - 1], ls[k - 1], ws[k], j);
      SlotsStayRecorded(cfg, ws[k - 1], ls[k - 1], ws[k], j, j');
    }
  }

  lemma ActiveFiled(cfg: Config, d: Database)
    requires Books(cfg, d) && ActiveJob(d).Some?
    ensures d.active in d.jobs && ActiveJob(d).value == d.jobs[d.active]
    ensures d.active == d.jobs[d.active].assignment.jobID
  {
    assert JobConsistent(d, d.active);
  }

  /** The health window of a job, once open, is never restarted: not by crashes, agent restarts or further boots. */
  lemma {:induction false} WindowThroughout(cfg: Config, ws: seq<World>, ls: seq<Label>, i: nat, k: nat)
    requires IsRun(cfg, ws, ls) && i <= k < |ws| && InFlightThroughout(ws, i, k)
    requires ActiveJob(ws[i].disk).value.healthStarted.Some?
    ensures ActiveJob(ws[k].disk).value.healthStarted == ActiveJob(ws[i].disk).value.healthStarted
    decreases k - i
  {
    hide Inv, Apply, Enabled, FindSlot, ActiveJob, Books;
    if i < k {
      assert InFlightThroughout(ws, i, k - 1);
      WindowThroughout(cfg, ws, ls, i, k - 1);
      Reachable(cfg, ws, ls, k - 1);
      Reachable(cfg, ws, ls, k);
      assert Next(cfg, ws[k - 1], ls[k - 1], ws[k]);
      var j, j' := ActiveJob(ws[k - 1].disk).value, ActiveJob(ws[k].disk).value;
      SlotsStayRecorded(cfg, ws[k - 1], ls[k - 1], ws[k], j, j');
      DiskBooks(cfg, ws[k - 1]);
      DiskBooks(cfg, ws[k]);
      ActiveFiled(cfg, ws[k - 1].disk);
      ActiveFiled(cfg, ws[k].disk);
      WindowOpensOnce(cfg, ws[k - 1], ls[k - 1], ws[k], j, ws[k - 1].disk.active);
    }
  }

  lemma DiskBooks(cfg: Config, w: World)
    requires Inv(cfg, w)
    ensures Books(cfg, w.disk)
  {
    hide Agrees, Books, Increasing, InstallsOnce, Healthy, Synced, Allowed, WriterOwned;
  }

  lemma AcceptedGrows(cfg: Config, w: World, l: Label, w': World)
    requires Next(cfg, w, l, w')
    ensures w.accepted <= w'.accepted
  {
    hide Journal.Valid, Spills, Decide, DecideSubmit, DecideReboot, DecideAbort, AfterInspect, Marked, FindSlot, Change,
         Acked, AfterWrite, IsLatest, Without, Archived;
  }

  lemma {:induction false} AcceptedStays(cfg: Config, ws: seq<World>, ls: seq<Label>, i: nat, k: nat)
    requires IsRun(cfg, ws, ls) && i <= k < |ws|
    ensures ws[i].accepted <= ws[k].accepted
    decreases k - i
  {
    hide Next;
    if i < k {
      AcceptedStays(cfg, ws, ls, i, k - 1);
      assert Next(cfg, ws[k - 1], ls[k - 1], ws[k]);
      AcceptedGrows(cfg, ws[k - 1], ls[k - 1], ws[k]);
    }
  }

  /**
   In every run an assignment makes at most one job: once it was accepted, however long ago and whatever became of the
   job, no write of its acceptance changes anything durable, and no assignment is ever accepted twice.
   */
  lemma ReplayMakesNoJob(cfg: Config, ws: seq<World>, ls: seq<Label>, i: nat, k: nat)
    requires IsRun(cfg, ws, ls) && i <= k < |ls|
    ensures ls[k].Write? && ws[k].todo.AcceptJob? && ws[k].todo.job.assignment in ws[i].accepted ==>
              ws[k + 1].disk == ws[k].disk && ws[k + 1].archive == ws[k].archive && ws[k + 1].accepted == ws[k].accepted
    ensures forall a, b | 0 <= a < b < |ws[k].accepted| :: ws[k].accepted[a] != ws[k].accepted[b]
  {
    hide Inv, Next;
    Reachable(cfg, ws, ls, k);
    AcceptedStays(cfg, ws, ls, i, k);
    EveryRunMovesForward(cfg, ws, ls, k);
    assert Next(cfg, ws[k], ls[k], ws[k + 1]);
    assert forall a, b | 0 <= a < b < |ws[k].accepted| ::
             cfg.SequenceOf(ws[k].accepted[a]) < cfg.SequenceOf(ws[k].accepted[b]);
    if ls[k].Write? && ws[k].todo.AcceptJob? && ws[k].todo.job.assignment in ws[i].accepted {
      ReplayChangesNothing(cfg, ws[k], ls[k], ws[k + 1]);
    }
  }

  // ---------------------------------------------------------------- devices with a past

  /**
   A journal that was not written by this run, such as an imported one: filed by ID, decoded the same way, and in
   agreement with the device about the job it may hold in the middle of.
   */
  ghost predicate Starts(cfg: Config, w: World) {
    && Books(cfg, w.disk) && Agrees(cfg, w.disk, w.dev, false, []) && w.mem == w.disk && !w.poisoned
    && w.healthySince.None? && w.todo.Idle? && w.dev.bootID > 0 && !w.writer
    && w.installs == multiset{} && w.probes == [] && w.accepted == []
  }

  lemma InitStarts(cfg: Config, w: World)
    requires Init(w)
    ensures Starts(cfg, w)
  {}

  lemma StartsInv(cfg: Config, w: World)
    requires Starts(cfg, w)
    ensures Inv(cfg, w)
  {
    hide Agrees, Books;
  }

  /** A run from such a start. */
  ghost predicate IsRunFrom(cfg: Config, ws: seq<World>, ls: seq<Label>) {
    && |ws| == |ls| + 1 && Starts(cfg, ws[0])
    && forall i | 0 <= i < |ls| :: Next(cfg, ws[i], ls[i], ws[i + 1])
  }

  lemma {:induction false} ReachableFrom(cfg: Config, ws: seq<World>, ls: seq<Label>, k: nat)
    requires IsRunFrom(cfg, ws, ls) && k < |ws|
    ensures Inv(cfg, ws[k])
  {
    hide Inv, Apply, Enabled, Starts;
    if k == 0 {
      StartsInv(cfg, ws[0]);
    } else {
      ReachableFrom(cfg, ws, ls, k - 1);
      assert Next(cfg, ws[k - 1], ls[k - 1], ws[k]);
      Keep(cfg, ws[k - 1], ls[k - 1]);
    }
  }

  /** Every step of every run is safe, also when the journal was not empty at first. */
  lemma EveryLaterRunIsSafe(cfg: Config, ws: seq<World>, ls: seq<Label>)
    requires IsRunFrom(cfg, ws, ls)
    ensures forall i | 0 <= i < |ls| :: Safe(cfg, ws[i], ls[i], ws[i + 1])
    ensures forall k, q | 0 <= k < |ws| :: ws[k].installs[q] <= 1
    ensures forall k | 0 <= k < |ws| :: Journal.Valid(cfg.hotLimit, ws[k].disk)
  {
    hide Safe, Inv, Apply, Enabled, Starts, Journal.Valid;
    forall i | 0 <= i < |ls| ensures Safe(cfg, ws[i], ls[i], ws[i + 1]) {
      ReachableFrom(cfg, ws, ls, i);
      assert Next(cfg, ws[i], ls[i], ws[i + 1]);
      StepIsSafe(cfg, ws[i], ls[i], ws[i + 1]);
    }
    forall k | 0 <= k < |ws| ensures Journal.Valid(cfg.hotLimit, ws[k].disk) && forall q :: ws[k].installs[q] <= 1 {
      ReachableFrom(cfg, ws, ls, k);
      InstalledOnce(cfg, ws[k]);
    }
  }

  lemma InstalledOnce(cfg: Config, w: World)
    requires Inv(cfg, w)
    ensures Journal.Valid(cfg.hotLimit, w.disk) && forall q :: w.installs[q] <= 1
  {
    hide Agrees, Increasing, Healthy, Synced, Allowed, WriterOwned, Journal.Valid;
  }
}
