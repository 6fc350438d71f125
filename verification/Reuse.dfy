/**
 A used job ID comes back (internal/ota/engine.go, internal/ota/store.go). Runs in which jobs are accepted one after the
 other, each running out of time before its installation: the hot journal is then a window over the latest jobs and
 older ones are in the archive. An ID that has left the window is free again.
 */
module Reuse {
  import opened Model
  import opened Journal
  import opened Engine
  import opened EngineInvariant
  import EngineWrites
  import EngineRuns
  import JobIdentity
  import opened HappyPath

  /** Between jobs: nothing active, nothing to send, only jobs that failed. */
  ghost predicate Rest(cfg: Config, w: World) {
    && EngineInvariant.Inv(cfg, w) && !w.poisoned && w.todo.Idle? && w.mem.active == "" && w.mem.events == []
    && |w.mem.jobs| <= cfg.hotLimit && forall id | id in w.mem.jobs :: w.mem.jobs[id].state == Failed
  }

  /** An assignment that is admissible until its deadline. */
  predicate Fit(cfg: Config, a: Assignment) {
    && IsIdentifier(a.jobID) && a.deviceID == cfg.deviceID
    && a.notBefore < a.deadline <= cfg.decode(a.release.payload).expires
  }

  function JobFor(cfg: Config, a: Assignment, state: JobState, updated: int): Job {
    Job(a, cfg.decode(a.release.payload), FingerprintOf(a), state, "", "", "", 0, None, false, false, false, updated)
  }

  /** The jobs when `a` has just been accepted, before compaction. */
  function WithJob(cfg: Config, d: Database, a: Assignment): map<string, Job> {
    d.jobs[a.jobID := JobFor(cfg, a, Accepted, a.deadline - 1)]
  }

  /** The archive rows of the named jobs. */
  function Rows(jobs: map<string, Job>, ids: set<string>): map<string, Job> {
    map id | id in jobs && id in ids :: jobs[id]
  }

  /** `spilled` is what compaction may take when `a` is accepted. */
  ghost predicate MayGo(cfg: Config, d: Database, a: Assignment, spilled: set<string>) {
    Spills(cfg.hotLimit, d.(jobs := WithJob(cfg, d, a), active := a.jobID), spilled)
  }

  // ---------------------------------------------------------------- one job

  /** A pending write that succeeds. */
  lemma DurableWrite(cfg: Config, w: World, spilled: set<string>) returns (v: World)
    requires EngineInvariant.Inv(cfg, w) && !w.poisoned && IsWrite(w.todo)
    requires var c := Change(w.todo, w.mem, w.clock); c.Some? && Spills(cfg.hotLimit, c.value, spilled)
    ensures var c := Change(w.todo, w.mem, w.clock).value;
            && spilled <= c.jobs.Keys
            && v == w.(mem := Without(c, spilled), disk := Without(c, spilled),
                       archive := Archived(w.archive, c, spilled),
                       todo := AfterWrite(w.todo, w.clock),
                       accepted := if w.todo.AcceptJob? then w.accepted + [w.todo.job.assignment] else w.accepted)
    ensures Next(cfg, w, Write(spilled, Durable), v) && EngineInvariant.Inv(cfg, v)
  {
    hide EngineInvariant.Inv, Journal.Valid, Change, Without, Archived, AfterWrite, Spills;
    EngineRuns.ChangeKeepsJobs(cfg, w.todo, w.mem, w.clock, spilled);
    EngineRuns.WritesAreValid(cfg, w, spilled, Durable);
    var m := Write(spilled, Durable);
    v := Apply(cfg, w, m);
    EngineWrites.Keep(cfg, w, m);
  }

  lemma Accepts(cfg: Config, w: World, a: Assignment, spilled: set<string>) returns (v: World)
    requires Rest(cfg, w) && Fit(cfg, a) && a.jobID !in w.mem.jobs && cfg.SequenceOf(a) > w.mem.highSequence
    requires MayGo(cfg, w.mem, a, spilled) && w.clock == a.deadline - 1
    ensures Leads(cfg, w, v) && EngineInvariant.Inv(cfg, v) && !v.poisoned && v.todo.Idle?
    ensures v.mem.jobs == WithJob(cfg, w.mem, a) - spilled && v.mem.active == a.jobID && |v.mem.events| == 1
    ensures v.mem.highSequence == cfg.SequenceOf(a)
    ensures v.archive == w.archive + Rows(w.mem.jobs, spilled)
    ensures v.accepted == w.accepted + [a] && v.clock == w.clock && spilled <= w.mem.jobs.Keys
  {
    hide EngineInvariant.Inv, Leads, Next, IsIdentifier, Spills, Change, Archived, Rows;
    var l := Submit(a, true, a.deadline - 1);
    var u := w.(todo := AcceptJob(JobFor(cfg, a, Accepted, a.deadline - 1)));
    SubmitStep(cfg, w, a);
    AcceptChange(cfg, w, a);
    var c := Change(u.todo, u.mem, u.clock).value;
    SameSpills(cfg, w.mem, a, c, spilled);
    v := DurableWrite(cfg, u, spilled);
    MovedToArchive(cfg, w, a, c, spilled);
    Stays(cfg, w);
    HappyPath.Then(cfg, w, w, l, u);
    HappyPath.Then(cfg, w, u, Write(spilled, Durable), v);
  }

  lemma AcceptChange(cfg: Config, w: World, a: Assignment)
    requires w.mem.active == "" && w.mem.events == [] && cfg.SequenceOf(a) > w.mem.highSequence
    ensures var c := Change(AcceptJob(JobFor(cfg, a, Accepted, a.deadline - 1)), w.mem, w.clock);
            && c.Some? && c.value.jobs == WithJob(cfg, w.mem, a) && c.value.active == a.jobID
            && |c.value.events| == 1 && c.value.highSequence == cfg.SequenceOf(a)
  {
  }

  lemma MovedToArchive(cfg: Config, w: World, a: Assignment, c: Database, spilled: set<string>)
    requires c.jobs == WithJob(cfg, w.mem, a) && a.jobID !in w.mem.jobs && spilled <= w.mem.jobs.Keys
    requires spilled <= c.jobs.Keys
    ensures Archived(w.archive, c, spilled) == w.archive + Rows(w.mem.jobs, spilled)
  {
  }

  lemma SubmitStep(cfg: Config, w: World, a: Assignment)
    requires Rest(cfg, w) && Fit(cfg, a) && a.jobID !in w.mem.jobs && cfg.SequenceOf(a) > w.mem.highSequence
    ensures var u := w.(todo := AcceptJob(JobFor(cfg, a, Accepted, a.deadline - 1)));
            Next(cfg, w, Submit(a, true, a.deadline - 1), u) && EngineInvariant.Inv(cfg, u)
  {
    hide EngineInvariant.Inv, IsIdentifier;
    EngineWrites.Keep(cfg, w, Submit(a, true, a.deadline - 1));
  }

  lemma SameSpills(cfg: Config, d: Database, a: Assignment, c: Database, spilled: set<string>)
    requires MayGo(cfg, d, a, spilled) && c.jobs == WithJob(cfg, d, a) && c.active == a.jobID
    ensures Spills(cfg.hotLimit, c, spilled) && spilled <= d.jobs.Keys
  {
    var e := d.(jobs := WithJob(cfg, d, a), active := a.jobID);
    assert forall id :: Spillable(c, id) <==> Spillable(e, id);
  }

  /** The active job's time runs out: the next call records it as failed. */
  lemma Expires(cfg: Config, w: World, a: Assignment) returns (v: World)
    requires w.clock == a.deadline
    requires EngineInvariant.Inv(cfg, w) && !w.poisoned && w.todo.Idle? && w.mem.active == a.jobID
    requires |w.mem.events| == 1
    requires a.jobID in w.mem.jobs && w.mem.jobs[a.jobID] == JobFor(cfg, a, Accepted, a.deadline - 1)
    requires |w.mem.jobs| <= cfg.hotLimit
    requires forall id | id in w.mem.jobs :: id == a.jobID || w.mem.jobs[id].state == Failed
    ensures Leads(cfg, w, v) && EngineInvariant.Inv(cfg, v) && !v.poisoned && v.todo.Idle?
    ensures v.mem.jobs == w.mem.jobs[a.jobID := JobFor(cfg, a, Failed, w.clock)] && v.mem.active == ""
    ensures v.mem.highSequence == w.mem.highSequence && v.archive == w.archive && v.accepted == w.accepted
    ensures v.clock == w.clock
  {
    hide EngineInvariant.Inv, Leads, Next, Spills, Change, Archived;
    var l := BeginStep(Fine(a.deadline));
    var j := JobFor(cfg, a, Failed, a.deadline - 1);
    var u := w.(todo := SaveJob(j, Stop), healthyFrom := if w.healthySince.None? then |w.probes| else w.healthyFrom);
    ExpireStep(cfg, w, a);
    ExpireChange(cfg, w, a);
    var c := Change(u.todo, u.mem, u.clock).value;
    NothingToSpill(cfg.hotLimit, c);
    v := DurableWrite(cfg, u, {});
    NothingArchived(w.archive, c);
    Stays(cfg, w);
    HappyPath.Then(cfg, w, w, l, u);
    HappyPath.Then(cfg, w, u, Write({}, Durable), v);
  }

  lemma ExpireChange(cfg: Config, w: World, a: Assignment)
    requires w.mem.active == a.jobID && a.jobID in w.mem.jobs && |w.mem.events| == 1
    ensures var c := Change(SaveJob(JobFor(cfg, a, Failed, a.deadline - 1), Stop), w.mem, w.clock);
            && c.Some? && c.value.jobs == w.mem.jobs[a.jobID := JobFor(cfg, a, Failed, w.clock)] && c.value.active == ""
            && |c.value.jobs| == |w.mem.jobs| && c.value.highSequence == w.mem.highSequence
  {
    var jobs := w.mem.jobs[a.jobID := JobFor(cfg, a, Failed, w.clock)];
    assert jobs.Keys == w.mem.jobs.Keys;
    assert |jobs| == |jobs.Keys| == |w.mem.jobs.Keys|;
  }

  lemma NothingArchived(archive: map<string, Job>, c: Database)
    ensures Archived(archive, c, {}) == archive
  {
  }

  lemma ExpireStep(cfg: Config, w: World, a: Assignment)
    requires EngineInvariant.Inv(cfg, w) && w.todo.Idle? && w.mem.active == a.jobID
    requires a.jobID in w.mem.jobs && w.mem.jobs[a.jobID] == JobFor(cfg, a, Accepted, a.deadline - 1)
    requires forall id | id in w.mem.jobs :: id == a.jobID || w.mem.jobs[id].state == Failed
    ensures var u := w.(todo := SaveJob(JobFor(cfg, a, Failed, a.deadline - 1), Stop),
                        healthyFrom := if w.healthySince.None? then |w.probes| else w.healthyFrom);
            Next(cfg, w, BeginStep(Fine(a.deadline)), u) && EngineInvariant.Inv(cfg, u)
  {
    hide EngineInvariant.Inv, StepVerified, StepInstalled, StepNormalBoot;
    EngineWrites.Keep(cfg, w, BeginStep(Fine(a.deadline)));
  }

  /** The outbox is emptied. */
  lemma Clears(cfg: Config, w: World) returns (v: World)
    requires EngineInvariant.Inv(cfg, w) && !w.poisoned && w.todo.Idle? && |w.mem.jobs| <= cfg.hotLimit
    ensures Leads(cfg, w, v) && EngineInvariant.Inv(cfg, v) && !v.poisoned && v.todo.Idle?
    ensures v.mem == w.mem.(events := []) && v.archive == w.archive && v.accepted == w.accepted && v.clock == w.clock
  {
    hide EngineInvariant.Inv, Leads, Next, Journal.Valid, Spills, DropAcked;
    var last := w.mem.eventSequence;
    AllAcked(cfg, w);
    var c := Acked(w.mem, last).value;
    NothingToSpill(cfg.hotLimit, c);
    var l := Ack(last, {}, Durable);
    EngineRuns.AcksAreValid(cfg, w, last, {}, Durable);
    v := Apply(cfg, w, l);
    EngineWrites.Keep(cfg, w, l);
    assert v.archive == w.archive;
    Stays(cfg, w);
    IsNext(cfg, w, l);
    HappyPath.Then(cfg, w, w, l, v);
  }

  /** Time passes. */
  lemma Passes(cfg: Config, w: World, later: int) returns (v: World)
    requires EngineInvariant.Inv(cfg, w) && w.clock <= later
    ensures v == w.(clock := later) && Leads(cfg, w, v) && EngineInvariant.Inv(cfg, v)
  {
    hide EngineInvariant.Inv, Leads, Next;
    v := w.(clock := later);
    Ticks(cfg, w, later);
    Stays(cfg, w);
    HappyPath.Then(cfg, w, w, SetClock(later), v);
  }

  lemma AllAcked(cfg: Config, w: World)
    requires EngineInvariant.Inv(cfg, w)
    ensures DropAcked(w.mem.events, w.mem.eventSequence) == []
  {
    hide Agrees, Increasing, InstallsOnce, Healthy, Synced, Allowed, WriterOwned, JobConsistent;
    DropAckedExact(w.mem.events, w.mem.eventSequence, w.mem.eventSequence);
    assert forall e :: e !in DropAcked(w.mem.events, w.mem.eventSequence);
    Empty(DropAcked(w.mem.events, w.mem.eventSequence));
  }

  lemma Empty(events: seq<Event>)
    ensures events == [] || exists e :: e in events
  {
    if events != [] {
      assert events[0] in events;
    }
  }

  /** One job from its acceptance, a second before its deadline, to its failure. */
  lemma OneJob(cfg: Config, w: World, a: Assignment, spilled: set<string>) returns (v: World)
    requires Rest(cfg, w) && Fit(cfg, a) && a.jobID !in w.mem.jobs && cfg.SequenceOf(a) > w.mem.highSequence
    requires MayGo(cfg, w.mem, a, spilled) && w.clock < a.deadline
    ensures Leads(cfg, w, v) && Rest(cfg, v) && spilled <= w.mem.jobs.Keys
    ensures v.mem.jobs == (w.mem.jobs - spilled)[a.jobID := JobFor(cfg, a, Failed, a.deadline)]
    ensures v.archive == w.archive + Rows(w.mem.jobs, spilled)
    ensures v.mem.highSequence == cfg.SequenceOf(a) && v.accepted == w.accepted + [a] && v.clock == a.deadline
  {
    hide EngineInvariant.Inv, Leads, Fit, MayGo, JobFor, WithJob, Rows;
    var u0 := Passes(cfg, w, a.deadline - 1);
    var u1 := Accepts(cfg, u0, a, spilled);
    Joined(cfg, w, u0, u1);
    CompactAfter(cfg, w.mem, a, spilled);
    OthersFailed(cfg, w.mem, a, spilled, a.deadline);
    var u2 := Passes(cfg, u1, a.deadline);
    Joined(cfg, w, u1, u2);
    var u3 := Expires(cfg, u2, a);
    Joined(cfg, w, u2, u3);
    v := Clears(cfg, u3);
    Joined(cfg, w, u3, v);
  }

  /** The jobs right after the acceptance of `a`, and after its failure. */
  lemma OthersFailed(cfg: Config, d: Database, a: Assignment, spilled: set<string>, now: int)
    requires a.jobID !in d.jobs && a.jobID !in spilled && forall id | id in d.jobs :: d.jobs[id].state == Failed
    ensures var jobs := WithJob(cfg, d, a) - spilled;
            && a.jobID in jobs && jobs[a.jobID] == JobFor(cfg, a, Accepted, a.deadline - 1)
            && forall id | id in jobs :: id == a.jobID || jobs[id].state == Failed
    ensures var jobs := (WithJob(cfg, d, a) - spilled)[a.jobID := JobFor(cfg, a, Failed, now)];
            && jobs == (d.jobs - spilled)[a.jobID := JobFor(cfg, a, Failed, now)]
            && |jobs| == |WithJob(cfg, d, a) - spilled| && forall id | id in jobs :: jobs[id].state == Failed
  {
    Replaced(d.jobs, a.jobID, JobFor(cfg, a, Accepted, a.deadline - 1), JobFor(cfg, a, Failed, now), spilled);
  }

  lemma Replaced(jobs: map<string, Job>, id: string, first: Job, second: Job, spilled: set<string>)
    requires id !in jobs && id !in spilled
    requires second.state == Failed && forall x | x in jobs :: jobs[x].state == Failed
    ensures var one := jobs[id := first] - spilled;
            && id in one && one[id] == first && forall x | x in one :: x == id || one[x].state == Failed
    ensures var one := jobs[id := first] - spilled; var two := one[id := second];
            && two == (jobs - spilled)[id := second] && |two| == |one| && forall x | x in two :: two[x].state == Failed
  {
    var one := jobs[id := first] - spilled;
    var two := one[id := second];
    assert two.Keys == one.Keys;
    assert |two| == |two.Keys| == |one.Keys|;
  }

  lemma CompactAfter(cfg: Config, d: Database, a: Assignment, spilled: set<string>)
    requires MayGo(cfg, d, a, spilled) && a.jobID !in d.jobs
    ensures |WithJob(cfg, d, a) - spilled| <= cfg.hotLimit && a.jobID !in spilled
  {
    EngineRuns.SpilledIsCompact(cfg.hotLimit, d.(jobs := WithJob(cfg, d, a), active := a.jobID), spilled);
  }

  // ---------------------------------------------------------------- many jobs

  /** Assignments that can be accepted one after the other: an ID is used again only after `hotLimit` others. */
  ghost predicate Series(cfg: Config, xs: seq<Assignment>) {
    && (forall i | 0 <= i < |xs| :: Fit(cfg, xs[i]) && cfg.SequenceOf(xs[i]) > 0)
    && (forall i, k | 0 <= i < k < |xs| ::
        cfg.SequenceOf(xs[i]) < cfg.SequenceOf(xs[k]) && xs[i].deadline < xs[k].deadline)
    && (forall i, k | 0 <= i < k < |xs| && k - i <= cfg.hotLimit :: xs[i].jobID != xs[k].jobID)
  }

  /** The first of the latest `hotLimit` out of `n`. */
  function Oldest(cfg: Config, n: nat): nat {
    if n > cfg.hotLimit then n - cfg.hotLimit else 0
  }

  ghost predicate Among(xs: seq<Assignment>, lo: nat, hi: nat, id: string)
    requires hi <= |xs|
  {
    exists i | lo <= i < hi :: xs[i].jobID == id
  }

  /** Exactly the jobs `lo .. hi` are there, in the order of their age, none younger than `clock`. */
  ghost predicate Holds(jobs: map<string, Job>, clock: int, xs: seq<Assignment>, lo: nat, hi: nat)
    requires hi <= |xs|
  {
    && (forall i | lo <= i < hi :: xs[i].jobID in jobs && jobs[xs[i].jobID].assignment == xs[i])
    && (forall id | id in jobs :: Among(xs, lo, hi, id) && jobs[id].updated <= clock)
    && (forall i, k | lo <= i < k < hi :: jobs[xs[i].jobID].updated < jobs[xs[k].jobID].updated)
  }

  /** Jobs before `n` are in the archive; of several with one ID, the latest. */
  ghost predicate Shelved(archive: map<string, Job>, xs: seq<Assignment>, n: nat)
    requires n <= |xs|
  {
    forall i | 0 <= i < n && LastUse(xs, i, n) :: xs[i].jobID in archive && archive[xs[i].jobID].assignment == xs[i]
  }

  predicate LastUse(xs: seq<Assignment>, i: nat, n: nat)
    requires i < n <= |xs|
  {
    forall k | i < k < n :: xs[k].jobID != xs[i].jobID
  }

  /** The world after the first `n` of the series: a window of hot jobs, the others shelved. */
  ghost predicate Slid(cfg: Config, w: World, xs: seq<Assignment>, n: nat)
    requires n <= |xs|
  {
    && Rest(cfg, w) && w.accepted == xs[..n] && |w.mem.jobs| == n - Oldest(cfg, n)
    && w.mem.highSequence == (if n == 0 then 0 else cfg.SequenceOf(xs[n - 1]))
       && (n < |xs| ==> w.clock < xs[n].deadline)
    && Holds(w.mem.jobs, w.clock, xs, Oldest(cfg, n), n)
    && Shelved(w.archive, xs, Oldest(cfg, n))
  }

  /** What compaction takes when the next job of the series is accepted. */
  function Leaver(cfg: Config, xs: seq<Assignment>, n: nat): set<string>
    requires n <= |xs|
  {
    if 0 < cfg.hotLimit <= n then {xs[n - cfg.hotLimit].jobID} else {}
  }

  lemma NewID(cfg: Config, jobs: map<string, Job>, clock: int, xs: seq<Assignment>, n: nat)
    requires Series(cfg, xs) && n < |xs| && Holds(jobs, clock, xs, Oldest(cfg, n), n)
    ensures xs[n].jobID !in jobs
  {
    hide Fit;
    assert forall i | Oldest(cfg, n) <= i < n :: xs[i].jobID != xs[n].jobID;
    assert !Among(xs, Oldest(cfg, n), n, xs[n].jobID);
  }

  lemma FirstIsOldest(jobs: map<string, Job>, clock: int, xs: seq<Assignment>, lo: nat, hi: nat, id: string)
    requires hi <= |xs| && Holds(jobs, clock, xs, lo, hi) && lo < hi && id in jobs
    ensures xs[lo].jobID in jobs && jobs[xs[lo].jobID].updated <= jobs[id].updated
  {
    assert Among(xs, lo, hi, id);
    var i :| lo <= i < hi && xs[i].jobID == id;
  }

  lemma SpillOne(limit: nat, d: Database, id: string)
    requires |d.jobs| == limit + 1 && Spillable(d, id)
    requires forall b | Spillable(d, b) :: d.jobs[id].updated <= d.jobs[b].updated
    ensures Spills(limit, d, {id})
  {
  }

  lemma LeaverMayGo(cfg: Config, d: Database, clock: int, xs: seq<Assignment>, n: nat)
    requires n < |xs| && Holds(d.jobs, clock, xs, Oldest(cfg, n), n) && |d.jobs| == n - Oldest(cfg, n)
    requires cfg.hotLimit >= 1
    requires xs[n].jobID !in d.jobs && forall id | id in d.jobs :: d.jobs[id].state == Failed
    ensures MayGo(cfg, d, xs[n], Leaver(cfg, xs, n))
  {
    hide JobFor, Holds, Spills;
    var id, lo := xs[n].jobID, Oldest(cfg, n);
    var e := d.(jobs := WithJob(cfg, d, xs[n]), active := id);
    assert e.jobs.Keys == d.jobs.Keys + {id};
    assert |e.jobs| == |e.jobs.Keys| == |d.jobs.Keys| + 1;
    if n >= cfg.hotLimit {
      forall b | Spillable(e, b)
        ensures b in d.jobs && xs[lo].jobID in d.jobs && d.jobs[xs[lo].jobID].updated <= d.jobs[b].updated
      {
        FirstIsOldest(d.jobs, clock, xs, lo, n, b);
      }
      HeldAtFirst(d.jobs, clock, xs, lo, n);
      SpillOne(cfg.hotLimit, e, xs[lo].jobID);
    } else {
      NothingToSpill(cfg.hotLimit, e);
    }
  }

  lemma HeldAtFirst(jobs: map<string, Job>, clock: int, xs: seq<Assignment>, lo: nat, hi: nat)
    requires hi <= |xs| && Holds(jobs, clock, xs, lo, hi) && lo < hi
    ensures xs[lo].jobID in jobs && jobs[xs[lo].jobID].assignment == xs[lo]
  {
    hide Among;
  }

  /** `next` is `jobs` without the leaver and with the new job. */
  ghost predicate Moved(jobs: map<string, Job>, next: map<string, Job>, gone: set<string>, id: string, j: Job) {
    && id in next && next[id] == j
    && (forall x | x in next && x != id :: x in jobs && next[x] == jobs[x] && x !in gone)
    && (forall x | x in jobs && x !in gone && x != id :: x in next)
  }

  lemma WindowKeeps(cfg: Config, jobs: map<string, Job>, next: map<string, Job>, clock: int, xs: seq<Assignment>,
                    n: nat, j: Job)
    requires Series(cfg, xs) && n < |xs| && cfg.hotLimit >= 1 && Holds(jobs, clock, xs, Oldest(cfg, n), n)
    requires Moved(jobs, next, Leaver(cfg, xs, n), xs[n].jobID, j)
    ensures forall i | Oldest(cfg, n + 1) <= i < n :: xs[i].jobID in next && next[xs[i].jobID] == jobs[xs[i].jobID]
  {
    hide Fit, Among;
    forall i | Oldest(cfg, n + 1) <= i < n ensures xs[i].jobID in next && next[xs[i].jobID] == jobs[xs[i].jobID] {
      assert xs[i].jobID != xs[n].jobID;
      assert xs[i].jobID !in Leaver(cfg, xs, n);
    }
  }

  lemma WindowAmong(cfg: Config, jobs: map<string, Job>, next: map<string, Job>, clock: int, xs: seq<Assignment>,
                    n: nat, j: Job, id: string)
    requires n < |xs| && cfg.hotLimit >= 1 && Holds(jobs, clock, xs, Oldest(cfg, n), n)
    requires Moved(jobs, next, Leaver(cfg, xs, n), xs[n].jobID, j) && id in next && j.updated > clock
    ensures Among(xs, Oldest(cfg, n + 1), n + 1, id) && next[id].updated <= j.updated
  {
    if id == xs[n].jobID {
      assert xs[n].jobID == id;
    } else {
      assert Among(xs, Oldest(cfg, n), n, id);
      var i :| Oldest(cfg, n) <= i < n && xs[i].jobID == id;
      assert i >= Oldest(cfg, n + 1);
    }
  }

  /** The window moves by one. */
  lemma HoldsNext(cfg: Config, jobs: map<string, Job>, next: map<string, Job>, clock: int, xs: seq<Assignment>,
                  n: nat, j: Job)
    requires Series(cfg, xs) && n < |xs| && cfg.hotLimit >= 1 && Holds(jobs, clock, xs, Oldest(cfg, n), n)
    requires Moved(jobs, next, Leaver(cfg, xs, n), xs[n].jobID, j) && j.updated > clock && j.assignment == xs[n]
    ensures Holds(next, j.updated, xs, Oldest(cfg, n + 1), n + 1)
  {
    hide Series, Moved, Among;
    WindowKeeps(cfg, jobs, next, clock, xs, n, j);
    forall id | id in next ensures Among(xs, Oldest(cfg, n + 1), n + 1, id) && next[id].updated <= j.updated {
      WindowAmong(cfg, jobs, next, clock, xs, n, j, id);
    }
    assert xs[n].jobID in next && next[xs[n].jobID] == j by {
      NewIsThere(jobs, next, Leaver(cfg, xs, n), xs[n].jobID, j);
    }
  }

  lemma NewIsThere(jobs: map<string, Job>, next: map<string, Job>, gone: set<string>, id: string, j: Job)
    requires Moved(jobs, next, gone, id, j)
    ensures id in next && next[id] == j
  {
  }

  lemma ShelvedNext(cfg: Config, archive: map<string, Job>, jobs: map<string, Job>, clock: int, xs: seq<Assignment>,
                    n: nat)
    requires n < |xs| && Shelved(archive, xs, Oldest(cfg, n)) && Holds(jobs, clock, xs, Oldest(cfg, n), n)
    requires cfg.hotLimit >= 1
    ensures var gone := Leaver(cfg, xs, n);
            Shelved(archive + Rows(jobs, gone), xs, Oldest(cfg, n + 1))
  {
    hide Holds;
    var gone := Leaver(cfg, xs, n);
    var lo, lo' := Oldest(cfg, n), Oldest(cfg, n + 1);
    if lo < lo' {
      HeldAtFirst(jobs, clock, xs, lo, n);
    }
    var next := archive + Rows(jobs, gone);
    forall i | 0 <= i < lo' && LastUse(xs, i, lo')
      ensures xs[i].jobID in next && next[xs[i].jobID].assignment == xs[i]
    {
      if i == lo {
        assert xs[lo].jobID in gone;
      } else {
        assert LastUse(xs, i, lo);
        assert lo' == lo || xs[lo].jobID != xs[i].jobID;
      }
    }
  }

  lemma NextFits(cfg: Config, xs: seq<Assignment>, n: nat)
    requires Series(cfg, xs) && n < |xs|
    ensures Fit(cfg, xs[n]) && cfg.SequenceOf(xs[n]) > if n == 0 then 0 else cfg.SequenceOf(xs[n - 1])
  {
  }

  lemma IsMoved(jobs: map<string, Job>, next: map<string, Job>, gone: set<string>, id: string, j: Job)
    requires next == (jobs - gone)[id := j] && id !in jobs && gone <= jobs.Keys
    ensures Moved(jobs, next, gone, id, j) && |next| == |jobs| - |gone| + 1
  {
    Sizes(jobs, next, gone, id);
  }

  lemma SlidNext(cfg: Config, w: World, v: World, xs: seq<Assignment>, n: nat)
    requires Series(cfg, xs) && n < |xs| && Slid(cfg, w, xs, n) && cfg.hotLimit >= 1 && xs[n].jobID !in w.mem.jobs
    requires Rest(cfg, v) && Leaver(cfg, xs, n) <= w.mem.jobs.Keys
    requires v.mem.jobs == (w.mem.jobs - Leaver(cfg, xs, n))[xs[n].jobID := JobFor(cfg, xs[n], Failed, xs[n].deadline)]
    requires v.archive == w.archive + Rows(w.mem.jobs, Leaver(cfg, xs, n))
    requires v.mem.highSequence == cfg.SequenceOf(xs[n]) && v.accepted == w.accepted + [xs[n]]
    requires v.clock == xs[n].deadline
    ensures Slid(cfg, v, xs, n + 1)
  {
    hide Holds, Shelved, Series, Moved, Rest, JobFor, Leaver, Oldest, Rows;
    var j := JobFor(cfg, xs[n], Failed, xs[n].deadline);
    JobFacts(cfg, xs[n], xs[n].deadline);
    NextLater(cfg, xs, n);
    IsMoved(w.mem.jobs, v.mem.jobs, Leaver(cfg, xs, n), xs[n].jobID, j);
    OneLeaves(cfg, xs, n);
    HoldsNext(cfg, w.mem.jobs, v.mem.jobs, w.clock, xs, n, j);
    ShelvedNext(cfg, w.archive, w.mem.jobs, w.clock, xs, n);
    assert xs[..n + 1] == xs[..n] + [xs[n]];
  }

  /** The next job of the series. */
  lemma Slides(cfg: Config, w: World, xs: seq<Assignment>, n: nat) returns (v: World)
    requires Series(cfg, xs) && n < |xs| && Slid(cfg, w, xs, n) && cfg.hotLimit >= 1
    ensures Leads(cfg, w, v) && Slid(cfg, v, xs, n + 1)
  {
    hide EngineInvariant.Inv, Leads, Fit, MayGo, Holds, Shelved, Series, Rest, JobFor, Leaver, Oldest, Rows;
    RestFacts(cfg, w);
    NewID(cfg, w.mem.jobs, w.clock, xs, n);
    LeaverMayGo(cfg, w.mem, w.clock, xs, n);
    NextFits(cfg, xs, n);
    v := OneJob(cfg, w, xs[n], Leaver(cfg, xs, n));
    SlidNext(cfg, w, v, xs, n);
  }

  lemma NextLater(cfg: Config, xs: seq<Assignment>, n: nat)
    requires Series(cfg, xs) && n < |xs|
    ensures n + 1 < |xs| ==> xs[n].deadline < xs[n + 1].deadline
  {
  }

  lemma OneLeaves(cfg: Config, xs: seq<Assignment>, n: nat)
    requires n < |xs| && cfg.hotLimit >= 1
    ensures n - Oldest(cfg, n) - |Leaver(cfg, xs, n)| + 1 == n + 1 - Oldest(cfg, n + 1)
    ensures Oldest(cfg, n) <= n && Oldest(cfg, n + 1) <= n + 1
  {
  }

  lemma JobFacts(cfg: Config, a: Assignment, now: int)
    ensures JobFor(cfg, a, Failed, now).updated == now && JobFor(cfg, a, Failed, now).assignment == a
  {
  }

  lemma RestFacts(cfg: Config, w: World)
    requires Rest(cfg, w)
    ensures forall id | id in w.mem.jobs :: w.mem.jobs[id].state == Failed
  {
  }

  lemma Sizes(jobs: map<string, Job>, next: map<string, Job>, gone: set<string>, id: string)
    requires gone <= jobs.Keys && id !in jobs && next.Keys == (jobs.Keys - gone) + {id}
    ensures |next| == |jobs| - |gone| + 1
  {
    assert |jobs.Keys - gone| == |jobs.Keys| - |gone|;
    assert |next| == |next.Keys|;
  }

  /** Any series runs through: afterwards the latest jobs are hot and the others shelved. */
  lemma {:induction false} SeriesRuns(cfg: Config, w: World, xs: seq<Assignment>, n: nat) returns (v: World)
    requires Init(w) && Series(cfg, xs) && n <= |xs| && cfg.hotLimit >= 1 && (xs != [] ==> w.clock < xs[0].deadline)
    ensures Leads(cfg, w, v) && Slid(cfg, v, xs, n)
  {
    hide Leads, Slid, Init, Series;
    if n == 0 {
      v := w;
      Stays(cfg, w);
      SlidAtFirst(cfg, w, xs);
    } else {
      var u := SeriesRuns(cfg, w, xs, n - 1);
      v := Slides(cfg, u, xs, n - 1);
      Joined(cfg, w, u, v);
    }
  }

  lemma SlidAtFirst(cfg: Config, w: World, xs: seq<Assignment>)
    requires Init(w) && (xs != [] ==> w.clock < xs[0].deadline)
    ensures Slid(cfg, w, xs, 0)
  {
    hide EngineInvariant.Inv;
    InitInv(cfg, w);
  }

  // ---------------------------------------------------------------- the ID comes back

  /**
   The documented promise fails: after `hotLimit` further jobs, the ID of the first one is taken by another assignment,
   which is accepted as a second job while the first one's record is in the archive.
   */
  lemma ArchivedIDIsReused(cfg: Config, w: World, xs: seq<Assignment>) returns (ws: seq<World>, ls: seq<Label>)
    requires Init(w) && Series(cfg, xs) && cfg.hotLimit >= 1
    requires |xs| == cfg.hotLimit + 2 && xs[cfg.hotLimit + 1].jobID == xs[0].jobID && w.clock < xs[0].deadline
    ensures IsRun(cfg, ws, ls) && ws[0] == w && forall i | 0 <= i < |ls| :: Timely(ws[i], ls[i])
    ensures var v := ws[|ls|]; var b := xs[cfg.hotLimit + 1];
            && v.accepted == xs && b != xs[0]
            && b.jobID in v.disk.jobs && v.disk.jobs[b.jobID].assignment == b
            && b.jobID in v.archive && v.archive[b.jobID].assignment == xs[0]
  {
    hide Next, Init, Fit, Slid, Leads;
    var n := cfg.hotLimit + 2;
    var v := SeriesRuns(cfg, w, xs, n);
    SlidFacts(cfg, v, xs, n);
    assert LastUse(xs, 0, 2) by {
      assert xs[0].jobID != xs[1].jobID;
    }
    ws, ls := PathOf(cfg, w, v);
    assert cfg.SequenceOf(xs[0]) < cfg.SequenceOf(xs[cfg.hotLimit + 1]);
    assert xs[..n] == xs;
  }

  lemma SlidFacts(cfg: Config, w: World, xs: seq<Assignment>, n: nat)
    requires n <= |xs| && Slid(cfg, w, xs, n)
    ensures w.mem == w.disk && w.accepted == xs[..n]
    ensures forall i | Oldest(cfg, n) <= i < n ::
              xs[i].jobID in w.disk.jobs && w.disk.jobs[xs[i].jobID].assignment == xs[i]
    ensures forall i | 0 <= i < Oldest(cfg, n) && LastUse(xs, i, Oldest(cfg, n)) ::
              xs[i].jobID in w.archive && w.archive[xs[i].jobID].assignment == xs[i]
  {
    hide EngineInvariant.Inv;
    JobIdentity.Same(cfg, w);
  }

  /** And once the second job is moved as well, its record replaces the first one's. */
  lemma FirstRecordIsLost(cfg: Config, w: World, xs: seq<Assignment>) returns (ws: seq<World>, ls: seq<Label>)
    requires Init(w) && Series(cfg, xs) && cfg.hotLimit >= 1
    requires |xs| == 2 * cfg.hotLimit + 2 && xs[cfg.hotLimit + 1].jobID == xs[0].jobID && w.clock < xs[0].deadline
    ensures IsRun(cfg, ws, ls) && ws[0] == w && xs[0] in ws[|ls|].accepted
    ensures forall i | 0 <= i < |ls| :: Timely(ws[i], ls[i])
    ensures var v := ws[|ls|];
            && xs[0].jobID in v.archive && v.archive[xs[0].jobID].assignment == xs[cfg.hotLimit + 1]
            && forall id | id in v.disk.jobs :: v.disk.jobs[id].assignment != xs[0]
  {
    hide Next, Init, Fit, Slid, Leads;
    var n := 2 * cfg.hotLimit + 2;
    var v := SeriesRuns(cfg, w, xs, n);
    SlidFacts(cfg, v, xs, n);
    var b := cfg.hotLimit + 1;
    assert Oldest(cfg, n) == b + 1 && LastUse(xs, b, b + 1);
    ws, ls := PathOf(cfg, w, v);
    assert xs[..n] == xs && xs[0] in xs;
    HotAreLate(cfg, v, xs, n);
  }

  lemma HotAreLate(cfg: Config, w: World, xs: seq<Assignment>, n: nat)
    requires Series(cfg, xs) && 0 < n <= |xs| && Slid(cfg, w, xs, n) && Oldest(cfg, n) > 0
    ensures forall id | id in w.disk.jobs :: w.disk.jobs[id].assignment != xs[0]
  {
    hide EngineInvariant.Inv, Fit;
    JobIdentity.Same(cfg, w);
    forall id | id in w.disk.jobs ensures w.disk.jobs[id].assignment != xs[0] {
      assert Among(xs, Oldest(cfg, n), n, id);
      var i :| Oldest(cfg, n) <= i < n && xs[i].jobID == id;
      assert cfg.SequenceOf(xs[0]) < cfg.SequenceOf(xs[i]);
    }
  }

  // ---------------------------------------------------------------- such series exist

  function Pow2(n: nat): nat {
    if n == 0 then 1 else 2 * Pow2(n - 1)
  }

  /** `n` in binary, with `len` digits. */
  function Bits(n: nat, len: nat): string {
    if len == 0 then "" else Bits(n / 2, len - 1) + [if n % 2 == 0 then '0' else '1']
  }

  lemma {:induction false} BitsAreDigits(n: nat, len: nat)
    ensures |Bits(n, len)| == len && forall i | 0 <= i < len :: IsAlphanumeric(Bits(n, len)[i])
  {
    if len > 0 {
      BitsAreDigits(n / 2, len - 1);
    }
  }

  lemma {:induction false} BitsDiffer(m: nat, n: nat, len: nat)
    requires m < Pow2(len) && n < Pow2(len) && m != n
    ensures Bits(m, len) != Bits(n, len)
  {
    if len > 0 {
      var a, b := Bits(m, len), Bits(n, len);
      BitsAreDigits(m / 2, len - 1);
      BitsAreDigits(n / 2, len - 1);
      if m % 2 != n % 2 {
        assert a[len - 1] != b[len - 1];
      } else {
        BitsDiffer(m / 2, n / 2, len - 1);
        assert a[..len - 1] == Bits(m / 2, len - 1) && b[..len - 1] == Bits(n / 2, len - 1);
      }
    }
  }

  /** Releases numbered by the length of their payload, each expiring a second after the one before. */
  function SomeConfig(limit: nat, start: int): Config {
    Config("d", "c", 10, 0, limit, payload => Release(1, "r", 1 + |payload|, "v", start + 1 + |payload|, []))
  }

  /** Whose turn it is at `i` when `m` take turns. */
  function Turn(i: nat, m: nat): (r: nat)
    requires m > 0
    ensures r < m
  {
    if i < m then i else Turn(i - m, m)
  }

  /** The `i`-th assignment; `limit + 1` IDs in turn. */
  function SomeAssignment(limit: nat, start: int, i: nat): Assignment {
    Assignment(Bits(Turn(i, limit + 1), 95), "d", Envelope("k", seq(i, _ => 0), []), start, start + 1 + i, false)
  }

  lemma SomeIDsDiffer(limit: nat, start: int, i: nat, k: nat)
    requires i < k <= i + limit && limit < Pow2(95)
    ensures SomeAssignment(limit, start, i).jobID != SomeAssignment(limit, start, k).jobID
  {
    hide Bits, Pow2;
    TurnsDiffer(i, k, limit + 1);
    BitsDiffer(Turn(i, limit + 1), Turn(k, limit + 1), 95);
  }

  lemma {:induction false} TurnsDiffer(i: nat, k: nat, m: nat)
    requires i < k < i + m
    ensures Turn(i, m) != Turn(k, m)
  {
    if i >= m {
      TurnsDiffer(i - m, k - m, m);
    }
  }

  lemma SomeFits(limit: nat, start: int, i: nat)
    ensures var cfg := SomeConfig(limit, start); var a := SomeAssignment(limit, start, i);
            Fit(cfg, a) && cfg.SequenceOf(a) == i + 1 && a.deadline == start + 1 + i
  {
    hide Bits;
    BitsAreDigits(Turn(i, limit + 1), 95);
  }

  /**
   For every limit below the number of identifiers used, and from every time on, there are series of any length in
   which every ID comes back after `limit` others.
   */
  lemma SomeSeries(limit: nat, start: int, n: nat) returns (cfg: Config, xs: seq<Assignment>)
    requires 1 <= limit < Pow2(95)
    ensures cfg.Valid() && cfg.hotLimit == limit && Series(cfg, xs) && |xs| == n
    ensures forall i | 0 <= i && i + limit + 1 < n :: xs[i + limit + 1].jobID == xs[i].jobID
    ensures n > 0 ==> start < xs[0].deadline
  {
    hide Bits, Pow2, Fit, SomeAssignment;
    cfg := SomeConfig(limit, start);
    xs := seq(n, i requires 0 <= i < n => SomeAssignment(limit, start, i));
    forall i | 0 <= i < n
      ensures Fit(cfg, xs[i]) && cfg.SequenceOf(xs[i]) == i + 1 && xs[i].deadline == start + 1 + i
    {
      SomeFits(limit, start, i);
    }
    forall i, k | 0 <= i < k < n && k - i <= limit ensures xs[i].jobID != xs[k].jobID {
      SomeIDsDiffer(limit, start, i, k);
    }
    forall i | 0 <= i && i + limit + 1 < n ensures xs[i + limit + 1].jobID == xs[i].jobID {
      SameIDAgain(limit, start, i);
    }
  }

  lemma SameIDAgain(limit: nat, start: int, i: nat)
    ensures SomeAssignment(limit, start, i + limit + 1).jobID == SomeAssignment(limit, start, i).jobID
  {
    hide Bits;
    assert Turn(i + limit + 1, limit + 1) == Turn(i, limit + 1);
  }
}
