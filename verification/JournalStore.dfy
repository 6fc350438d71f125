/**
 The journal store (internal/ota/store.go): compaction of finished jobs into the archive, the update of one snapshot
 per transaction, and opening, with the one-time import of an older `state.json`.

 A transaction is atomic; its commit succeeds, fails without effect, or takes effect and still reports failure.
 */
module JournalStore {
  import opened Model
  import opened Journal
  import opened Engine

  // ---------------------------------------------------------------- compaction

  /** The jobs that compaction takes are each one it may take, oldest first, and none that stays is older. */
  ghost predicate OldestFirst(d: Database, ids: seq<string>) {
    && (forall i | 0 <= i < |ids| :: Spillable(d, ids[i]))
    && (forall i, k | 0 <= i < k < |ids| :: ids[i] != ids[k] && d.jobs[ids[i]].updated <= d.jobs[ids[k]].updated)
    && (forall i, b | 0 <= i < |ids| && Spillable(d, b) && b !in ids :: d.jobs[ids[i]].updated <= d.jobs[b].updated)
  }

  /**
   One pass over the jobs, in any order: a job that may be moved, and the oldest one. "" stands for none; a finished
   job filed under "" would be taken for it, which `Submit` never lets happen.
   */
  method Oldest(d: Database) returns (id: string)
    ensures id != "" ==> Spillable(d, id)
    ensures !Spillable(d, "") && id != "" ==> forall b | Spillable(d, b) :: d.jobs[id].updated <= d.jobs[b].updated
    ensures !Spillable(d, "") && id == "" ==> Movable(d) == {}
  {
    id := "";
    var oldest := 0;
    var left := d.jobs.Keys;
    while left != {}
      invariant left <= d.jobs.Keys
      invariant id != "" ==> Spillable(d, id) && oldest == d.jobs[id].updated
      invariant !Spillable(d, "") && id != "" ==>
                  forall b | Spillable(d, b) && b !in left :: oldest <= d.jobs[b].updated
      invariant !Spillable(d, "") && id == "" ==> forall b | Spillable(d, b) :: b in left
      decreases |left|
    {
      var k :| k in left;
      left := left - {k};
      if k != d.active && Terminal(d.jobs[k].state) {
        if id == "" || d.jobs[k].updated < oldest {
          id, oldest := k, d.jobs[k].updated;
        }
      }
    }
  }

  /** Each job taken is one that may be taken, and none is taken twice. */
  ghost predicate MayTake(d: Database, ids: seq<string>) {
    && (forall i | 0 <= i < |ids| :: Spillable(d, ids[i]))
    && (forall i, k | 0 <= i < k < |ids| :: ids[i] != ids[k])
  }

  function Movable(d: Database): set<string> {
    set id | id in d.jobs && Spillable(d, id)
  }

  ghost function Elements(ids: seq<string>): set<string> {
    set id | id in ids
  }

  ghost function JobsOf(d: Database, ids: seq<string>): seq<Job>
    requires forall i | 0 <= i < |ids| :: ids[i] in d.jobs
  {
    seq(|ids|, i requires 0 <= i < |ids| => d.jobs[ids[i]])
  }

  lemma TakeOne(d: Database, ids: seq<string>, id: string)
    requires MayTake(d, ids) && Spillable(Without(d, Elements(ids)), id)
    ensures MayTake(d, ids + [id])
    ensures Without(d, Elements(ids + [id])).jobs == Without(d, Elements(ids)).jobs - {id}
    ensures JobsOf(d, ids + [id]) == JobsOf(d, ids) + [d.jobs[id]]
  {
    assert Elements(ids + [id]) == Elements(ids) + {id};
    assert forall i | 0 <= i < |ids| :: ids[i] in Elements(ids);
  }

  /** The oldest job that stays is not older than any taken before it. */
  lemma NotOlder(d: Database, ids: seq<string>, id: string)
    requires OldestFirst(d, ids) && Spillable(Without(d, Elements(ids)), id)
    ensures Spillable(d, id) && id !in ids
    ensures forall i | 0 <= i < |ids| :: ids[i] != id && d.jobs[ids[i]].updated <= d.jobs[id].updated
  {
    assert forall i | 0 <= i < |ids| :: ids[i] in Elements(ids);
  }

  /** What stays besides it is not older than it. */
  lemma NoneOlder(d: Database, ids: seq<string>, id: string, b: string)
    requires Spillable(d, b) && b !in ids && Spillable(Without(d, Elements(ids)), id)
    requires var next := Without(d, Elements(ids));
             forall x | Spillable(next, x) :: next.jobs[id].updated <= next.jobs[x].updated
    ensures d.jobs[id].updated <= d.jobs[b].updated
  {
    assert Spillable(Without(d, Elements(ids)), b);
  }

  lemma MoveOne(d: Database, ids: seq<string>, id: string)
    requires OldestFirst(d, ids)
    requires var next := Without(d, Elements(ids));
             Spillable(next, id) && forall b | Spillable(next, b) :: next.jobs[id].updated <= next.jobs[b].updated
    ensures OldestFirst(d, ids + [id])
  {
    hide Spillable, Elements, Without;
    NotOlder(d, ids, id);
    var more := ids + [id];
    assert forall k | 0 <= k < |more| :: if k < |ids| then more[k] == ids[k] else more[k] == id;
    forall b | Spillable(d, b) && b !in more
      ensures b in d.jobs && b !in ids && d.jobs[id].updated <= d.jobs[b].updated
    {
      InJobs(d, b);
      assert forall k | 0 <= k < |ids| :: more[k] == ids[k];
      NoneOlder(d, ids, id, b);
    }
  }

  /** What the jobs taken so far say about the sizes. */
  lemma MovedCounts(d: Database, ids: seq<string>)
    requires MayTake(d, ids)
    ensures Elements(ids) <= Movable(d) && |Elements(ids)| <= |Movable(d)|
    ensures |Without(d, Elements(ids)).jobs| == |d.jobs| - |Elements(ids)|
    ensures d.jobs.Keys - Without(d, Elements(ids)).jobs.Keys == Elements(ids)
    ensures Movable(Without(d, Elements(ids))) == Movable(d) - Elements(ids)
  {
    var moved := Elements(ids);
    assert moved <= Movable(d);
    Subset(moved, Movable(d));
    assert moved <= d.jobs.Keys;
    assert (d.jobs - moved).Keys == d.jobs.Keys - moved;
    assert |(d.jobs - moved).Keys| == |d.jobs.Keys| - |moved|;
  }

  lemma Subset(a: set<string>, b: set<string>)
    requires a <= b
    ensures |a| <= |b|
    ensures |a| == |b| ==> a == b
  {
    assert |b - a| == |b| - |a|;
  }

  /**
   Moves finished jobs out until the limit is met. With no finished job filed under "" it takes the oldest first, and
   fails exactly when too few jobs may be moved or the outbox is over its limit.
   */
  method CompactHot(limit: nat, d: Database)
    returns (next: Database, spilled: seq<Job>, ok: bool, ghost ids: seq<string>)
    ensures MayTake(d, ids) && (forall i | 0 <= i < |ids| :: ids[i] in d.jobs) && spilled == JobsOf(d, ids)
    ensures next == Without(d, Elements(ids))
    ensures next == d.(jobs := next.jobs) && |next.jobs| <= |d.jobs| == |next.jobs| + |spilled|
    ensures ok ==> |d.events| <= OUTBOX_LIMIT && |next.jobs| == if |d.jobs| > limit then limit else |d.jobs|
    ensures !Spillable(d, "") ==> (ok <==> HasRoom(limit, d))
    ensures !Spillable(d, "") ==> OldestFirst(d, ids) && (ok ==> Spills(limit, d, Elements(ids)))
    ensures ok ==> |Elements(ids)| == if |d.jobs| > limit then |d.jobs| - limit else 0
  {
    hide OldestFirst, MayTake, Spillable, Movable, Spills;
    next, spilled, ids := d, [], [];
    NothingMoved(d);
    while |next.jobs| > limit
      invariant MayTake(d, ids) && (!Spillable(d, "") ==> OldestFirst(d, ids))
      invariant next == Without(d, Elements(ids))
      invariant forall i | 0 <= i < |ids| :: ids[i] in d.jobs
      invariant spilled == JobsOf(d, ids) && |d.jobs| == |next.jobs| + |spilled|
      invariant |next.jobs| >= limit || ids == []
      decreases |next.jobs|
    {
      StillUnnamed(d, Elements(ids));
      var id := Oldest(next);
      if id == "" {
        NoneLeft(limit, d, ids);
        return next, spilled, false, ids;
      }
      InJobs(next, id);
      TakeOne(d, ids, id);
      if !Spillable(d, "") {
        MoveOne(d, ids, id);
      }
      spilled := spilled + [next.jobs[id]];
      ids := ids + [id];
      next := next.(jobs := next.jobs - {id});
    }
    Compacted(limit, d, ids);
    ok := |d.events| <= OUTBOX_LIMIT;
  }

  /** Compaction can bring the journal under its limits. */
  predicate HasRoom(limit: nat, d: Database) {
    |Movable(d)| >= |d.jobs| - limit && |d.events| <= OUTBOX_LIMIT
  }

  /** The loop ends under the limit: exactly the excess is gone. */
  lemma Compacted(limit: nat, d: Database, ids: seq<string>)
    requires MayTake(d, ids) && (!Spillable(d, "") ==> OldestFirst(d, ids))
    requires var n := |Without(d, Elements(ids)).jobs|; n <= limit && (n == limit || ids == [])
    ensures |Elements(ids)| == if |d.jobs| > limit then |d.jobs| - limit else 0
    ensures |Without(d, Elements(ids)).jobs| == if |d.jobs| > limit then limit else |d.jobs|
    ensures !Spillable(d, "") ==> Spills(limit, d, Elements(ids)) && |Movable(d)| >= |d.jobs| - limit
  {
    hide OldestFirst, MayTake, Spillable, Movable, Spills;
    MovedCounts(d, ids);
    assert ids == [] ==> Elements(ids) == {};
    if !Spillable(d, "") {
      Exact(limit, d, ids);
    }
  }

  /** The loop ends over the limit with nothing left to move: there was too little to move. */
  lemma NoneLeft(limit: nat, d: Database, ids: seq<string>)
    requires MayTake(d, ids) && |Without(d, Elements(ids)).jobs| > limit
    ensures Movable(Without(d, Elements(ids))) == {} ==> |Movable(d)| < |d.jobs| - limit
  {
    hide MayTake, Spillable, Movable;
    MovedCounts(d, ids);
    Subset(Elements(ids), Movable(d));
  }

  lemma NothingMoved(d: Database)
    ensures OldestFirst(d, []) && MayTake(d, []) && Without(d, Elements([])) == d
  {
    assert d.jobs - {} == d.jobs;
    assert Elements([]) == {};
  }

  lemma InJobs(d: Database, id: string)
    requires Spillable(d, id)
    ensures id in d.jobs
  {
  }

  lemma StillUnnamed(d: Database, moved: set<string>)
    ensures !Spillable(d, "") ==> !Spillable(Without(d, moved), "")
  {
  }

  lemma Exact(limit: nat, d: Database, ids: seq<string>)
    requires OldestFirst(d, ids) && MayTake(d, ids)
    requires var n := |Without(d, Elements(ids)).jobs|; n <= limit && (n == limit || ids == [])
    ensures Spills(limit, d, Elements(ids))
  {
    MovedCounts(d, ids);
    var moved := Elements(ids);
    assert ids == [] ==> moved == {};
    forall a, b | a in moved && Spillable(d, b) && b !in moved ensures d.jobs[a].updated <= d.jobs[b].updated {
      var i :| 0 <= i < |ids| && ids[i] == a;
    }
  }

  /** In a journal whose only unfinished job is the active one, the capacity error cannot happen. */
  lemma CapacityUnreachable(limit: nat, d: Database)
    requires limit >= 1
    requires forall id | id in d.jobs && id != d.active :: Terminal(d.jobs[id].state)
    ensures |Movable(d)| >= |d.jobs| - limit
  {
    var others := d.jobs.Keys - {d.active};
    assert others <= Movable(d);
    Subset(others, Movable(d));
    Subset(d.jobs.Keys, others + {d.active});
    assert |others + {d.active}| == |others| + 1;
  }

  lemma {:induction false} SomeOldest(d: Database, among: set<string>) returns (id: string)
    requires among != {} && forall b | b in among :: b in d.jobs
    ensures id in among && forall b | b in among :: d.jobs[id].updated <= d.jobs[b].updated
    decreases |among|
  {
    id :| id in among;
    if among != {id} {
      var rest := SomeOldest(d, among - {id});
      if d.jobs[rest].updated < d.jobs[id].updated {
        id := rest;
      }
    }
  }

  lemma {:induction false} SomeOrder(d: Database, n: nat) returns (ids: seq<string>)
    requires n <= |Movable(d)|
    ensures OldestFirst(d, ids) && MayTake(d, ids) && |Elements(ids)| == n
  {
    hide OldestFirst, MayTake, Spillable, Movable;
    if n == 0 {
      ids := [];
      NothingMoved(d);
      assert Elements([]) == {};
    } else {
      ids := SomeOrder(d, n - 1);
      MovedCounts(d, ids);
      var next := Without(d, Elements(ids));
      MovableIsSpillable(next);
      var id := SomeOldest(next, Movable(next));
      MoveOne(d, ids, id);
      TakeOne(d, ids, id);
      assert Elements(ids + [id]) == Elements(ids) + {id};
      ids := ids + [id];
    }
  }

  lemma MovableIsSpillable(d: Database)
    ensures forall b :: b in Movable(d) <==> Spillable(d, b)
    ensures forall b | b in Movable(d) :: b in d.jobs
  {
  }

  /** Where compaction has enough jobs to take, there is a set of them to take. */
  lemma SpillsExist(limit: nat, d: Database) returns (moved: set<string>)
    requires |Movable(d)| >= |d.jobs| - limit
    ensures Spills(limit, d, moved)
  {
    if |d.jobs| <= limit {
      moved := {};
    } else {
      var ids := SomeOrder(d, |d.jobs| - limit);
      MovedCounts(d, ids);
      Exact(limit, d, ids);
      moved := Elements(ids);
    }
  }

  // ---------------------------------------------------------------- validation

  /** Two passes: over the jobs in any order, and over the events comparing each with the one before. */
  method ValidateDatabase(limit: nat, d: Database) returns (ok: bool)
    ensures ok <==> Journal.Valid(limit, d)
  {
    if d.schema != 1 || |d.jobs| > limit + 1 || |d.events| > OUTBOX_LIMIT {
      return false;
    }
    var left := d.jobs.Keys;
    while left != {}
      invariant left <= d.jobs.Keys
      invariant forall id | id in d.jobs && id !in left :: JobConsistent(d, id)
      decreases |left|
    {
      var id :| id in left;
      left := left - {id};
      if !JobConsistent(d, id) {
        return false;
      }
    }
    if d.active != "" && (d.active !in d.jobs || Terminal(d.jobs[d.active].state)) {
      return false;
    }
    ok := CheckEvents(d.events, d.eventSequence);
  }

  method CheckEvents(events: seq<Event>, last: nat) returns (ok: bool)
    ensures ok <==> EventsOrdered(events, last)
  {
    var previous := 0;
    for n := 0 to |events|
      invariant forall i | 0 <= i < n :: 0 < events[i].sequence <= last && events[i].sequence <= previous
      invariant forall i, k | 0 <= i < k < n :: events[i].sequence < events[k].sequence
      invariant previous == if n == 0 then 0 else events[n - 1].sequence
    {
      if events[n].sequence <= previous || events[n].sequence > last {
        return false;
      }
      previous := events[n].sequence;
    }
    ok := true;
  }

  // ---------------------------------------------------------------- the disk

  datatype LegacyFile = Missing | Unreadable | Corrupt | Legacy(db: Database)

  /** What survives the agent. `imports` counts the imports of a legacy file that took effect. */
  datatype Disk = Disk(snapshot: Option<Database>, archive: map<string, Job>, legacy: LegacyFile, imports: nat)

  /** The register that the store implements: the state the next successful start will see. */
  function Register(k: Disk): Database {
    if k.snapshot.Some? then k.snapshot.value
    else if k.legacy.Legacy? then k.legacy.db
    else EmptyDatabase()
  }

  /** One transaction. */
  function Persisted(k: Disk, d: Database, moved: map<string, Job>, outcome: Outcome): Disk {
    if outcome.FailedLost? then k else k.(snapshot := Some(d), archive := k.archive + moved)
  }

  /** A legacy file that keeps the store from opening. */
  predicate Damaged(limit: nat, legacy: LegacyFile) {
    legacy.Unreadable? || legacy.Corrupt? || (legacy.Legacy? && !Journal.Valid(limit, legacy.db))
  }

  /** `load`: the disk it leaves and the data it starts with. */
  function Loaded(limit: nat, k: Disk, outcome: Outcome, renameOk: bool): (Disk, Option<Database>) {
    if Damaged(limit, k.legacy) then (k, None)
    else if k.snapshot.None? then
      if k.legacy.Missing? then (k, Some(EmptyDatabase()))
      else
        var v := Persisted(k, k.legacy.db, map[], outcome);
        var w := if outcome.FailedLost? then v else v.(imports := k.imports + 1);
        if !outcome.Durable? then (w, None)
        else if !renameOk then (w, None)
        else (w.(legacy := Missing), Some(k.legacy.db))
    else if !Journal.Valid(limit, k.snapshot.value) then (k, None)
    else (if renameOk then k.(legacy := Missing) else k, k.snapshot)
  }

  /** The agent's copy. */
  datatype Memory = Memory(data: Database, poisoned: bool)

  function MovedJobs(d: Database, ids: set<string>): map<string, Job> {
    map id | id in d.jobs && id in ids :: d.jobs[id]
  }

  /** What compaction takes out of the journal, and the archive rows it makes of it. */
  datatype Taken = Taken(ids: set<string>, rows: map<string, Job>)

  /** `Update`, given the changed copy, if the change did not refuse, and what compaction takes, if it did not fail. */
  function Updated(limit: nat, k: Disk, m: Memory, change: Option<Database>, taken: Option<Taken>,
                   outcome: Outcome): (Disk, Memory, bool)
  {
    if m.poisoned || change.None? || taken.None?
       || !Journal.Valid(limit, Without(change.value, taken.value.ids)) then (k, m, false)
    else
      var next := Without(change.value, taken.value.ids);
      (Persisted(k, next, taken.value.rows, outcome),
       if outcome.Durable? then Memory(next, false) else m.(poisoned := true), outcome.Durable?)
  }

  // ---------------------------------------------------------------- runs of the store

  /** A disk and the agent on it, if one is running. */
  datatype State = State(disk: Disk, memory: Option<Memory>)

  datatype Action =
    | Open(outcome: Outcome, renameOk: bool)
    | Update(change: Option<Database>, taken: Option<Taken>, outcome: Outcome)
    | Die
    | PutLegacy(file: LegacyFile)

  /** A legacy file is only put in place while no agent runs. */
  predicate Possible(s: State, a: Action) {
    (a.Update? ==> s.memory.Some?) && (a.PutLegacy? ==> s.memory.None?)
  }

  function After(limit: nat, s: State, a: Action): State
    requires Possible(s, a)
  {
    match a
    case Open(outcome, renameOk) =>
      var (k, data) := Loaded(limit, s.disk, outcome, renameOk);
      State(k, if data.Some? then Some(Memory(data.value, false)) else None)
    case Update(change, taken, outcome) =>
      var (k, m, _) := Updated(limit, s.disk, s.memory.value, change, taken, outcome);
      State(k, Some(m))
    case Die => s.(memory := None)
    case PutLegacy(file) => s.(disk := s.disk.(legacy := file))
  }

  ghost predicate Inv(limit: nat, s: State) {
    && (s.memory.Some? && !s.memory.value.poisoned ==> s.memory.value.data == Register(s.disk))
    && (s.memory.Some? ==> Journal.Valid(limit, s.memory.value.data))
    && (s.disk.snapshot.Some? ==> Journal.Valid(limit, s.disk.snapshot.value))
    && (s.memory.Some? && s.disk.snapshot.None? ==> s.disk.legacy.Missing?)
    && s.disk.imports <= (if s.disk.snapshot.Some? then 1 else 0)
  }

  /**
   One step of the store is one step of an atomic register: an update writes its snapshot or nothing, and nothing
   else writes. A legacy file counts only while there is no snapshot, and is imported at most once.
   */
  lemma StoreStep(limit: nat, s: State, a: Action)
    requires Inv(limit, s) && Possible(s, a)
    ensures var t := After(limit, s, a);
            && Inv(limit, t)
            && (a.Open? || a.Die? ==> Register(t.disk) == Register(s.disk))
            && (a.PutLegacy? && s.disk.snapshot.Some? ==> Register(t.disk) == Register(s.disk))
            && (a.Update? ==> || Register(t.disk) == Register(s.disk)
                              || (a.change.Some? && a.taken.Some?
                                  && Register(t.disk) == Without(a.change.value, a.taken.value.ids)))
            && (s.disk.snapshot.Some? ==> t.disk.snapshot.Some? && t.disk.imports == s.disk.imports)
            && s.disk.archive.Keys <= t.disk.archive.Keys
  {
    hide Journal.Valid;
    EmptyValid(limit);
  }

  lemma EmptyValid(limit: nat)
    ensures Journal.Valid(limit, EmptyDatabase())
  {
  }

  /**
   A start succeeds, with the register's value, if and only if no legacy file is damaged and either nothing has to be
   imported or the import commits and its file is set aside; an import that took effect makes every later start succeed.
   */
  lemma OpensExactly(limit: nat, s: State, open: Action, again: Action)
    requires Inv(limit, s) && s.memory.None? && open.Open? && again.Open?
    ensures var t := After(limit, s, open);
            && (t.memory.Some? <==>
                  && !Damaged(limit, s.disk.legacy)
                  && (|| s.disk.snapshot.Some? || s.disk.legacy.Missing?
                      || (open.outcome.Durable? && open.renameOk)))
            && (t.memory.Some? ==> t.memory.value == Memory(Register(s.disk), false))
            && (!Damaged(limit, s.disk.legacy) && !open.outcome.FailedLost? ==>
                  After(limit, State(t.disk, None), again).memory == Some(Memory(Register(s.disk), false)))
  {
    hide Journal.Valid;
    EmptyValid(limit);
  }

  /** What makes an update possible: a change, room for it, a valid result and no earlier failure. */
  predicate Acceptable(limit: nat, m: Memory, change: Option<Database>, taken: Option<Taken>) {
    && !m.poisoned && change.Some? && taken.Some? && Journal.Valid(limit, Without(change.value, taken.value.ids))
  }

  /**
   An acceptable update that is not lost is what the next start sees, with its archive rows; it is reported, and the
   copy goes on with it, exactly if it is durable, and the copy is poisoned exactly if it is not. No other update does
   anything.
   */
  lemma UpdatesExactly(limit: nat, k: Disk, m: Memory, change: Option<Database>, taken: Option<Taken>, outcome: Outcome)
    ensures var (v, n, ok) := Updated(limit, k, m, change, taken, outcome);
            var fine := Acceptable(limit, m, change, taken);
            && (ok <==> fine && outcome.Durable?)
            && (n.poisoned <==> m.poisoned || (fine && !outcome.Durable?))
            && n.data == (if ok then Without(change.value, taken.value.ids) else m.data)
            && Register(v) == (if fine && !outcome.FailedLost? then Without(change.value, taken.value.ids)
                               else Register(k))
            && v.archive == (if fine && !outcome.FailedLost? then k.archive + taken.value.rows else k.archive)
            && v.legacy == k.legacy && v.imports == k.imports
  {
    hide Journal.Valid;
  }

  /**
   A start after an update that was cut off anywhere sees the journal before or after that update, never a mixture.
   */
  lemma ReopenSeesOneOrTheOther(limit: nat, s: State, update: Action, open: Action)
    requires Inv(limit, s) && Possible(s, update) && update.Update? && open.Open?
    ensures var mid := After(limit, s, update);
            var t := After(limit, After(limit, mid, Die), open);
            t.memory.Some? ==>
              var seen := t.memory.value.data;
              && (seen == Register(s.disk)
                  || (update.change.Some? && update.taken.Some?
                      && seen == Without(update.change.value, update.taken.value.ids)))
              && (!mid.memory.value.poisoned ==> seen == mid.memory.value.data)
  {
    hide Inv, Register, After;
    var mid := After(limit, s, update);
    StoreStep(limit, s, update);
    DieOpen(limit, s, update, open);
  }

  lemma DieOpen(limit: nat, s: State, update: Action, open: Action)
    requires Inv(limit, s) && Possible(s, update) && update.Update? && open.Open?
    ensures var mid := After(limit, s, update);
            var t := After(limit, After(limit, mid, Die), open);
            && (t.memory.Some? ==> t.memory.value.data == Register(mid.disk))
            && mid.memory.Some? && (!mid.memory.value.poisoned ==> mid.memory.value.data == Register(mid.disk))
  {
    hide Journal.Valid;
    var mid := After(limit, s, update);
    StoreStep(limit, s, update);
    StoreStep(limit, mid, Die);
    StoreStep(limit, After(limit, mid, Die), open);
  }

  ghost predicate Moves(limit: nat, ss: seq<State>, acts: seq<Action>, i: nat)
    requires i < |acts| && |ss| == |acts| + 1
  {
    Possible(ss[i], acts[i]) && ss[i + 1] == After(limit, ss[i], acts[i])
  }

  /** A run from an empty state directory, or one that holds only a legacy file. */
  ghost predicate IsRun(limit: nat, ss: seq<State>, acts: seq<Action>) {
    && |ss| == |acts| + 1 && ss[0].memory.None? && ss[0].disk.snapshot.None? && ss[0].disk.imports == 0
    && forall i | 0 <= i < |acts| :: Moves(limit, ss, acts, i)
  }

  lemma {:induction false} RunKeeps(limit: nat, ss: seq<State>, acts: seq<Action>, n: nat)
    requires IsRun(limit, ss, acts) && n < |ss|
    ensures Inv(limit, ss[n])
  {
    hide Journal.Valid, After;
    if n > 0 {
      RunKeeps(limit, ss, acts, n - 1);
      assert Moves(limit, ss, acts, n - 1);
      StoreStep(limit, ss[n - 1], acts[n - 1]);
    }
  }

  /**
   In every run: one import at most, none once there is a snapshot, and from then on only updates change the journal.
   */
  lemma {:induction false} LegacyNeverReturns(limit: nat, ss: seq<State>, acts: seq<Action>, i: nat, k: nat)
    requires IsRun(limit, ss, acts) && i <= k < |ss|
    ensures ss[k].disk.imports <= 1
    ensures ss[i].disk.snapshot.Some? ==> ss[k].disk.snapshot.Some? && ss[k].disk.imports == ss[i].disk.imports
    ensures ss[i].disk.snapshot.Some? && (forall n | i <= n < k :: !acts[n].Update?) ==>
              Register(ss[k].disk) == Register(ss[i].disk)
    decreases k
  {
    hide Journal.Valid, After, Register;
    RunKeeps(limit, ss, acts, k);
    if i < k {
      LegacyNeverReturns(limit, ss, acts, i, k - 1);
      RunKeeps(limit, ss, acts, k - 1);
      assert Moves(limit, ss, acts, k - 1);
      StoreStep(limit, ss[k - 1], acts[k - 1]);
    }
  }

  // ---------------------------------------------------------------- the store of the running agent

  /** The tables and files of the state directory. */
  class Storage {
    var snapshot: Option<Database>
    var archive: map<string, Job>
    var legacy: LegacyFile
    ghost var imports: nat

    constructor (legacy: LegacyFile)
      ensures Contents() == Disk(None, map[], legacy, 0)
    {
      this.snapshot, this.archive, this.legacy, this.imports := None, map[], legacy, 0;
    }

    ghost function Contents(): Disk
      reads this
    {
      Disk(snapshot, archive, legacy, imports)
    }

    /** One transaction: the snapshot, then every moved job under its own identifier. */
    method Persist(d: Database, spilled: seq<Job>, outcome: Outcome) returns (ok: bool)
      modifies this`snapshot, this`archive
      ensures ok == outcome.Durable?
      ensures Contents() == Persisted(old(Contents()), d, ByID(spilled), outcome)
    {
      var pending := archive;
      assert archive + ByID(spilled[..0]) == archive;
      for n := 0 to |spilled|
        invariant pending == archive + ByID(spilled[..n])
      {
        assert spilled[..n + 1] == spilled[..n] + [spilled[n]];
        pending := pending[spilled[n].assignment.jobID := spilled[n]];
      }
      assert spilled[..|spilled|] == spilled;
      if !outcome.FailedLost? {
        snapshot, archive := Some(d), pending;
      }
      ok := outcome.Durable?;
    }
  }

  /** The archive rows for a list of jobs; a later row replaces an earlier one. */
  function ByID(jobs: seq<Job>): map<string, Job> {
    if jobs == [] then map[]
    else
      var last := jobs[|jobs| - 1];
      ByID(jobs[..|jobs| - 1])[last.assignment.jobID := last]
  }

  /** Every job is filed under its own, non-empty identifier. */
  predicate Filed(d: Database) {
    forall id | id in d.jobs :: id != "" && d.jobs[id].assignment.jobID == id
  }

  lemma {:induction false} ByIDMoves(d: Database, ids: seq<string>)
    requires Filed(d) && forall i | 0 <= i < |ids| :: ids[i] in d.jobs
    ensures ByID(JobsOf(d, ids)) == MovedJobs(d, Elements(ids))
  {
    if ids != [] {
      var n := |ids| - 1;
      ByIDMoves(d, ids[..n]);
      assert JobsOf(d, ids)[..n] == JobsOf(d, ids[..n]);
      assert ids == ids[..n] + [ids[n]];
      assert Elements(ids) == Elements(ids[..n]) + {ids[n]};
    }
  }

  class Store {
    const limit: nat
    const disk: Storage
    var data: Database
    var poisoned: bool

    constructor (limit: nat, disk: Storage)
      ensures this.limit == limit && this.disk == disk
    {
      this.limit, this.disk := limit, disk;
      this.data, this.poisoned := EmptyDatabase(), false;
    }

    function Copy(): Memory
      reads this
    {
      Memory(data, poisoned)
    }

    /** What a reader of the store relies on. */
    ghost predicate Faithful()
      reads this, disk
    {
      Inv(limit, State(disk.Contents(), Some(Copy())))
    }

    /** `load`. */
    method Load(outcome: Outcome, renameOk: bool) returns (ok: bool)
      requires Inv(limit, State(disk.Contents(), None))
      modifies this, disk
      ensures var (k, d) := Loaded(limit, old(disk.Contents()), outcome, renameOk);
              disk.Contents() == k && ok == d.Some? && (ok ==> Copy() == Memory(d.value, false))
      ensures Register(disk.Contents()) == old(Register(disk.Contents()))
      ensures ok ==> Faithful()
    {
      hide Journal.Valid;
      ghost var before := State(disk.Contents(), None);
      StoreStep(limit, before, Open(outcome, renameOk));
      poisoned := false;
      if disk.legacy.Unreadable? || disk.legacy.Corrupt? {
        return false;
      }
      if disk.legacy.Legacy? {
        var valid := ValidateDatabase(limit, disk.legacy.db);
        if !valid {
          return false;
        }
      }
      if disk.snapshot.None? {
        if disk.legacy.Missing? {
          data := EmptyDatabase();
          return true;
        }
        ok := disk.Persist(disk.legacy.db, [], outcome);
        if !outcome.FailedLost? {
          disk.imports := disk.imports + 1;
        }
        if !ok {
          return;
        }
        data := disk.legacy.db;
        if renameOk {
          disk.legacy := Missing;
        }
        return renameOk;
      }
      data := disk.snapshot.value;
      ok := ValidateDatabase(limit, data);
      if ok && renameOk {
        disk.legacy := Missing;
      }
    }

    /** `Update`, for what the change makes of the current copy. */
    method Update(change: Option<Database>, outcome: Outcome) returns (ok: bool, ghost taken: Option<Taken>)
      requires Faithful()
      modifies this, disk
      ensures Faithful()
      ensures (disk.Contents(), Copy(), ok) == Updated(limit, old(disk.Contents()), old(Copy()), change, taken, outcome)
      ensures taken.Some? ==> change.Some? && (forall id | id in taken.value.ids :: Spillable(change.value, id))
                              && |taken.value.ids| == if |change.value.jobs| > limit
                                 then |change.value.jobs| - limit else 0
      ensures !old(poisoned) && change.Some? && Filed(change.value) ==>
                && (taken.Some? <==> HasRoom(limit, change.value))
                && (taken.Some? ==> Spills(limit, change.value, taken.value.ids)
                                    && taken.value.rows == MovedJobs(change.value, taken.value.ids))
    {
      hide Journal.Valid, Spills, Spillable, OldestFirst, MayTake, Movable, JobsOf, MovedJobs, Elements, Filed, HasRoom;
      taken := None;
      if poisoned || change.None? {
        return false, taken;
      }
      var next, spilled, fits, order := CompactHot(limit, change.value);
      if Filed(change.value) {
        Unnamed(change.value);
        ByIDMoves(change.value, order);
      }
      if !fits {
        return false, taken;
      }
      AllSpillable(change.value, order);
      taken := Some(Taken(Elements(order), ByID(spilled)));
      ok := ValidateDatabase(limit, next);
      ghost var before := State(disk.Contents(), Some(Copy()));
      StoreStep(limit, before, Action.Update(change, taken, outcome));
      if !ok {
        return;
      }
      ok := disk.Persist(next, spilled, outcome);
      if ok {
        data := next;
      } else {
        poisoned := true;
      }
    }
  }

  lemma AllSpillable(d: Database, ids: seq<string>)
    requires MayTake(d, ids)
    ensures forall id | id in Elements(ids) :: Spillable(d, id)
  {
  }

  lemma Unnamed(d: Database)
    requires Filed(d)
    ensures !Spillable(d, "")
  {
  }
}
