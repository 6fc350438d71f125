/**
 Dependency order of release targets: the dependency check of internal/ota/verify.go and the installation order of
 internal/ota/payload.go, two Kahn loops over the same graph.
 */
module Topo {
  import opened Model

  // ---------------------------------------------------------------- the graph

  predicate DistinctIds(ts: seq<Target>) {
    forall i, k | 0 <= i < k < |ts| :: ts[i].id != ts[k].id
  }

  function Ids(ts: seq<Target>): set<string> {
    set i | 0 <= i < |ts| :: ts[i].id
  }

  /** Every dependency names a target. */
  predicate Closed(ts: seq<Target>) {
    forall i, d | 0 <= i < |ts| && d in ts[i].dependsOn :: d in Ids(ts)
  }

  /** Target `a` depends directly on `b`. */
  predicate Edge(ts: seq<Target>, a: string, b: string) {
    exists i | 0 <= i < |ts| :: ts[i].id == a && b in ts[i].dependsOn
  }

  predicate Linked(ts: seq<Target>, p: seq<string>, i: nat)
    requires i + 1 < |p|
  {
    Edge(ts, p[i], p[i + 1])
  }

  predicate IsPath(ts: seq<Target>, p: seq<string>) {
    forall i: nat | i + 1 < |p| :: Linked(ts, p, i)
  }

  /** A closed walk: every element depends on the next and the last on the first. */
  predicate IsCycle(ts: seq<Target>, p: seq<string>) {
    |p| > 0 && IsPath(ts, p) && Edge(ts, p[|p| - 1], p[0])
  }

  ghost predicate Acyclic(ts: seq<Target>) {
    forall p :: !IsCycle(ts, p)
  }

  /** Each name is preceded by everything its target depends on. */
  predicate InOrder(ts: seq<Target>, order: seq<string>) {
    forall i, k, d | 0 <= i < |ts| && 0 <= k < |order| && order[k] == ts[i].id && d in ts[i].dependsOn ::
        d in order[..k]
  }

  // ---------------------------------------------------------------- order excludes cycles

  lemma {:induction false} PathDescends(ts: seq<Target>, order: seq<string>, p: seq<string>, k: nat) returns (m: nat)
    requires InOrder(ts, order) && |p| > 0 && IsPath(ts, p) && k < |order| && order[k] == p[0]
    requires forall x | x in p :: x in order
    ensures m <= k && order[m] == p[|p| - 1] && (|p| > 1 ==> m < k)
    decreases |p|
  {
    if |p| == 1 {
      m := k;
    } else {
      assert Linked(ts, p, 0);
      var i :| 0 <= i < |ts| && ts[i].id == p[0] && p[1] in ts[i].dependsOn;
      assert p[1] in order[..k];
      var k' :| 0 <= k' < k && order[k'] == p[1];
      forall x: nat | x + 1 < |p[1..]| ensures Linked(ts, p[1..], x) {
        assert Linked(ts, p, x + 1);
      }
      m := PathDescends(ts, order, p[1..], k');
    }
  }

  predicate NoDuplicates(s: seq<string>) {
    forall i, k | 0 <= i < k < |s| :: s[i] != s[k]
  }

  /** A complete order without repetition leaves no room for a cycle. */
  lemma OrderMeansAcyclic(ts: seq<Target>, order: seq<string>)
    requires InOrder(ts, order) && NoDuplicates(order) && Ids(ts) <= (set x | x in order)
    ensures Acyclic(ts)
  {
    forall p ensures !IsCycle(ts, p) {
      if IsCycle(ts, p) {
        forall x | x in p ensures x in order {
          var i :| 0 <= i < |p| && p[i] == x;
          assert i + 1 < |p| ==> Linked(ts, p, i);
          assert x in Ids(ts);
        }
        assert p[0] in order;
        var k :| 0 <= k < |order| && order[k] == p[0];
        var m := PathDescends(ts, order, p, k);
      }
    }
  }

  // ---------------------------------------------------------------- a stuck rest contains a cycle

  lemma {:induction false} Pigeonhole(s: seq<string>, pool: set<string>) returns (i: nat, k: nat)
    requires |s| > |pool| && forall x | x in s :: x in pool
    ensures i < k < |s| && s[i] == s[k]
    decreases |s|
  {
    var last := s[|s| - 1];
    if last in s[..|s| - 1] {
      i :| 0 <= i < |s| - 1 && s[i] == last;
      k := |s| - 1;
    } else {
      i, k := Pigeonhole(s[..|s| - 1], pool - {last});
    }
  }

  /** Every name in `rest` depends on another name in `rest`. */
  predicate Stuck(ts: seq<Target>, rest: set<string>) {
    forall a {:trigger DependsInside(ts, rest, a)} | a in rest :: DependsInside(ts, rest, a)
  }

  predicate DependsInside(ts: seq<Target>, rest: set<string>, a: string) {
    exists b | b in rest :: Edge(ts, a, b)
  }

  lemma {:induction false} LongWalk(ts: seq<Target>, rest: set<string>, a: string, n: nat) returns (p: seq<string>)
    requires Stuck(ts, rest) && a in rest
    ensures |p| == n + 1 && p[0] == a && IsPath(ts, p) && forall x | x in p :: x in rest
    decreases n
  {
    if n == 0 {
      p := [a];
    } else {
      assert DependsInside(ts, rest, a);
      var b :| b in rest && Edge(ts, a, b);
      var q := LongWalk(ts, rest, b, n - 1);
      p := [a] + q;
      forall i: nat | i + 1 < |p| ensures Linked(ts, p, i) {
        assert i > 0 ==> Linked(ts, q, i - 1);
      }
    }
  }

  /** A nonempty stuck set contains a cycle. */
  lemma StuckMeansCycle(ts: seq<Target>, rest: set<string>)
    requires Stuck(ts, rest) && rest != {}
    ensures !Acyclic(ts)
  {
    var a :| a in rest;
    var p := LongWalk(ts, rest, a, |rest|);
    var i, k := Pigeonhole(p, rest);
    var c := p[i..k];
    forall x: nat | x + 1 < |c| ensures Linked(ts, c, x) {
      assert Linked(ts, p, i + x);
    }
    assert Linked(ts, p, k - 1);
    assert IsCycle(ts, c);
  }

  // ---------------------------------------------------------------- counting open dependencies

  /** How many entries of `deps`, with repetition, are not yet done. */
  function Pending(deps: seq<string>, done: set<string>): nat {
    if deps == [] then 0
    else (if deps[|deps| - 1] in done then 0 else 1) + Pending(deps[..|deps| - 1], done)
  }

  lemma {:induction false} PendingZero(deps: seq<string>, done: set<string>)
    ensures Pending(deps, done) == 0 <==> forall d | d in deps :: d in done
  {
    if deps != [] {
      PendingZero(deps[..|deps| - 1], done);
      assert deps == deps[..|deps| - 1] + [deps[|deps| - 1]];
    }
  }

  lemma {:induction false} PendingNone(deps: seq<string>)
    ensures Pending(deps, {}) == |deps|
  {
    if deps != [] {
      PendingNone(deps[..|deps| - 1]);
    }
  }

  /** Scanning one more entry for `id` moves the count from before `id` was done to after. */
  lemma {:induction false} PendingSplit(deps: seq<string>, k: nat, done: set<string>, id: string)
    requires k <= |deps| && id !in done
    ensures Pending(deps[..k], done + {id}) <= Pending(deps[..k], done)
    ensures k < |deps| ==>
              Pending(deps[..k + 1], done) - Pending(deps[..k + 1], done + {id})
              == Pending(deps[..k], done) - Pending(deps[..k], done + {id}) + if deps[k] == id then 1 else 0
    ensures Pending(deps[..k], done) - Pending(deps[..k], done + {id})
            <= Pending(deps, done) - Pending(deps, done + {id})
    ensures Pending(deps, done + {id}) <= Pending(deps, done)
    decreases |deps| - k
  {
    PendingShrinks(deps[..k], done, id);
    PendingShrinks(deps, done, id);
    if k < |deps| {
      assert deps[..k + 1][..k] == deps[..k];
      PendingSplit(deps, k + 1, done, id);
    } else {
      assert deps[..k] == deps;
    }
  }

  lemma {:induction false} PendingShrinks(deps: seq<string>, done: set<string>, id: string)
    ensures Pending(deps, done + {id}) <= Pending(deps, done)
  {
    if deps != [] {
      PendingShrinks(deps[..|deps| - 1], done, id);
    }
  }

  // ---------------------------------------------------------------- the dependency check

  datatype Verdict = Fine | MissingDependency | DependencyCycle

  /** The counters say, for each target, how many of its dependencies are not done. */
  predicate Counts(ts: seq<Target>, incoming: map<string, nat>, done: set<string>) {
    incoming.Keys == Ids(ts) && forall i | 0 <= i < |ts| :: incoming[ts[i].id] == Pending(ts[i].dependsOn, done)
  }

  /** `ready` lists, once each, the targets outside `done` that wait for nothing; done targets wait for nothing. */
  predicate Lists(ts: seq<Target>, ready: seq<string>, done: set<string>) {
    && NoDuplicates(ready)
    && (forall x | x in ready :: x in Ids(ts) && x !in done)
    && (forall i | 0 <= i < |ts| :: ts[i].id in ready || ts[i].id in done <==> Pending(ts[i].dependsOn, done) == 0)
  }

  /** Marks `id` done in the counters of one target, scanning its dependencies in order. */
  method SettleTarget(t: Target, count: nat, id: string, ghost done: set<string>) returns (left: nat, freed: bool)
    requires id !in done && count == Pending(t.dependsOn, done)
    ensures left == Pending(t.dependsOn, done + {id})
    ensures freed <==> left == 0 && count > 0
  {
    left, freed := count, false;
    for k := 0 to |t.dependsOn|
      invariant left == count - (Pending(t.dependsOn[..k], done) - Pending(t.dependsOn[..k], done + {id}))
      invariant freed <==> left == 0 && count > 0
    {
      PendingSplit(t.dependsOn, k, done, id);
      PendingSplit(t.dependsOn, k + 1, done, id);
      if t.dependsOn[k] == id {
        left := left - 1;
        if left == 0 {
          freed := true;
        }
      }
    }
    assert t.dependsOn[..|t.dependsOn|] == t.dependsOn;
  }

  /** Half way through marking `id` done: the first `n` targets have been told. */
  predicate Told(ts: seq<Target>, incoming: map<string, nat>, ready: seq<string>, done: set<string>, id: string,
                 n: nat)
  {
    && incoming.Keys == Ids(ts)
    && (forall i | 0 <= i < |ts| :: incoming[ts[i].id] == Waits(ts, done, id, n, i))
    && NoDuplicates(ready)
    && (forall x | x in ready :: x in Ids(ts) && x !in done + {id})
    && (forall i | 0 <= i < |ts| :: ts[i].id in ready || ts[i].id in done + {id} <==> Waits(ts, done, id, n, i) == 0)
  }

  function Waits(ts: seq<Target>, done: set<string>, id: string, n: nat, i: nat): nat
    requires i < |ts|
  {
    Pending(ts[i].dependsOn, if i < n then done + {id} else done)
  }

  lemma ToldNone(ts: seq<Target>, incoming: map<string, nat>, ready: seq<string>, done: set<string>, id: string)
    requires Counts(ts, incoming, done) && Lists(ts, [id] + ready, done)
    ensures Told(ts, incoming, ready, done, id, 0)
  {
    var all := [id] + ready;
    assert all[0] == id && forall k | 0 <= k < |ready| :: all[k + 1] == ready[k];
    assert forall x :: x in all <==> x == id || x in ready;
  }

  lemma ToldAll(ts: seq<Target>, incoming: map<string, nat>, ready: seq<string>, done: set<string>, id: string)
    requires Told(ts, incoming, ready, done, id, |ts|)
    ensures Counts(ts, incoming, done + {id}) && Lists(ts, ready, done + {id})
  {
    assert forall i | 0 <= i < |ts| :: Waits(ts, done, id, |ts|, i) == Pending(ts[i].dependsOn, done + {id});
  }

  lemma ToldOne(ts: seq<Target>, incoming: map<string, nat>, ready: seq<string>, done: set<string>, id: string, n: nat)
    requires DistinctIds(ts) && n < |ts| && Told(ts, incoming, ready, done, id, n)
    ensures var left := Pending(ts[n].dependsOn, done + {id});
            Told(ts, incoming[ts[n].id := left],
                 if left == 0 && incoming[ts[n].id] > 0 then ready + [ts[n].id] else ready, done, id, n + 1)
  {
    PendingShrinks(ts[n].dependsOn, done, id);
    assert incoming[ts[n].id] == Waits(ts, done, id, n, n);
    assert ts[n].id in Ids(ts);
    assert forall i | 0 <= i < |ts| && i != n :: Waits(ts, done, id, n + 1, i) == Waits(ts, done, id, n, i);
  }

  /** Marks `id` done everywhere and appends the targets this frees. */
  method Settle(ts: seq<Target>, incoming0: map<string, nat>, ready0: seq<string>, id: string, ghost done: set<string>)
    returns (incoming: map<string, nat>, ready: seq<string>)
    requires DistinctIds(ts) && Counts(ts, incoming0, done) && id !in done && Lists(ts, [id] + ready0, done)
    ensures Counts(ts, incoming, done + {id}) && Lists(ts, ready, done + {id})
  {
    incoming, ready := incoming0, ready0;
    ToldNone(ts, incoming, ready, done, id);
    for n := 0 to |ts|
      invariant Told(ts, incoming, ready, done, id, n)
    {
      assert ts[n].id in Ids(ts) && incoming[ts[n].id] == Waits(ts, done, id, n, n);
      var left, freed := SettleTarget(ts[n], incoming[ts[n].id], id, done);
      ToldOne(ts, incoming, ready, done, id, n);
      incoming := incoming[ts[n].id := left];
      if freed {
        ready := ready + [ts[n].id];
      }
    }
    ToldAll(ts, incoming, ready, done, id);
  }

  /** A zero counter for every target. */
  method ZeroCounters(ts: seq<Target>) returns (incoming: map<string, nat>)
    ensures incoming.Keys == Ids(ts) && forall id | id in incoming :: incoming[id] == 0
  {
    incoming := map[];
    for n := 0 to |ts|
      invariant incoming.Keys == Ids(ts[..n]) && forall id | id in incoming :: incoming[id] == 0
    {
      incoming := incoming[ts[n].id := 0];
      assert Ids(ts[..n + 1]) == Ids(ts[..n]) + {ts[n].id};
    }
    assert ts[..|ts|] == ts;
  }

  /** Counts one target's dependencies, stopping at one that names no target. */
  method CountTarget(t: Target, incoming0: map<string, nat>) returns (known: bool, incoming: map<string, nat>)
    requires t.id in incoming0 && incoming0[t.id] == 0
    ensures known <==> forall d | d in t.dependsOn :: d in incoming0
    ensures known ==> incoming == incoming0[t.id := |t.dependsOn|]
  {
    incoming := incoming0;
    for k := 0 to |t.dependsOn|
      invariant incoming == incoming0[t.id := k]
      invariant forall i | 0 <= i < k :: t.dependsOn[i] in incoming0
    {
      if t.dependsOn[k] !in incoming {
        return false, incoming;
      }
      incoming := incoming[t.id := incoming[t.id] + 1];
    }
    known := true;
  }

  /** Counts dependencies, rejecting one that names no target. */
  method CountDependencies(ts: seq<Target>) returns (closed: bool, incoming: map<string, nat>)
    requires DistinctIds(ts)
    ensures closed <==> Closed(ts)
    ensures closed ==> Counts(ts, incoming, {})
  {
    incoming := ZeroCounters(ts);
    for n := 0 to |ts|
      invariant incoming.Keys == Ids(ts)
      invariant forall i | 0 <= i < |ts| :: incoming[ts[i].id] == if i < n then |ts[i].dependsOn| else 0
      invariant forall i, d | 0 <= i < n && d in ts[i].dependsOn :: d in Ids(ts)
    {
      closed, incoming := CountTarget(ts[n], incoming);
      if !closed {
        return;
      }
    }
    closed := true;
    forall i | 0 <= i < |ts| ensures incoming[ts[i].id] == Pending(ts[i].dependsOn, {}) {
      PendingNone(ts[i].dependsOn);
    }
  }

  /** Collects, in any order, the targets that wait for nothing. */
  method InitialReady(ts: seq<Target>, incoming: map<string, nat>) returns (ready: seq<string>)
    requires DistinctIds(ts) && Counts(ts, incoming, {})
    ensures Lists(ts, ready, {})
  {
    ready := [];
    var keys := incoming.Keys;
    while keys != {}
      invariant keys <= incoming.Keys
      invariant NoDuplicates(ready)
      invariant forall x :: x in ready <==> x in incoming && x !in keys && incoming[x] == 0
    {
      var id :| id in keys;
      keys := keys - {id};
      if incoming[id] == 0 {
        ready := ready + [id];
      }
    }
    forall i | 0 <= i < |ts| ensures ts[i].id in ready <==> Pending(ts[i].dependsOn, {}) == 0 {
      assert ts[i].id in Ids(ts);
    }
  }

  /** When nothing is ready, whatever is not done is stuck. */
  lemma NothingReadyIsStuck(ts: seq<Target>, done: set<string>)
    requires Closed(ts) && forall i | 0 <= i < |ts| && ts[i].id !in done :: Pending(ts[i].dependsOn, done) != 0
    ensures Stuck(ts, Ids(ts) - done)
  {
    var rest := Ids(ts) - done;
    forall a | a in rest ensures DependsInside(ts, rest, a) {
      var i :| 0 <= i < |ts| && ts[i].id == a;
      PendingZero(ts[i].dependsOn, done);
      var b :| b in ts[i].dependsOn && b !in done;
      assert Edge(ts, a, b);
    }
  }

  lemma ExtendOrder(ts: seq<Target>, order: seq<string>, id: string)
    requires DistinctIds(ts) && InOrder(ts, order)
    requires forall i | 0 <= i < |ts| && ts[i].id == id :: Pending(ts[i].dependsOn, Names(order)) == 0
    ensures InOrder(ts, order + [id])
  {
    forall i, k, d | 0 <= i < |ts| && 0 <= k < |order + [id]| && (order + [id])[k] == ts[i].id && d in ts[i].dependsOn
      ensures d in (order + [id])[..k]
    {
      PendingZero(ts[i].dependsOn, Names(order));
      assert k < |order| ==> (order + [id])[..k] == order[..k];
    }
  }

  function Names(order: seq<string>): set<string> {
    set x | x in order
  }

  lemma {:induction false} NamesCount(order: seq<string>)
    requires NoDuplicates(order)
    ensures |Names(order)| == |order|
  {
    if order != [] {
      var last := order[|order| - 1];
      NamesCount(order[..|order| - 1]);
      assert Names(order) == Names(order[..|order| - 1]) + {last};
    }
  }

  lemma {:induction false} IdsCount(ts: seq<Target>)
    requires DistinctIds(ts)
    ensures |Ids(ts)| == |ts|
  {
    if ts != [] {
      IdsCount(ts[..|ts| - 1]);
      assert Ids(ts) == Ids(ts[..|ts| - 1]) + {ts[|ts| - 1].id};
    }
  }

  lemma SubsetCount(a: set<string>, b: set<string>)
    requires a <= b
    ensures |a| <= |b| && (|a| == |b| ==> a == b)
  {
    assert b == a + (b - a);
  }

  /** `order` lists, dependencies first, the targets processed so far. */
  predicate Progress(ts: seq<Target>, incoming: map<string, nat>, ready: seq<string>, order: seq<string>) {
    && Counts(ts, incoming, Names(order)) && Lists(ts, ready, Names(order))
    && NoDuplicates(order) && InOrder(ts, order) && Names(order) <= Ids(ts) && |order| <= |ts|
  }

  lemma ProgressNext(ts: seq<Target>, incoming: map<string, nat>, ready: seq<string>, order: seq<string>, id: string,
                     incoming': map<string, nat>, ready': seq<string>)
    requires DistinctIds(ts) && Progress(ts, incoming, [id] + ready, order)
    requires Counts(ts, incoming', Names(order) + {id}) && Lists(ts, ready', Names(order) + {id})
    ensures Progress(ts, incoming', ready', order + [id])
  {
    assert ([id] + ready)[0] == id;
    assert Names(order + [id]) == Names(order) + {id};
    ExtendOrder(ts, order, id);
    NamesCount(order + [id]);
    IdsCount(ts);
    SubsetCount(Names(order + [id]), Ids(ts));
  }

  lemma ProgressEnds(ts: seq<Target>, incoming: map<string, nat>, order: seq<string>)
    requires DistinctIds(ts) && Closed(ts) && Progress(ts, incoming, [], order)
    ensures |order| == |ts| <==> Acyclic(ts)
  {
    NamesCount(order);
    IdsCount(ts);
    SubsetCount(Names(order), Ids(ts));
    if |order| == |ts| {
      OrderMeansAcyclic(ts, order);
    } else {
      assert Ids(ts) == Names(order) + (Ids(ts) - Names(order));
      NothingReadyIsStuck(ts, Names(order));
      StuckMeansCycle(ts, Ids(ts) - Names(order));
    }
  }

  /** The release is accepted exactly when every dependency names a target and there is no dependency cycle. */
  method TopoTargets(ts: seq<Target>) returns (r: Verdict)
    requires DistinctIds(ts)
    ensures r == MissingDependency <==> !Closed(ts)
    ensures r == Fine <==> Closed(ts) && Acyclic(ts)
  {
    hide Closed, Acyclic, Counts, Lists, InOrder, DistinctIds;
    var closed, incoming := CountDependencies(ts);
    if !closed {
      return MissingDependency;
    }
    var ready := InitialReady(ts, incoming);
    var seen := 0;
    ghost var order: seq<string> := [];
    assert Names(order) == {};
    EmptyOrder(ts);
    while ready != []
      invariant Progress(ts, incoming, ready, order) && seen == |order|
      decreases |ts| - seen
    {
      var id, rest := ready[0], ready[1..];
      assert ready == [id] + rest;
      ReadyNotDone(ts, id, rest, Names(order));
      seen := seen + 1;
      ghost var before := incoming;
      incoming, ready := Settle(ts, incoming, rest, id, Names(order));
      ProgressNext(ts, before, rest, order, id, incoming, ready);
      order := order + [id];
    }
    ProgressEnds(ts, incoming, order);
    r := if seen != |ts| then DependencyCycle else Fine;
  }

  lemma EmptyOrder(ts: seq<Target>)
    ensures InOrder(ts, [])
  {}

  lemma ReadyNotDone(ts: seq<Target>, id: string, rest: seq<string>, done: set<string>)
    requires Lists(ts, [id] + rest, done)
    ensures id !in done
  {
    assert ([id] + rest)[0] == id;
  }

  // ---------------------------------------------------------------- the installation order

  /** Every target comes after all the targets it depends on. */
  predicate DependenciesFirst(out: seq<Target>) {
    forall k, d | 0 <= k < |out| && d in out[k].dependsOn :: d in Ids(out[..k])
  }

  /** The counters of `ts` say how many dependencies are not done. */
  predicate Awaits(ts: seq<Target>, incoming: map<string, nat>, done: set<string>) {
    forall i | 0 <= i < |ts| :: ts[i].id in incoming && incoming[ts[i].id] == Pending(ts[i].dependsOn, done)
  }

  lemma IdsSplit(a: seq<Target>, b: seq<Target>)
    ensures Ids(a + b) == Ids(a) + Ids(b)
  {
    forall x | x in Ids(a) + Ids(b) ensures x in Ids(a + b) {
      if x in Ids(a) {
        var i :| 0 <= i < |a| && a[i].id == x;
        assert (a + b)[i].id == x;
      } else {
        var i :| 0 <= i < |b| && b[i].id == x;
        assert (a + b)[|a| + i].id == x;
      }
    }
  }

  /** `ready` and `rest` share out `left`: those that wait for nothing, and the others. */
  predicate IsSplit(left: seq<Target>, ready: seq<Target>, rest: seq<Target>, done: set<string>) {
    && multiset(ready) + multiset(rest) == multiset(left)
    && DistinctIds(ready) && DistinctIds(rest) && Ids(ready) !! Ids(rest) && Ids(ready) + Ids(rest) == Ids(left)
    && (forall t | t in ready :: Pending(t.dependsOn, done) == 0)
    && (forall t | t in rest :: Pending(t.dependsOn, done) != 0)
  }

  lemma DistinctAppend(ts: seq<Target>, t: Target)
    requires DistinctIds(ts) && t.id !in Ids(ts)
    ensures DistinctIds(ts + [t]) && Ids(ts + [t]) == Ids(ts) + {t.id}
  {
    IdsSplit(ts, [t]);
    assert [t][0].id == t.id;
    assert forall i | 0 <= i < |ts| :: ts[i].id in Ids(ts);
  }

  lemma SplitNext(left: seq<Target>, t: Target, ready: seq<Target>, rest: seq<Target>, done: set<string>)
    requires IsSplit(left, ready, rest, done) && t.id !in Ids(left)
    ensures Ids(left + [t]) == Ids(left) + {t.id}
    ensures Pending(t.dependsOn, done) == 0 ==> IsSplit(left + [t], ready + [t], rest, done)
    ensures Pending(t.dependsOn, done) != 0 ==> IsSplit(left + [t], ready, rest + [t], done)
  {
    IdsSplit(left, [t]);
    assert [t][0].id == t.id;
    if Pending(t.dependsOn, done) == 0 {
      DistinctAppend(ready, t);
    } else {
      DistinctAppend(rest, t);
    }
  }

  /** One round's split, both parts in their old order. */
  method Split(left: seq<Target>, incoming: map<string, nat>, ghost done: set<string>)
    returns (ready: seq<Target>, rest: seq<Target>)
    requires DistinctIds(left) && Awaits(left, incoming, done)
    ensures IsSplit(left, ready, rest, done) && Awaits(rest, incoming, done)
  {
    ready, rest := [], [];
    assert left[..0] == [];
    EmptySplit(done);
    hide IsSplit;
    for n := 0 to |left|
      invariant IsSplit(left[..n], ready, rest, done)
    {
      assert left[..n + 1] == left[..n] + [left[n]];
      SplitNext(left[..n], left[n], ready, rest, done);
      if incoming[left[n].id] == 0 {
        ready := ready + [left[n]];
      } else {
        rest := rest + [left[n]];
      }
    }
    assert left[..|left|] == left;
    SplitAwaits(left, ready, rest, incoming, done);
  }

  lemma EmptySplit(done: set<string>)
    ensures IsSplit([], [], [], done)
  {}

  lemma SplitAwaits(left: seq<Target>, ready: seq<Target>, rest: seq<Target>, incoming: map<string, nat>,
                    done: set<string>)
    requires IsSplit(left, ready, rest, done) && Awaits(left, incoming, done)
    ensures Awaits(rest, incoming, done)
  {
    forall i | 0 <= i < |rest|
      ensures rest[i].id in incoming && incoming[rest[i].id] == Pending(rest[i].dependsOn, done)
    {
      assert rest[i] in multiset(rest) && rest[i] in multiset(left) && rest[i] in left;
    }
  }

  /** Tells the rest that `id` is done. */
  method TellRest(rest: seq<Target>, incoming0: map<string, nat>, id: string, ghost done: set<string>)
    returns (incoming: map<string, nat>)
    requires DistinctIds(rest) && Awaits(rest, incoming0, done) && id !in done
    ensures Awaits(rest, incoming, done + {id})
  {
    incoming := incoming0;
    for n := 0 to |rest|
      invariant forall i | 0 <= i < |rest| :: rest[i].id in incoming
      invariant forall i | 0 <= i < |rest| ::
                  incoming[rest[i].id] == Pending(rest[i].dependsOn, if i < n then done + {id} else done)
    {
      var left, _ := SettleTarget(rest[n], incoming[rest[n].id], id, done);
      incoming := incoming[rest[n].id := left];
    }
  }

  /** Between rounds: `out` is a correct beginning of the order and `left` the targets still to place. */
  predicate Placing(ts: seq<Target>, incoming: map<string, nat>, left: seq<Target>, out: seq<Target>) {
    && multiset(left) + multiset(out) == multiset(ts)
    && DistinctIds(left) && Ids(left) !! Ids(out) && Ids(left) + Ids(out) == Ids(ts)
    && Awaits(left, incoming, Ids(out)) && DependenciesFirst(out) && DistinctIds(out)
  }

  /** Within a round: `m` of the ready targets have been placed after `out0`. */
  predicate PlacingRound(ts: seq<Target>, incoming: map<string, nat>, ready: seq<Target>, rest: seq<Target>,
                         out0: seq<Target>, out: seq<Target>, m: nat)
  {
    && m <= |ready| && out == out0 + ready[..m] && DependenciesFirst(out) && DistinctIds(rest) && DistinctIds(out)
    && Ids(rest) !! Ids(out) && Awaits(rest, incoming, Ids(out))
    && Ids(rest) + Ids(ready[m..]) + Ids(out) == Ids(ts)
    && multiset(rest) + multiset(ready[m..]) + multiset(out) == multiset(ts)
    && DistinctIds(ready) && Ids(ready[m..]) !! Ids(out) && Ids(ready) !! Ids(rest)
    && forall t | t in ready :: Pending(t.dependsOn, Ids(out0)) == 0
  }

  lemma RoundBegins(ts: seq<Target>, incoming: map<string, nat>, left: seq<Target>, out: seq<Target>,
                    ready: seq<Target>, rest: seq<Target>)
    requires Placing(ts, incoming, left, out) && IsSplit(left, ready, rest, Ids(out))
    requires Awaits(rest, incoming, Ids(out))
    ensures PlacingRound(ts, incoming, ready, rest, out, out, 0)
  {
    assert ready[0..] == ready && out + ready[..0] == out;
  }

  lemma RoundPlaces(ts: seq<Target>, incoming: map<string, nat>, ready: seq<Target>, rest: seq<Target>,
                    out0: seq<Target>, out: seq<Target>, m: nat, incoming': map<string, nat>)
    requires PlacingRound(ts, incoming, ready, rest, out0, out, m) && m < |ready|
    requires Awaits(rest, incoming', Ids(out) + {ready[m].id})
    ensures PlacingRound(ts, incoming', ready, rest, out0, out + [ready[m]], m + 1)
  {
    hide DependenciesFirst, DistinctIds, Ids, Pending, Awaits;
    var t := ready[m];
    assert ready[m..] == [t] + ready[m + 1..] && ready[..m + 1] == ready[..m] + [t];
    IdsSplit([t], ready[m + 1..]);
    IdsSplit(out, [t]);
    IdsSplit(out0, ready[..m]);
    IdsOne(t);
    IdsSplit(ready[..m], ready[m..]);
    assert ready == ready[..m] + ready[m..];
    PendingZero(t.dependsOn, Ids(out0));
    FirstAppend(out, t);
    DistinctTail(ready, m);
    DistinctAppend(out, t);
    assert out + [t] == out0 + ready[..m + 1];
    assert multiset(ready[m..]) == multiset{t} + multiset(ready[m + 1..]);
  }

  lemma IdsOne(t: Target)
    ensures Ids([t]) == {t.id}
  {
    assert [t][0] == t;
  }

  lemma FirstAppend(out: seq<Target>, t: Target)
    requires DependenciesFirst(out) && forall d | d in t.dependsOn :: d in Ids(out)
    ensures DependenciesFirst(out + [t])
  {
    forall k, d | 0 <= k < |out + [t]| && d in (out + [t])[k].dependsOn ensures d in Ids((out + [t])[..k]) {
      if k < |out| {
        assert (out + [t])[..k] == out[..k];
      } else {
        assert (out + [t])[..k] == out;
      }
    }
  }

  lemma DistinctTail(ts: seq<Target>, m: nat)
    requires DistinctIds(ts) && m < |ts|
    ensures ts[m].id !in Ids(ts[m + 1..])
  {
    var tail := ts[m + 1..];
    assert forall i | 0 <= i < |tail| :: tail[i] == ts[m + 1 + i];
  }

  lemma RoundEnds(ts: seq<Target>, incoming: map<string, nat>, ready: seq<Target>, rest: seq<Target>,
                  out0: seq<Target>, out: seq<Target>)
    requires PlacingRound(ts, incoming, ready, rest, out0, out, |ready|)
    ensures Placing(ts, incoming, rest, out) && |out| == |out0| + |ready|
  {
    assert ready[|ready|..] == [] && Ids(ready[|ready|..]) == {};
  }

  /** After the dependency check, a round with nothing ready is impossible. */
  lemma SomethingIsReady(ts: seq<Target>, incoming: map<string, nat>, left: seq<Target>, out: seq<Target>,
                         ready: seq<Target>, rest: seq<Target>)
    requires Closed(ts) && Acyclic(ts) && Placing(ts, incoming, left, out) && |out| < |ts|
    requires IsSplit(left, ready, rest, Ids(out))
    ensures ready != []
  {
    if ready == [] {
      assert |multiset(left)| + |multiset(out)| == |multiset(ts)|;
      assert left[0].id in Ids(left);
      forall i | 0 <= i < |ts| && ts[i].id !in Ids(out) ensures Pending(ts[i].dependsOn, Ids(out)) != 0 {
        assert ts[i] in multiset(ts);
        assert forall k | 0 <= k < |out| :: out[k].id in Ids(out);
        assert ts[i] in multiset(left) && ts[i] in multiset(rest);
      }
      NothingReadyIsStuck(ts, Ids(out));
      StuckMeansCycle(ts, Ids(ts) - Ids(out));
    }
  }

  /** Places the ready targets of one round after `out`, telling the rest. */
  method Place(ts: seq<Target>, incoming: map<string, nat>, left: seq<Target>, out: seq<Target>,
               ready: seq<Target>, rest: seq<Target>)
    returns (now: map<string, nat>, all: seq<Target>)
    requires Placing(ts, incoming, left, out) && IsSplit(left, ready, rest, Ids(out))
    requires Awaits(rest, incoming, Ids(out))
    ensures Placing(ts, now, rest, all) && |all| == |out| + |ready|
  {
    hide Closed, Acyclic, Awaits, DependenciesFirst, IsSplit, DistinctIds, Counts, Ids, Placing, PlacingRound;
    RoundBegins(ts, incoming, left, out, ready, rest);
    now, all := incoming, out;
    for m := 0 to |ready|
      invariant PlacingRound(ts, now, ready, rest, out, all, m)
    {
      RoundFacts(ts, now, ready, rest, out, all, m);
      var told := TellRest(rest, now, ready[m].id, Ids(all));
      RoundPlaces(ts, now, ready, rest, out, all, m, told);
      now, all := told, all + [ready[m]];
    }
    RoundEnds(ts, now, ready, rest, out, all);
  }

  /**
   The installation order: a permutation of the targets in which every target follows everything it depends on. It
   fails only where the dependency check fails; its own cycle error cannot happen.
   */
  method OrderedTargets(ts: seq<Target>) returns (r: Option<seq<Target>>)
    requires DistinctIds(ts)
    ensures r.Some? <==> Closed(ts) && Acyclic(ts)
    ensures r.Some? ==> multiset(r.value) == multiset(ts) && DependenciesFirst(r.value) && DistinctIds(r.value)
  {
    hide Closed, Acyclic, Awaits, DependenciesFirst, IsSplit, DistinctIds, Counts, Ids;
    var verdict := TopoTargets(ts);
    if verdict != Fine {
      return None;
    }
    var _, incoming := CountDependencies(ts);
    var left, out: seq<Target> := ts, [];
    PlacingBegins(ts, incoming);
    hide Placing, PlacingRound;
    while |out| < |ts|
      invariant Placing(ts, incoming, left, out)
      decreases |ts| - |out|
    {
      PlacingDistinct(ts, incoming, left, out);
      var ready, rest := Split(left, incoming, Ids(out));
      SomethingIsReady(ts, incoming, left, out, ready, rest);
      if ready == [] {
        assert false;  // the loop's own cycle error
      }
      incoming, out := Place(ts, incoming, left, out, ready, rest);
      left := rest;
    }
    PlacingEnds(ts, incoming, left, out);
    r := Some(out);
  }

  lemma PlacingBegins(ts: seq<Target>, incoming: map<string, nat>)
    requires DistinctIds(ts) && Counts(ts, incoming, {})
    ensures Placing(ts, incoming, ts, [])
  {
    assert Ids([]) == {};
    assert forall i | 0 <= i < |ts| :: ts[i].id in Ids(ts);
  }

  lemma PlacingDistinct(ts: seq<Target>, incoming: map<string, nat>, left: seq<Target>, out: seq<Target>)
    requires Placing(ts, incoming, left, out)
    ensures DistinctIds(left) && Awaits(left, incoming, Ids(out))
  {}

  lemma RoundFacts(ts: seq<Target>, incoming: map<string, nat>, ready: seq<Target>, rest: seq<Target>,
                   out0: seq<Target>, out: seq<Target>, m: nat)
    requires PlacingRound(ts, incoming, ready, rest, out0, out, m) && m < |ready|
    ensures DistinctIds(rest) && Awaits(rest, incoming, Ids(out)) && ready[m].id !in Ids(out)
  {
    assert ready[m..][0] == ready[m];
    assert ready[m].id in Ids(ready[m..]);
  }

  lemma PlacingEnds(ts: seq<Target>, incoming: map<string, nat>, left: seq<Target>, out: seq<Target>)
    requires Placing(ts, incoming, left, out) && |out| >= |ts|
    ensures multiset(out) == multiset(ts) && DependenciesFirst(out) && DistinctIds(out)
  {
    assert |multiset(left)| + |multiset(out)| == |multiset(ts)|;
    assert left == [];
  }
}
