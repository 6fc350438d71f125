/**
 Side payloads (internal/ota/payload.go): every non-OS target owns a `current` file and, while a release is being
 tried, a `previous` file. Applying a release replaces files target by target; a failure anywhere, or a later
 rollback, puts them back.
 */
module Payload {
  import opened Model
  import opened Topo

  type Bytes = seq<Byte>

  /** The payload directory: the two files of each target, by target ID. */
  datatype Tree = Tree(current: map<string, Bytes>, previous: map<string, Bytes>)

  /** Sets the current file aside, if there is one. */
  function Stashed(t: Tree, id: string): Tree {
    if id in t.current then Tree(t.current - {id}, t.previous[id := t.current[id]]) else t
  }

  /** Puts the previous file back, or removes the current one if there is none. */
  function Reverted(t: Tree, id: string): Tree {
    if id in t.previous then Tree(t.current[id := t.previous[id]], t.previous - {id})
    else Tree(t.current - {id}, t.previous)
  }

  function RevertedAll(t: Tree, ts: seq<Target>): Tree
    decreases |ts|
  {
    if ts == [] then t
    else if ts[0].kind == OsRauc then RevertedAll(t, ts[1..])
    else RevertedAll(Reverted(t, ts[0].id), ts[1..])
  }

  function CommittedAll(t: Tree, ts: seq<Target>): Tree
    decreases |ts|
  {
    if ts == [] then t
    else if ts[0].kind == OsRauc then CommittedAll(t, ts[1..])
    else CommittedAll(t.(previous := t.previous - {ts[0].id}), ts[1..])
  }

  /** The targets that own payload files. */
  function Sides(ts: seq<Target>): set<string> {
    set i | 0 <= i < |ts| && ts[i].kind != OsRauc :: ts[i].id
  }

  /** What a file map says about one name. */
  function At(m: map<string, Bytes>, id: string): Option<Bytes> {
    if id in m then Some(m[id]) else None
  }

  lemma SidesSplit(ts: seq<Target>)
    requires ts != []
    ensures Sides(ts) == (if ts[0].kind == OsRauc then {} else {ts[0].id}) + Sides(ts[1..])
  {
    forall x | x in Sides(ts[1..]) ensures x in Sides(ts) {
      var i :| 0 <= i < |ts[1..]| && ts[1..][i].kind != OsRauc && ts[1..][i].id == x;
      assert ts[i + 1] == ts[1..][i];
    }
    forall x | x in Sides(ts) ensures x in (if ts[0].kind == OsRauc then {} else {ts[0].id}) + Sides(ts[1..]) {
      var i :| 0 <= i < |ts| && ts[i].kind != OsRauc && ts[i].id == x;
      assert i > 0 ==> ts[1..][i - 1] == ts[i];
    }
  }

  lemma DistinctRest(ts: seq<Target>)
    requires DistinctIds(ts) && ts != []
    ensures DistinctIds(ts[1..]) && ts[0].id !in Sides(ts[1..])
  {
    forall i | 0 <= i < |ts[1..]| ensures ts[1..][i].id != ts[0].id {
      assert ts[1..][i] == ts[i + 1];
    }
  }

  /** Rolling back touches exactly the listed payloads, whatever their order. */
  lemma {:induction false} RevertedAllAt(t: Tree, ts: seq<Target>, id: string)
    requires DistinctIds(ts)
    ensures id !in Sides(ts) ==>
              At(RevertedAll(t, ts).current, id) == At(t.current, id)
                && At(RevertedAll(t, ts).previous, id) == At(t.previous, id)
    ensures id in Sides(ts) ==>
              At(RevertedAll(t, ts).current, id) == At(t.previous, id) && id !in RevertedAll(t, ts).previous
    decreases |ts|
  {
    if ts != [] {
      SidesSplit(ts);
      DistinctRest(ts);
      RevertedAllAt(if ts[0].kind == OsRauc then t else Reverted(t, ts[0].id), ts[1..], id);
    }
  }

  lemma {:induction false} CommittedAllAt(t: Tree, ts: seq<Target>, id: string)
    ensures CommittedAll(t, ts).current == t.current
    ensures At(CommittedAll(t, ts).previous, id) == if id in Sides(ts) then None else At(t.previous, id)
    decreases |ts|
  {
    if ts != [] {
      SidesSplit(ts);
      CommittedAllAt(if ts[0].kind == OsRauc then t else t.(previous := t.previous - {ts[0].id}), ts[1..], id);
    }
  }

  lemma {:induction false} RevertedAllNext(t: Tree, ts: seq<Target>, x: Target)
    ensures RevertedAll(t, ts + [x])
            == if x.kind == OsRauc then RevertedAll(t, ts) else Reverted(RevertedAll(t, ts), x.id)
    decreases |ts|
  {
    if ts == [] {
      assert ([] + [x])[1..] == [];
    } else {
      assert (ts + [x])[1..] == ts[1..] + [x];
      RevertedAllNext(if ts[0].kind == OsRauc then t else Reverted(t, ts[0].id), ts[1..], x);
    }
  }

  lemma {:induction false} CommittedAllNext(t: Tree, ts: seq<Target>, x: Target)
    ensures CommittedAll(t, ts + [x])
            == if x.kind == OsRauc then CommittedAll(t, ts)
               else CommittedAll(t, ts).(previous := CommittedAll(t, ts).previous - {x.id})
    decreases |ts|
  {
    if ts == [] {
      assert ([] + [x])[1..] == [];
    } else {
      assert (ts + [x])[1..] == ts[1..] + [x];
      CommittedAllNext(if ts[0].kind == OsRauc then t else t.(previous := t.previous - {ts[0].id}), ts[1..], x);
    }
  }

  /** The failing rename is one that the rollback gets to: its target has a backup at that point. */
  predicate Breaks(t: Tree, ts: seq<Target>, broken: Option<nat>) {
    && broken.Some? && broken.value < |ts| && ts[broken.value].kind != OsRauc
    && ts[broken.value].id in RevertedAll(t, ts[..broken.value]).previous
  }

  /** A rollback that stops at a failing rename: what comes before is back, that target has lost its current file. */
  function RevertedUpTo(t: Tree, ts: seq<Target>, broken: Option<nat>): Tree {
    if !Breaks(t, ts, broken) then RevertedAll(t, ts)
    else
      var s := RevertedAll(t, ts[..broken.value]);
      s.(current := s.current - {ts[broken.value].id})
  }

  /** A failing rename loses nothing: the backup it could not move is still there, and so is every later target's. */
  lemma BrokenKeepsBackups(t: Tree, ts: seq<Target>, n: nat, k: nat)
    requires DistinctIds(ts) && Breaks(t, ts, Some(n)) && n <= k < |ts| && ts[k].kind != OsRauc
    ensures At(RevertedUpTo(t, ts, Some(n)).previous, ts[k].id) == At(t.previous, ts[k].id)
    ensures k > n ==> At(RevertedUpTo(t, ts, Some(n)).current, ts[k].id) == At(t.current, ts[k].id)
  {
    var done := ts[..n];
    assert DistinctIds(done);
    assert forall i | 0 <= i < n :: done[i] == ts[i] && done[i].id != ts[k].id;
    RevertedAllAt(t, done, ts[k].id);
  }

  // ---------------------------------------------------------------- applying

  /** What can go wrong at a target besides a cached file that is not the signed one. */
  datatype Fault = NoFault | NoDirectory | NoSpace | RenameFails | CopyFails(partial: Option<Bytes>) | Unhealthy

  /** What goes wrong at the `n`-th target; nothing beyond the list. */
  function FaultAt(faults: seq<Fault>, n: nat): Fault {
    if n < |faults| then faults[n] else NoFault
  }

  /** The bytes a signed artifact stands for are in the cache. */
  predicate Cached(cache: map<Digest, Bytes>, a: Artifact) {
    a.digest in cache && |cache[a.digest]| == a.size && DigestOf(cache[a.digest]) == a.digest
  }

  /** The file that a rollback of `id` would bring back. */
  function Backup(t: Tree, id: string): Option<Bytes> {
    if id in t.current then Some(t.current[id]) else At(t.previous, id)
  }

  /** Every touched payload has its backup, every other one its current file. */
  ghost predicate Held(t0: Tree, t: Tree, touched: seq<Target>) {
    && (forall id | id in Sides(touched) :: At(t.previous, id) == Backup(t0, id))
    && (forall id | id !in Sides(touched) :: At(t.current, id) == At(t0.current, id))
  }

  /** The touched payloads are exactly the signed bytes. */
  predicate Fresh(t: Tree, touched: seq<Target>) {
    forall i | 0 <= i < |touched| ::
      At(t.current, touched[i].id) == Some(touched[i].artifact.digest.content)
      && |touched[i].artifact.digest.content| == touched[i].artifact.size
  }

  /** A payload with a leftover backup and nothing to back up. */
  predicate Leftover(t: Tree, id: string) {
    id in t.previous && id !in t.current
  }

  /** Rolling back what was touched restores every file, unless a touched payload had a leftover backup. */
  lemma RollbackRestores(t0: Tree, t: Tree, touched: seq<Target>)
    requires DistinctIds(touched) && Held(t0, t, touched)
    ensures RevertedAll(t, touched).current == t0.current <==> forall id | id in Sides(touched) :: !Leftover(t0, id)
  {
    var r := RevertedAll(t, touched);
    forall id ensures id !in Sides(touched) ==> At(r.current, id) == At(t0.current, id)
              ensures id in Sides(touched) ==> (At(r.current, id) == At(t0.current, id) <==> !Leftover(t0, id))
    {
      RevertedAllAt(t, touched, id);
    }
    if forall id | id in Sides(touched) :: !Leftover(t0, id) {
      assert forall id :: At(r.current, id) == At(t0.current, id);
      SameFiles(r.current, t0.current);
    }
  }

  lemma SameFiles(m: map<string, Bytes>, n: map<string, Bytes>)
    requires forall id :: At(m, id) == At(n, id)
    ensures m == n
  {
    forall id ensures id in m <==> id in n {
      assert At(m, id) == At(n, id);
    }
    forall id | id in m ensures m[id] == n[id] {
      assert At(m, id) == At(n, id);
    }
  }

  lemma SidesAppend(touched: seq<Target>, x: Target)
    requires x.kind != OsRauc
    ensures Sides(touched + [x]) == Sides(touched) + {x.id}
  {
    var all := touched + [x];
    assert all[|touched|] == x && forall i | 0 <= i < |touched| :: all[i] == touched[i];
  }

  /** The result of trying one target: the files, success, and whether a rollback must include it. */
  datatype Try = Try(files: Tree, ok: bool, touched: bool)

  function TryOne(t: Tree, x: Target, fault: Fault, cache: map<Digest, Bytes>): Try {
    if !Cached(cache, x.artifact) || fault == NoDirectory || fault == NoSpace then Try(t, false, false)
    else if x.id in t.current && fault == RenameFails
    then Try(t.(previous := t.previous - {x.id}), false, false)
    else
      var s := Stashed(t, x.id);
      match fault
      case CopyFails(None) => Try(s, false, true)
      case CopyFails(Some(partial)) => Try(s.(current := s.current[x.id := partial]), false, true)
      case _ => Try(s.(current := s.current[x.id := cache[x.artifact.digest]]), fault != Unhealthy, true)
  }

  /** The attempt gets as far as replacing the payload: the signed bytes are there, and so are directory and space. */
  predicate Touches(t: Tree, x: Target, fault: Fault, cache: map<Digest, Bytes>) {
    && Cached(cache, x.artifact) && !fault.NoDirectory? && !fault.NoSpace?
    && (fault.RenameFails? ==> x.id !in t.current)
  }

  /** The attempt succeeds: besides, the copy is complete and the health check passes. */
  predicate Succeeds(t: Tree, x: Target, fault: Fault, cache: map<Digest, Bytes>) {
    Cached(cache, x.artifact) && (fault.NoFault? || (fault.RenameFails? && x.id !in t.current))
  }

  /** What an attempt does, for every tree, target, fault and cache. */
  lemma TryOneExactly(t: Tree, x: Target, fault: Fault, cache: map<Digest, Bytes>)
    ensures var r := TryOne(t, x, fault, cache);
            && (r.ok <==> Succeeds(t, x, fault, cache))
            && (r.touched <==> Touches(t, x, fault, cache))
            && (forall id | id != x.id ::
                  At(r.files.current, id) == At(t.current, id) && At(r.files.previous, id) == At(t.previous, id))
            && (r.ok ==> At(r.files.current, x.id) == Some(x.artifact.digest.content))
            && (fault.Unhealthy? && r.touched ==> At(r.files.current, x.id) == Some(x.artifact.digest.content))
            && (fault.CopyFails? && r.touched ==> At(r.files.current, x.id) == fault.partial)
            && (r.touched ==> At(r.files.previous, x.id) == Backup(t, x.id))
            && (!r.touched ==> r.files.current == t.current)
            && (!r.touched ==> At(r.files.previous, x.id) == At(t.previous, x.id)
                               || (fault.RenameFails? && x.id !in r.files.previous))
  {
  }

  /** Trying one more target keeps every backup, and on success installs exactly the signed bytes. */
  lemma TryOneHolds(t0: Tree, t: Tree, touched: seq<Target>, x: Target, fault: Fault, cache: map<Digest, Bytes>)
    requires x.kind != OsRauc && x.id !in Sides(touched) && Held(t0, t, touched) && Fresh(t, touched)
    requires At(t.previous, x.id) == At(t0.previous, x.id) && forall i | 0 <= i < |touched| :: touched[i].kind != OsRauc
    ensures var r := TryOne(t, x, fault, cache);
            && Held(t0, r.files, if r.touched then touched + [x] else touched)
            && (r.ok ==> r.touched && Fresh(r.files, touched + [x]))
            && forall id | id != x.id :: At(r.files.previous, id) == At(t.previous, id)
  {
    var r := TryOne(t, x, fault, cache);
    SidesAppend(touched, x);
    assert At(t.current, x.id) == At(t0.current, x.id);
    assert forall id | id != x.id :: At(r.files.previous, id) == At(t.previous, id);
    assert forall id | id != x.id :: At(r.files.current, id) == At(t.current, id);
    if r.ok {
      forall i | 0 <= i < |touched| ensures touched[i].id != x.id {
        assert touched[i].id in Sides(touched);
      }
    }
  }

  lemma SidesGrow(order: seq<Target>, n: nat)
    requires DistinctIds(order) && n < |order|
    ensures order[n].id !in Sides(order[..n])
    ensures Sides(order[..n + 1]) == Sides(order[..n]) + if order[n].kind == OsRauc then {} else {order[n].id}
  {
    var a, b := order[..n], order[..n + 1];
    assert b[n] == order[n] && forall i | 0 <= i < n :: b[i] == a[i] == order[i];
  }

  lemma DistinctSides(done: seq<Target>, x: Target)
    requires DistinctIds(done) && x.id !in Sides(done) && forall i | 0 <= i < |done| :: done[i].kind != OsRauc
    ensures DistinctIds(done + [x])
  {
    assert forall i | 0 <= i < |done| :: done[i].id in Sides(done);
  }

  /** The first `n` targets of the order are in place; `done` are those of them that own payload files. */
  ghost predicate Trying(t0: Tree, t: Tree, order: seq<Target>, n: nat, done: seq<Target>) {
    && n <= |order| && Held(t0, t, done) && Fresh(t, done) && DistinctIds(done)
    && Sides(done) == Sides(order[..n]) && (forall i | 0 <= i < |done| :: done[i].kind != OsRauc)
    && (forall id | id !in Sides(done) :: At(t.previous, id) == At(t0.previous, id))
    && (forall k | 0 <= k < n && order[k].kind != OsRauc :: order[k] in done)
  }

  lemma TryingBegins(t0: Tree, order: seq<Target>)
    ensures Trying(t0, t0, order, 0, [])
  {
    assert Sides([]) == {};
  }

  lemma TryingSkips(t0: Tree, t: Tree, order: seq<Target>, n: nat, done: seq<Target>)
    requires DistinctIds(order) && Trying(t0, t, order, n, done) && n < |order| && order[n].kind == OsRauc
    ensures Trying(t0, t, order, n + 1, done)
  {
    SidesGrow(order, n);
  }

  lemma TryingNext(t0: Tree, t: Tree, order: seq<Target>, n: nat, done: seq<Target>, fault: Fault,
                   cache: map<Digest, Bytes>)
    requires DistinctIds(order) && Trying(t0, t, order, n, done) && n < |order| && order[n].kind != OsRauc
    ensures var r := TryOne(t, order[n], fault, cache);
            var d := if r.touched then done + [order[n]] else done;
            && (r.ok ==> r.touched && Trying(t0, r.files, order, n + 1, d))
            && (!r.ok ==> Held(t0, r.files, d) && DistinctIds(d) && Sides(d) <= Sides(order))
  {
    hide TryOne, Held, Fresh, At;
    var x := order[n];
    SidesGrow(order, n);
    SidesOfPrefix(order, n + 1);
    TryOneHolds(t0, t, done, x, fault, cache);
    SidesAppend(done, x);
    DistinctSides(done, x);
  }

  lemma SidesOfPrefix(order: seq<Target>, n: nat)
    requires n <= |order|
    ensures Sides(order[..n]) <= Sides(order)
  {
    assert forall i | 0 <= i < n :: order[..n][i] == order[i];
  }

  // ---------------------------------------------------------------- where applying stops

  /** The targets that own payload files, in their order. */
  function SideTargets(ts: seq<Target>): seq<Target> {
    if ts == [] then []
    else
      var n := |ts| - 1;
      SideTargets(ts[..n]) + if ts[n].kind == OsRauc then [] else [ts[n]]
  }

  /** Trying the `n`-th target fails, on the files as they were before anything was applied. */
  predicate Fails(t0: Tree, order: seq<Target>, faults: seq<Fault>, cache: map<Digest, Bytes>, n: nat)
    requires n < |order|
  {
    order[n].kind != OsRauc && !Succeeds(t0, order[n], FaultAt(faults, n), cache)
  }

  /** The first target that fails. */
  predicate StopsAt(t0: Tree, order: seq<Target>, faults: seq<Fault>, cache: map<Digest, Bytes>, n: nat) {
    n < |order| && Fails(t0, order, faults, cache, n) && forall m | 0 <= m < n :: !Fails(t0, order, faults, cache, m)
  }

  /** The payloads replaced by an apply that stops at the `n`-th target: those before it, and it if it got that far. */
  function Reached(t0: Tree, order: seq<Target>, faults: seq<Fault>, cache: map<Digest, Bytes>, n: nat): seq<Target>
    requires n < |order|
  {
    SideTargets(order[..n]) + if Touches(t0, order[n], FaultAt(faults, n), cache) then [order[n]] else []
  }

  lemma StopsOnce(t0: Tree, order: seq<Target>, faults: seq<Fault>, cache: map<Digest, Bytes>, n: nat)
    requires StopsAt(t0, order, faults, cache, n)
    ensures forall m :: StopsAt(t0, order, faults, cache, m) ==> m == n
  {
  }

  lemma SideTargetsNext(order: seq<Target>, n: nat)
    requires n < |order|
    ensures SideTargets(order[..n + 1]) == SideTargets(order[..n]) + if order[n].kind == OsRauc then [] else [order[n]]
  {
    assert order[..n + 1][..n] == order[..n];
  }

  /** Half way through an order that has not failed yet, the next target meets the files it met at the start. */
  lemma TryingLocal(t0: Tree, t: Tree, order: seq<Target>, n: nat, fault: Fault, cache: map<Digest, Bytes>)
    requires n < |order| && DistinctIds(order) && Trying(t0, t, order, n, SideTargets(order[..n]))
    ensures TryOne(t, order[n], fault, cache).ok <==> Succeeds(t0, order[n], fault, cache)
    ensures TryOne(t, order[n], fault, cache).touched <==> Touches(t0, order[n], fault, cache)
  {
    hide TryOne;
    SidesGrow(order, n);
    TryOneExactly(t, order[n], fault, cache);
    assert order[n].id in t.current <==> order[n].id in t0.current by {
      assert At(t.current, order[n].id) == At(t0.current, order[n].id);
    }
  }

  /** What a failed apply leaves when its clean-up works: the reached payloads hold what could be backed up. */
  ghost predicate Undone(t0: Tree, t: Tree, reached: seq<Target>) {
    && (forall id :: At(t.current, id) == if id in Sides(reached) then Backup(t0, id) else At(t0.current, id))
    && (t.current == t0.current <==> forall id | id in Sides(reached) :: !Leftover(t0, id))
  }

  lemma RevertingUndoes(t0: Tree, t: Tree, reached: seq<Target>)
    requires DistinctIds(reached) && Held(t0, t, reached)
    ensures Undone(t0, RevertedUpTo(t, reached, None), reached)
  {
    RollbackRestores(t0, t, reached);
    forall id
      ensures At(RevertedAll(t, reached).current, id)
              == if id in Sides(reached) then Backup(t0, id) else At(t0.current, id)
    {
      RevertedAllAt(t, reached, id);
    }
  }

  class Payloads {
    var current: map<string, Bytes>
    var previous: map<string, Bytes>
    var cache: map<Digest, Bytes>

    ghost function Files(): Tree
      reads this
    {
      Tree(current, previous)
    }

    /** Rolls the listed payloads back; `broken` is the index at which a rename fails, if any. */
    method Rollback(ts: seq<Target>, broken: Option<nat>) returns (ok: bool)
      modifies this`current, this`previous
      ensures Files() == RevertedUpTo(old(Files()), ts, broken)
      ensures ok <==> !Breaks(old(Files()), ts, broken)
    {
      for n := 0 to |ts|
        invariant Files() == RevertedAll(old(Files()), ts[..n])
        invariant Breaks(old(Files()), ts, broken) ==> n <= broken.value
      {
        assert ts[..n + 1] == ts[..n] + [ts[n]];
        RevertedAllNext(old(Files()), ts[..n], ts[n]);
        if ts[n].kind != OsRauc {
          var id := ts[n].id;
          if id in previous {
            current := current - {id};
            if broken == Some(n) {
              return false;
            }
            current, previous := current[id := previous[id]], previous - {id};
          } else {
            current := current - {id};
          }
        }
      }
      assert ts[..|ts|] == ts;
      ok := true;
    }

    /** Accepts the listed payloads: their backups go. */
    method Commit(ts: seq<Target>)
      modifies this`previous
      ensures Files() == CommittedAll(old(Files()), ts)
    {
      for n := 0 to |ts|
        invariant Files() == CommittedAll(old(Files()), ts[..n])
      {
        assert ts[..n + 1] == ts[..n] + [ts[n]];
        CommittedAllNext(old(Files()), ts[..n], ts[n]);
        if ts[n].kind != OsRauc {
          previous := previous - {ts[n].id};
        }
      }
      assert ts[..|ts|] == ts;
    }

    /** One target: back up, copy, check. */
    method ApplyOne(x: Target, fault: Fault) returns (ok: bool, touched: bool)
      modifies this`current, this`previous
      ensures Try(Files(), ok, touched) == TryOne(old(Files()), x, fault, cache)
    {
      if !Cached(cache, x.artifact) || fault == NoDirectory || fault == NoSpace {
        return false, false;
      }
      if x.id in current {
        if fault == RenameFails {
          previous := previous - {x.id};
          return false, false;
        }
        current, previous := current - {x.id}, previous[x.id := current[x.id]];
      }
      touched := true;
      if fault.CopyFails? {
        if fault.partial.Some? {
          current := current[x.id := fault.partial.value];
        }
        return false, true;
      }
      current := current[x.id := cache[x.artifact.digest]];
      ok := fault != Unhealthy;
    }

    /**
     Applies a release's payloads in dependency order, up to the first target whose attempt fails, and then rolls back
     the payloads it reached; `cleanup` is the index at which a rename of that rollback fails, if any. Where it stops,
     and so what it restores, is a function of the files, the cache and the faults: every current file is as before
     exactly if no payload it reached had a leftover backup and no current file.
     */
    method Apply(ts: seq<Target>, faults: seq<Fault>, cleanup: Option<nat>)
      returns (ok: bool, ghost order: Option<seq<Target>>, ghost tried: Tree)
      requires DistinctIds(ts)
      modifies this`current, this`previous
      ensures order.Some? <==> Closed(ts) && Acyclic(ts)
      ensures order.Some? ==> multiset(order.value) == multiset(ts) && DependenciesFirst(order.value)
      ensures ok <==>
                order.Some? && forall n | 0 <= n < |order.value| :: !Fails(old(Files()), order.value, faults, cache, n)
      ensures ok ==> Held(old(Files()), Files(), ts) && Applied(Files(), ts)
      ensures order.None? ==> Files() == old(Files())
      ensures order.Some? ==> forall n | StopsAt(old(Files()), order.value, faults, cache, n) ::
                var reached := Reached(old(Files()), order.value, faults, cache, n);
                && Held(old(Files()), tried, reached) && Files() == RevertedUpTo(tried, reached, cleanup)
                && (cleanup.None? ==> Undone(old(Files()), Files(), reached))
    {
      hide Closed, Acyclic, DistinctIds, DependenciesFirst, Held, Applied, Trying, TryOne, Leftover, RevertedUpTo,
           Undone, SideTargets, Succeeds, Touches;
      ghost var t0 := Files();
      tried := t0;
      var found := OrderedTargets(ts);
      order := found;
      if found.None? {
        return false, order, tried;
      }
      var done: seq<Target> := [];
      TryingBegins(t0, found.value);
      NoSides(found.value);
      for n := 0 to |found.value|
        invariant done == SideTargets(found.value[..n])
        invariant Trying(t0, Files(), found.value, n, done)
        invariant forall m | 0 <= m < n :: !Fails(t0, found.value, faults, cache, m)
      {
        var x := found.value[n];
        SideTargetsNext(found.value, n);
        if x.kind != OsRauc {
          TryingLocal(t0, Files(), found.value, n, FaultAt(faults, n), cache);
          TryingNext(t0, Files(), found.value, n, done, FaultAt(faults, n), cache);
          var good, reached := ApplyOne(x, FaultAt(faults, n));
          if reached {
            done := done + [x];
          }
          if !good {
            tried := Files();
            assert done == Reached(t0, found.value, faults, cache, n);
            assert forall m :: StopsAt(t0, found.value, faults, cache, m) ==> m == n by {
              StopsOnce(t0, found.value, faults, cache, n);
            }
            RevertingUndoes(t0, tried, done);
            var _ := Rollback(done, cleanup);
            assert Fails(old(Files()), order.value, faults, cache, n);
            return false, order, tried;
          }
        } else {
          TryingSkips(t0, Files(), found.value, n, done);
        }
      }
      TryingEnds(t0, Files(), ts, found.value, done);
      ok := true;
    }
  }

  lemma NoSides(order: seq<Target>)
    ensures SideTargets(order[..0]) == []
  {
  }

  /** The cache holds every side payload of the release. */
  predicate AllCached(cache: map<Digest, Bytes>, ts: seq<Target>) {
    forall i | 0 <= i < |ts| && ts[i].kind != OsRauc :: Cached(cache, ts[i].artifact)
  }

  /** With every payload in the cache and no fault, nothing fails. */
  lemma NothingFails(t0: Tree, ts: seq<Target>, order: seq<Target>, faults: seq<Fault>, cache: map<Digest, Bytes>,
                     n: nat)
    requires multiset(order) == multiset(ts) && n < |order| && AllCached(cache, ts) && FaultAt(faults, n) == NoFault
    ensures !Fails(t0, order, faults, cache, n)
  {
    assert order[n] in multiset(order);
    assert order[n] in ts;
  }

  lemma SamePermutation(ts: seq<Target>, order: seq<Target>)
    requires multiset(order) == multiset(ts)
    ensures Sides(ts) == Sides(order)
  {
    assert forall x :: x in ts <==> x in multiset(ts);
    assert forall x :: x in order <==> x in multiset(order);
    forall x | x in Sides(ts) ensures x in Sides(order) {
      var i :| 0 <= i < |ts| && ts[i].kind != OsRauc && ts[i].id == x;
      assert ts[i] in order;
    }
    forall x | x in Sides(order) ensures x in Sides(ts) {
      var i :| 0 <= i < |order| && order[i].kind != OsRauc && order[i].id == x;
      assert order[i] in ts;
    }
  }

  lemma TryingEnds(t0: Tree, t: Tree, ts: seq<Target>, order: seq<Target>, done: seq<Target>)
    requires multiset(order) == multiset(ts) && Trying(t0, t, order, |order|, done)
    ensures Applied(t, ts) && Held(t0, t, ts)
  {
    assert order[..|order|] == order;
    SamePermutation(ts, order);
    forall i | 0 <= i < |ts| && ts[i].kind != OsRauc ensures ts[i] in done {
      assert ts[i] in multiset(ts) && ts[i] in order;
    }
  }

  /** Every payload of the release is exactly its signed bytes. */
  predicate Applied(t: Tree, ts: seq<Target>) {
    forall i | 0 <= i < |ts| && ts[i].kind != OsRauc ::
      At(t.current, ts[i].id) == Some(ts[i].artifact.digest.content)
      && |ts[i].artifact.digest.content| == ts[i].artifact.size
  }

  /** An OS target owns no payload file. */
  lemma OsOwnsNothing(ts: seq<Target>, i: nat)
    requires DistinctIds(ts) && i < |ts| && ts[i].kind == OsRauc
    ensures ts[i].id !in Sides(ts)
  {}

  /** Apply then commit: exactly the signed bytes, no backups left, OS targets and strangers untouched. */
  lemma CommitLeavesNew(t0: Tree, t: Tree, ts: seq<Target>)
    requires DistinctIds(ts) && Held(t0, t, ts) && Applied(t, ts)
    ensures var c := CommittedAll(t, ts);
            && Applied(c, ts) && c.previous.Keys !! Sides(ts)
            && (forall id | id !in Sides(ts) :: At(c.current, id) == At(t0.current, id))
            && (forall i | 0 <= i < |ts| && ts[i].kind == OsRauc :: At(c.current, ts[i].id) == At(t0.current, ts[i].id))
  {
    var c := CommittedAll(t, ts);
    forall id | id in Sides(ts) ensures id !in c.previous {
      CommittedAllAt(t, ts, id);
      assert At(c.previous, id) == None;
    }
    CommittedAllAt(t, ts, "");
    forall i | 0 <= i < |ts| && ts[i].kind == OsRauc ensures At(c.current, ts[i].id) == At(t0.current, ts[i].id) {
      OsOwnsNothing(ts, i);
    }
  }

  /** Where a leftover comes from: a death after the current file was set aside and before the new one was there. */
  lemma DeathLeavesLeftover(t: Tree, x: Target, cache: map<Digest, Bytes>)
    requires x.id in t.current && Cached(cache, x.artifact)
    ensures var u := TryOne(t, x, CopyFails(None), cache).files;
            Leftover(u, x.id) && At(u.previous, x.id) == At(t.current, x.id)
  {
  }

  /** Or a rollback stopped by a failing rename. */
  lemma BrokenLeavesLeftover(t: Tree, ts: seq<Target>, n: nat)
    requires Breaks(t, ts, Some(n))
    ensures Leftover(RevertedUpTo(t, ts, Some(n)), ts[n].id)
  {
  }

  /**
   After such a death a retry that fails, wherever it fails once it got to the target, restores what was there at first.
   */
  lemma RetryRestoresOriginal(t: Tree, x: Target, fault: Fault, cache: map<Digest, Bytes>)
    requires x.id in t.current && Cached(cache, x.artifact)
    ensures var u := TryOne(t, x, CopyFails(None), cache).files;
            var r := TryOne(u, x, fault, cache);
            r.touched ==> At(Reverted(r.files, x.id).current, x.id) == At(t.current, x.id)
  {
  }

  /**
   Why the condition is there: a backup without a current file, left by a death between the rename and the copy or by
   a rollback whose rename failed, comes back as the current file.
   */
  lemma LeftoverComesBack(x: Target, stale: Bytes, latest: Bytes)
    requires x.kind != OsRauc
    ensures var t0 := Tree(map[], map[x.id := stale]);
            var t := Tree(map[x.id := latest], map[x.id := stale]);
            && Held(t0, t, [x]) && Leftover(t0, x.id)
            && RevertedAll(t, [x]).current == map[x.id := stale] && t0.current == map[]
  {
    var t := Tree(map[x.id := latest], map[x.id := stale]);
    assert [x][0] == x && Sides([x]) == {x.id};
    assert RevertedAll(t, [x]) == RevertedAll(Reverted(t, x.id), [x][1..]);
  }
}
