/**
 The relay cache (internal/relay/relay.go) as the interleaved steps of its requests: look for the file, take the
 fill lock, look again, ask upstream, copy through a hash into a temporary file, rename, serve. Upstream may fail or
 send anything, any file operation may fail, also a look at a file that is there, and the relay may be restarted at any
 moment.
 */
module Relay {
  import opened Model

  type Bytes = seq<Byte>

  /** Where a request stands. From `Holding` on it has the fill lock, up to `Serving(_, true)`. */
  datatype Phase =
    | Asking(name: Digest)
    | Waiting(name: Digest)
    | Holding(name: Digest)
    | Contacting(name: Digest)
    | Opening(name: Digest)
    | Copying(name: Digest, hashed: Bytes)
    | Renaming(name: Digest)
    | Serving(name: Digest, locked: bool)

  predicate NeedsLock(p: Phase) {
    !p.Asking? && !p.Waiting? && (p.Serving? ==> p.locked)
  }

  /** Past the second look at the cache and not yet stored. */
  predicate Filling(p: Phase) {
    p.Contacting? || p.Opening? || p.Copying? || p.Renaming?
  }

  datatype World = World(files: map<Digest, Bytes>, parts: map<Digest, Bytes>, lock: Option<nat>,
                         phases: map<nat, Phase>, fetches: nat,
                         // history
                         contacts: seq<Digest>, stored: seq<Digest>, served: seq<(Digest, Bytes)>)

  datatype Step =
    | Arrive(client: nat, name: Digest)
    | Look(client: nat, failed: bool)
    | TakeLock(client: nat)
    | LookAgain(client: nat, failed: bool)
    | Contact(client: nat, ok: bool)
    | Open(client: nat, ok: bool)
    | CopyByte(client: nat, byte: Byte)
    | EndCopy(client: nat, broken: bool, removed: bool)
    | Rename(client: nat, ok: bool)
    | Serve(client: nat)
    | Restart

  predicate Enabled(w: World, s: Step) {
    match s
    case Restart => true
    case Arrive(c, _) => c !in w.phases
    case Look(c, _) => c in w.phases && w.phases[c].Asking?
    case TakeLock(c) => c in w.phases && w.phases[c].Waiting? && w.lock.None?
    case LookAgain(c, _) => c in w.phases && w.phases[c].Holding?
    case Contact(c, _) => c in w.phases && w.phases[c].Contacting?
    case Open(c, _) => c in w.phases && w.phases[c].Opening?
    case CopyByte(c, _) => c in w.phases && w.phases[c].Copying?
    case EndCopy(c, _, _) => c in w.phases && w.phases[c].Copying?
    case Rename(c, _) => c in w.phases && w.phases[c].Renaming?
    case Serve(c) => c in w.phases && w.phases[c].Serving?
  }

  function To(w: World, c: nat, p: Phase): World {
    w.(phases := w.phases[c := p])
  }

  /** The request is over; its lock, if it has it, is released. */
  function Ended(w: World, c: nat): World
    requires c in w.phases
  {
    w.(phases := w.phases - {c}, lock := if NeedsLock(w.phases[c]) then None else w.lock)
  }

  function PartOf(w: World, name: Digest): Bytes {
    if name in w.parts then w.parts[name] else []
  }

  function Apply(w: World, s: Step): World
    requires Enabled(w, s)
  {
    match s
    case Restart => w.(lock := None, phases := map[], fetches := 0)
    case Arrive(c, name) => To(w, c, Asking(name))
    case Look(c, failed) =>
      var name := w.phases[c].name;
      To(w, c, if name in w.files && !failed then Serving(name, false) else Waiting(name))
    case TakeLock(c) => To(w.(lock := Some(c)), c, Holding(w.phases[c].name))
    case LookAgain(c, failed) =>
      var name := w.phases[c].name;
      To(w, c, if name in w.files && !failed then Serving(name, true) else Contacting(name))
    case Contact(c, ok) =>
      var name := w.phases[c].name;
      var v := w.(contacts := w.contacts + [name]);
      if ok then To(v.(fetches := v.fetches + 1), c, Opening(name)) else Ended(v, c)
    case Open(c, ok) =>
      var name := w.phases[c].name;
      if ok then To(w.(parts := w.parts[name := []]), c, Copying(name, [])) else Ended(w, c)
    case CopyByte(c, byte) =>
      var p := w.phases[c];
      To(w.(parts := w.parts[p.name := PartOf(w, p.name) + [byte]]), c, Copying(p.name, p.hashed + [byte]))
    case EndCopy(c, broken, removed) =>
      var p := w.phases[c];
      if !broken && DigestOf(p.hashed) == p.name then To(w, c, Renaming(p.name))
      else Ended(w.(parts := if removed then w.parts - {p.name} else w.parts), c)
    case Rename(c, ok) =>
      var name := w.phases[c].name;
      if !ok then Ended(w, c)
      else To(w.(files := w.files[name := PartOf(w, name)], parts := w.parts - {name}, stored := w.stored + [name]),
              c, Serving(name, true))
    case Serve(c) =>
      var name := w.phases[c].name;
      Ended(w.(served := w.served + [(name, if name in w.files then w.files[name] else [])]), c)
  }

  /** A relay on a cache directory that it, or an earlier process, filled; temporary files may hold anything. */
  predicate Begins(w: World) {
    && (forall d | d in w.files :: DigestOf(w.files[d]) == d) && w.lock.None? && w.phases == map[]
    && w.contacts == [] && w.stored == [] && w.served == []
  }

  // ---------------------------------------------------------------- what every step keeps

  /** What a request's phase promises about the cache. */
  predicate PhaseHolds(w: World, c: nat)
    requires c in w.phases
  {
    var p := w.phases[c];
    && (NeedsLock(p) ==> w.lock == Some(c))
    && (p.Copying? ==> PartOf(w, p.name) == p.hashed)
    && (p.Renaming? ==> DigestOf(PartOf(w, p.name)) == p.name)
    && (p.Serving? ==> p.name in w.files)
  }

  predicate FilesHold(w: World) {
    && (forall d | d in w.files :: DigestOf(w.files[d]) == d)
    && (forall i | 0 <= i < |w.stored| :: w.stored[i] in w.files)
    && (forall i | 0 <= i < |w.served| :: DigestOf(w.served[i].1) == w.served[i].0)
  }

  predicate Inv(w: World) {
    && FilesHold(w)
    && (forall c | c in w.phases :: PhaseHolds(w, c))
    && (w.lock.Some? ==> w.lock.value in w.phases && NeedsLock(w.phases[w.lock.value]))
  }

  /** Requests other than the one that moves keep their promises: only the holder of the lock changes files. */
  lemma OthersKeep(w: World, v: World, c: nat, other: nat)
    requires Inv(w) && c in w.phases && other in w.phases && other != c
    requires other in v.phases && v.phases[other] == w.phases[other]
    requires v.lock == w.lock || (w.lock == Some(c) && v.lock.None?) || (w.lock.None? && v.lock == Some(c))
    requires w.files.Keys <= v.files.Keys
    requires w.lock == Some(c) || (v.files == w.files && v.parts == w.parts)
    ensures PhaseHolds(v, other)
  {
    assert PhaseHolds(w, other);
  }

  lemma FilesKeep(w: World, s: Step)
    requires Inv(w) && Enabled(w, s)
    ensures FilesHold(Apply(w, s))
  {
    if !s.Restart? && !s.Arrive? {
      assert PhaseHolds(w, s.client);
    }
  }

  lemma MoverKeeps(w: World, s: Step)
    requires Inv(w) && Enabled(w, s) && !s.Restart?
    ensures var v := Apply(w, s); var me := Some(s.client);
            && (s.client in v.phases ==> PhaseHolds(v, s.client))
            && (v.lock == w.lock || (w.lock == me && v.lock.None?) || (w.lock.None? && v.lock == me))
            && (w.lock == me || (v.files == w.files && v.parts == w.parts))
            && w.files.Keys <= v.files.Keys
            && (forall o | o in w.phases && o != s.client :: o in v.phases && v.phases[o] == w.phases[o])
            && (forall o | o in v.phases && o != s.client :: o in w.phases)
            && (v.lock == me ==> s.client in v.phases && NeedsLock(v.phases[s.client]))
  {
    if !s.Arrive? {
      assert PhaseHolds(w, s.client);
    }
  }

  lemma Keep(w: World, s: Step)
    requires Inv(w) && Enabled(w, s)
    ensures Inv(Apply(w, s))
  {
    hide FilesHold, PhaseHolds, Apply;
    FilesKeep(w, s);
    var v := Apply(w, s);
    if s.Restart? {
      assert v.phases == map[] && v.lock.None? by {
        RestartClears(w);
      }
    } else {
      MoverKeeps(w, s);
      forall o | o in v.phases && o != s.client ensures PhaseHolds(v, o) {
        if s.Arrive? {
          ArriveKeeps(w, s, o);
        } else {
          OthersKeep(w, v, s.client, o);
        }
      }
    }
  }

  lemma RestartClears(w: World)
    ensures Apply(w, Restart).phases == map[] && Apply(w, Restart).lock.None?
  {
  }

  lemma ArriveKeeps(w: World, s: Step, o: nat)
    requires Inv(w) && Enabled(w, s) && s.Arrive? && o in w.phases
    ensures o in Apply(w, s).phases && PhaseHolds(Apply(w, s), o)
  {
    assert PhaseHolds(w, o);
  }

  /** A stored file never changes: what replaces it hashes to the same name. */
  lemma FilesAreFinal(w: World, s: Step)
    requires Inv(w) && Enabled(w, s)
    ensures forall d | d in w.files :: d in Apply(w, s).files && Apply(w, s).files[d] == w.files[d]
  {
    if !s.Restart? && !s.Arrive? {
      assert PhaseHolds(w, s.client);
    }
  }

  // ---------------------------------------------------------------- with looks that tell the truth

  /** The second look, under the lock, does not fail on a file that is there. */
  predicate Truthful(w: World, s: Step) {
    s.LookAgain? && s.client in w.phases && s.failed ==> w.phases[s.client].name !in w.files
  }

  /** Only missing files are being fetched, and none was stored twice. */
  predicate Fresh(w: World) {
    && (forall c | c in w.phases && Filling(w.phases[c]) :: w.phases[c].name !in w.files)
    && (forall i, k | 0 <= i < k < |w.stored| :: w.stored[i] != w.stored[k])
  }

  lemma FreshRename(w: World, s: Step)
    requires Inv(w) && Enabled(w, s) && Fresh(w) && s.Rename? && s.ok
    ensures Fresh(Apply(w, s))
  {
    assert PhaseHolds(w, s.client);
    assert forall c | c in w.phases && Filling(w.phases[c]) :: PhaseHolds(w, c) && c == s.client;
  }

  lemma FreshStep(w: World, s: Step)
    requires Inv(w) && Enabled(w, s) && Fresh(w) && Truthful(w, s)
    ensures Fresh(Apply(w, s))
  {
    if s.Rename? && s.ok {
      FreshRename(w, s);
    }
  }

  /** A request goes on to fetch a file that is there exactly if its second look fails on it. */
  lemma RefetchesExactly(w: World, s: Step)
    requires Enabled(w, s) && s.LookAgain?
    ensures var p := Apply(w, s).phases[s.client];
            p.Contacting? && p.name in w.files <==> s.failed && w.phases[s.client].name in w.files
  {
  }

  // ---------------------------------------------------------------- runs

  ghost predicate IsRun(ws: seq<World>, ss: seq<Step>) {
    && |ws| == |ss| + 1 && Begins(ws[0])
    && forall i | 0 <= i < |ss| :: Moves(ws, ss, i)
  }

  ghost predicate Moves(ws: seq<World>, ss: seq<Step>, i: nat)
    requires i < |ss| && |ws| == |ss| + 1
  {
    Enabled(ws[i], ss[i]) && ws[i + 1] == Apply(ws[i], ss[i])
  }

  lemma {:induction false} RunKeeps(ws: seq<World>, ss: seq<Step>, n: nat)
    requires IsRun(ws, ss) && n < |ws|
    ensures Inv(ws[n])
  {
    hide Apply, Enabled;
    if n > 0 {
      RunKeeps(ws, ss, n - 1);
      assert Moves(ws, ss, n - 1);
      Keep(ws[n - 1], ss[n - 1]);
    }
  }

  lemma {:induction false} FilesStay(ws: seq<World>, ss: seq<Step>, i: nat, k: nat, name: Digest)
    requires IsRun(ws, ss) && i <= k < |ws| && name in ws[i].files
    ensures name in ws[k].files && ws[k].files[name] == ws[i].files[name]
    decreases k
  {
    hide Inv, Apply, Enabled;
    if i < k {
      FilesStay(ws, ss, i, k - 1, name);
      RunKeeps(ws, ss, k - 1);
      assert Moves(ws, ss, k - 1);
      FilesAreFinal(ws[k - 1], ss[k - 1]);
    }
  }

  /**
   Under every interleaving, whatever fails: everything served hashes to its name, and a stored file never changes.
   */
  lemma CacheIsSound(ws: seq<World>, ss: seq<Step>, i: nat, k: nat)
    requires IsRun(ws, ss) && i <= k < |ws|
    ensures forall a | 0 <= a < |ws[k].served| :: DigestOf(ws[k].served[a].1) == ws[k].served[a].0
    ensures forall d | d in ws[i].files :: d in ws[k].files && ws[k].files[d] == ws[i].files[d]
  {
    hide Apply, Enabled;
    RunKeeps(ws, ss, k);
    forall d | d in ws[i].files ensures d in ws[k].files && ws[k].files[d] == ws[i].files[d] {
      FilesStay(ws, ss, i, k, d);
    }
  }

  lemma {:induction false} RunIsFresh(ws: seq<World>, ss: seq<Step>, n: nat)
    requires IsRun(ws, ss) && n < |ws| && forall i | 0 <= i < |ss| :: Truthful(ws[i], ss[i])
    ensures Fresh(ws[n])
  {
    hide Inv, Apply, Enabled, Truthful;
    if n > 0 {
      RunIsFresh(ws, ss, n - 1);
      RunKeeps(ws, ss, n - 1);
      assert Moves(ws, ss, n - 1);
      FreshStep(ws[n - 1], ss[n - 1]);
    }
  }

  /**
   Under every interleaving in which no second look fails on a file that is there: a digest is stored at most once, and
   once a file is stored no request asks upstream for it.
   */
  lemma StoredOnce(ws: seq<World>, ss: seq<Step>, i: nat, k: nat)
    requires IsRun(ws, ss) && i <= k < |ss| && forall n | 0 <= n < |ss| :: Truthful(ws[n], ss[n])
    ensures forall a, b | 0 <= a < b < |ws[k].stored| :: ws[k].stored[a] != ws[k].stored[b]
    ensures ss[k].Contact? ==> ss[k].client in ws[k].phases && ws[k].phases[ss[k].client].name !in ws[i].files
  {
    hide Inv, Truthful, Apply;
    RunIsFresh(ws, ss, k);
    assert Moves(ws, ss, k);
    if ss[k].Contact? && ws[k].phases[ss[k].client].name in ws[i].files {
      FilesStay(ws, ss, i, k, ws[k].phases[ss[k].client].name);
    }
  }

  /** At most one request is ever between its second look and the end of its fill, whatever it fills. */
  lemma OneFillAtATime(ws: seq<World>, ss: seq<Step>, n: nat, a: nat, b: nat)
    requires IsRun(ws, ss) && n < |ws|
    requires a in ws[n].phases && b in ws[n].phases && Filling(ws[n].phases[a]) && Filling(ws[n].phases[b])
    ensures a == b
  {
    RunKeeps(ws, ss, n);
    assert PhaseHolds(ws[n], a) && PhaseHolds(ws[n], b);
  }

  // ---------------------------------------------------------------- every request is answered

  /** A request that holds an answer: the file is there, and it is served next. */
  predicate Answered(w: World, c: nat, name: Digest) {
    c in w.phases && w.phases[c].Serving? && w.phases[c].name == name && name in w.files
  }

  /**
   A look that succeeds, the first or the second, and a rename that succeeds lead to an answer, and nothing else does.
   */
  lemma AnswersExactly(w: World, s: Step)
    requires Inv(w) && Enabled(w, s) && !s.Restart? && !s.Serve?
    ensures var before := if s.client in w.phases then w.phases[s.client] else Asking(DigestOf([]));
            s.client in Apply(w, s).phases && Apply(w, s).phases[s.client].Serving? <==>
              || ((s.Look? || s.LookAgain?) && !s.failed && before.name in w.files)
              || (s.Rename? && s.ok)
    ensures s.client in Apply(w, s).phases && Apply(w, s).phases[s.client].Serving? ==>
              Answered(Apply(w, s), s.client, w.phases[s.client].name)
  {
  }

  /** An answer is the file of that name, and ends the request. */
  lemma ServesTheFile(w: World, c: nat, name: Digest)
    requires Inv(w) && Answered(w, c, name)
    ensures Enabled(w, Serve(c))
    ensures var v := Apply(w, Serve(c));
            v.served == w.served + [(name, w.files[name])] && DigestOf(w.files[name]) == name && c !in v.phases
  {
  }

  /** Nobody takes an answer away: until it is served, or the relay restarts, the request keeps it. */
  lemma AnswerStays(w: World, s: Step, c: nat, name: Digest)
    requires Inv(w) && Enabled(w, s) && Answered(w, c, name) && s != Serve(c) && s != Restart
    ensures Answered(Apply(w, s), c, name)
  {
    FilesAreFinal(w, s);
    if s.client != c {
      MoverKeeps(w, s);
    }
  }

  /** A request ends without an answer exactly when upstream or a file operation fails it, or the hash is wrong. */
  lemma RefusedExactly(w: World, s: Step)
    requires Enabled(w, s) && !s.Restart? && !s.Arrive? && !s.Serve?
    ensures s.client !in Apply(w, s).phases <==>
              || ((s.Contact? || s.Open? || s.Rename?) && !s.ok)
              || (s.EndCopy? && (s.broken || DigestOf(w.phases[s.client].hashed) != w.phases[s.client].name))
    ensures s.client !in Apply(w, s).phases ==> Apply(w, s).files == w.files && Apply(w, s).served == w.served
  {
  }

  // ---------------------------------------------------------------- and with looks that do not

  lemma Continues(ws: seq<World>, ss: seq<Step>, s: Step) returns (vs: seq<World>, us: seq<Step>)
    requires IsRun(ws, ss) && Enabled(ws[|ss|], s)
    ensures IsRun(vs, us) && vs[|us|] == Apply(ws[|ss|], s)
  {
    hide Apply, Enabled, Begins;
    vs, us := ws + [Apply(ws[|ss|], s)], ss + [s];
    forall i | 0 <= i < |us| ensures Moves(vs, us, i) {
      assert i < |ss| ==> Moves(ws, ss, i);
    }
  }

  predicate Quiet(w: World) {
    w.phases == map[] && w.lock.None?
  }

  /** A request whose looks fail fetches and stores an empty file, whether it is there or not. */
  lemma FillsAnyway(ws: seq<World>, ss: seq<Step>, c: nat) returns (vs: seq<World>, us: seq<Step>)
    requires IsRun(ws, ss) && Quiet(ws[|ss|])
    ensures IsRun(vs, us) && Quiet(vs[|us|]) && vs[|us|].stored == ws[|ss|].stored + [DigestOf([])]
  {
    hide IsRun;
    vs, us := Continues(ws, ss, Arrive(c, DigestOf([])));
    vs, us := Continues(vs, us, Look(c, true));
    vs, us := Continues(vs, us, TakeLock(c));
    vs, us := Continues(vs, us, LookAgain(c, true));
    vs, us := Continues(vs, us, Contact(c, true));
    vs, us := Continues(vs, us, Open(c, true));
    vs, us := Continues(vs, us, EndCopy(c, false, true));
    vs, us := Continues(vs, us, Rename(c, true));
    vs, us := Continues(vs, us, Serve(c));
  }

  /** A run in which one digest is fetched and stored twice. */
  lemma StoredTwice() returns (ws: seq<World>, ss: seq<Step>)
    ensures IsRun(ws, ss) && ws[|ss|].stored == [DigestOf([]), DigestOf([])]
  {
    var w := World(map[], map[], None, map[], 0, [], [], []);
    ws, ss := [w], [];
    ws, ss := FillsAnyway(ws, ss, 0);
    ws, ss := FillsAnyway(ws, ss, 1);
  }
}
