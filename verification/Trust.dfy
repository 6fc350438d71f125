/**
 Supply-chain metadata (internal/ota/trustmeta.go): signature thresholds, the chain of root documents, the
 snapshot that may not go back, and the release log.

 Documents are bytes; a `Codec` says what they decode to and which signatures verify. Nothing is known about it.
 */
module Trust {
  import opened Model

  type Bytes = seq<Byte>

  datatype KeySignature = KeySignature(keyID: string, signature: Bytes)
  datatype Doc = Doc(payload: Bytes, signatures: seq<KeySignature>)
  datatype Role = Role(threshold: int, keyIDs: seq<string>)
  datatype Delegation = Delegation(keyIDs: seq<string>, kinds: seq<Kind>)
  datatype Root = Root(schema: int, version: nat, expires: int, keys: map<string, string>,
                       roles: map<string, Role>, delegations: seq<Delegation>)
  datatype Timestamp = Timestamp(expires: int, snapshotVersion: nat, snapshot: Digest)
  datatype Snapshot = Snapshot(version: nat, expires: int, targetsVersion: nat, targets: Digest)
  datatype Targets = Targets(version: nat, expires: int, releases: seq<Digest>, rejects: seq<Digest>)

  datatype Codec = Codec(root: Bytes -> Option<Root>, timestamp: Bytes -> Option<Timestamp>,
                         snapshot: Bytes -> Option<Snapshot>, targets: Bytes -> Option<Targets>,
                         release: Bytes -> Release, artifacts: Release -> Option<seq<Digest>>,
                         keyOk: string -> bool, verify: (string, Bytes, Bytes) -> bool)

  /** A role's name in a root document; an unlisted role has no threshold and so accepts nothing. */
  function RoleOf(root: Root, name: string): Role {
    if name in root.roles then root.roles[name] else Role(0, [])
  }

  // ---------------------------------------------------------------- thresholds

  predicate Verifies(codec: Codec, payload: Bytes, keys: map<string, string>, s: KeySignature) {
    s.keyID in keys && codec.keyOk(keys[s.keyID]) && codec.verify(keys[s.keyID], payload, s.signature)
  }

  /** `sigs[i]` is the first signature of a key that the role lists. */
  predicate Opens(sigs: seq<KeySignature>, role: Role, i: nat)
    requires i < |sigs|
  {
    sigs[i].keyID in role.keyIDs && forall k | 0 <= k < i :: sigs[k].keyID != sigs[i].keyID
  }

  /** The distinct keys of the role that signed. */
  function Signers(sigs: seq<KeySignature>, role: Role): set<string> {
    set i | 0 <= i < |sigs| && sigs[i].keyID in role.keyIDs :: sigs[i].keyID
  }

  predicate MeetsThreshold(codec: Codec, payload: Bytes, sigs: seq<KeySignature>, keys: map<string, string>,
                           role: Role)
  {
    && 1 <= role.threshold <= |role.keyIDs|
    && (forall i | 0 <= i < |sigs| && Opens(sigs, role, i) :: Verifies(codec, payload, keys, sigs[i]))
    && |Signers(sigs, role)| >= role.threshold
  }

  /** The signature check accepts exactly when each listed key's first signature is valid and enough keys signed. */
  method VerifyThreshold(codec: Codec, payload: Bytes, sigs: seq<KeySignature>, keys: map<string, string>, role: Role)
    returns (ok: bool)
    ensures ok <==> MeetsThreshold(codec, payload, sigs, keys, role)
  {
    hide Verifies, Signers, Opens;
    if role.threshold < 1 || |role.keyIDs| < role.threshold {
      return false;
    }
    NoneSigned(role);
    assert sigs[..0] == [];
    var seen: set<string> := {};
    for n := 0 to |sigs|
      invariant seen == Signers(sigs[..n], role)
      invariant forall i | 0 <= i < n && Opens(sigs, role, i) :: Verifies(codec, payload, keys, sigs[i])
    {
      SignersNext(sigs, role, n);
      SignedEarlier(sigs, role, n);
      if sigs[n].keyID in role.keyIDs && sigs[n].keyID !in seen {
        if !Verifies(codec, payload, keys, sigs[n]) {
          return false;
        }
        seen := seen + {sigs[n].keyID};
      }
    }
    assert sigs[..|sigs|] == sigs;
    ok := |seen| >= role.threshold;
  }

  lemma SignersNext(sigs: seq<KeySignature>, role: Role, n: nat)
    requires n < |sigs|
    ensures Signers(sigs[..n + 1], role)
            == Signers(sigs[..n], role) + if sigs[n].keyID in role.keyIDs then {sigs[n].keyID} else {}
  {
    var a, b := sigs[..n + 1], sigs[..n];
    forall x | x in Signers(a, role)
      ensures x in Signers(b, role) + if sigs[n].keyID in role.keyIDs then {sigs[n].keyID} else {}
    {
      var i :| 0 <= i < |a| && a[i].keyID in role.keyIDs && a[i].keyID == x;
      assert i < n ==> b[i] == a[i];
    }
    forall x | x in Signers(b, role) ensures x in Signers(a, role) {
      var i :| 0 <= i < |b| && b[i].keyID in role.keyIDs && b[i].keyID == x;
      assert a[i] == b[i];
    }
    assert a[n] == sigs[n];
  }

  lemma SignedEarlier(sigs: seq<KeySignature>, role: Role, n: nat)
    requires n < |sigs|
    ensures Opens(sigs, role, n) <==> sigs[n].keyID in role.keyIDs && sigs[n].keyID !in Signers(sigs[..n], role)
  {
    var b := sigs[..n];
    assert forall k | 0 <= k < n :: b[k] == sigs[k];
  }

  lemma NoneSigned(role: Role)
    ensures Signers([], role) == {}
  {
  }

  /** The document carries valid signatures of `threshold` distinct keys of the role. */
  ghost predicate Endorsed(codec: Codec, doc: Doc, keys: map<string, string>, role: Role) {
    role.threshold >= 1 && exists ids: set<string> :: |ids| >= role.threshold && AllSigned(codec, doc, keys, role, ids)
  }

  /** Each of the keys belongs to the role and has a valid signature in the document. */
  predicate AllSigned(codec: Codec, doc: Doc, keys: map<string, string>, role: Role, ids: set<string>) {
    forall id | id in ids ::
      id in role.keyIDs
      && exists i | 0 <= i < |doc.signatures| ::
           doc.signatures[i].keyID == id && Verifies(codec, doc.payload, keys, doc.signatures[i])
  }

  /** The earliest signature of a key. */
  lemma {:induction false} FirstOf(sigs: seq<KeySignature>, role: Role, i: nat) returns (f: nat)
    requires i < |sigs| && sigs[i].keyID in role.keyIDs
    ensures f <= i && Opens(sigs, role, f) && sigs[f].keyID == sigs[i].keyID
  {
    if Opens(sigs, role, i) {
      f := i;
    } else {
      var k :| 0 <= k < i && sigs[k].keyID == sigs[i].keyID;
      f := FirstOf(sigs, role, k);
    }
  }

  /** Repeating a key, or listing it twice in the role, does not help to reach a threshold. */
  lemma ThresholdEndorses(codec: Codec, doc: Doc, keys: map<string, string>, role: Role)
    requires MeetsThreshold(codec, doc.payload, doc.signatures, keys, role)
    ensures Endorsed(codec, doc, keys, role)
  {
    var ids := Signers(doc.signatures, role);
    forall id | id in ids
      ensures id in role.keyIDs
              && exists i | 0 <= i < |doc.signatures| ::
                   doc.signatures[i].keyID == id && Verifies(codec, doc.payload, keys, doc.signatures[i])
    {
      var i :| 0 <= i < |doc.signatures| && doc.signatures[i].keyID in role.keyIDs && doc.signatures[i].keyID == id;
      var f := FirstOf(doc.signatures, role, i);
      assert Verifies(codec, doc.payload, keys, doc.signatures[f]);
    }
    assert AllSigned(codec, doc, keys, role, ids);
  }

  /** Order matters: a second signature of a key is not looked at, a first one that is wrong refuses the document. */
  lemma OrderMatters(codec: Codec, payload: Bytes, keys: map<string, string>, good: KeySignature, wrong: KeySignature)
    requires good.keyID == wrong.keyID && Verifies(codec, payload, keys, good) && !Verifies(codec, payload, keys, wrong)
    ensures var role := Role(1, [good.keyID]);
            && MeetsThreshold(codec, payload, [good, wrong], keys, role)
            && !MeetsThreshold(codec, payload, [wrong, good], keys, role)
  {
    var role := Role(1, [good.keyID]);
    assert Opens([wrong, good], role, 0);
    var sigs := [good, wrong];
    assert sigs[0].keyID in Signers(sigs, role);
    assert Signers(sigs, role) == {good.keyID};
  }

  // ---------------------------------------------------------------- decisions

  datatype TrustDir = TrustDir(root: Option<Doc>, timestamp: Option<Doc>, snapshot: Option<Doc>, targets: Option<Doc>)

  /** The trust fields of the journal. No root stored is `[]`. */
  datatype Record = Record(root: Bytes, rootVersion: nat, snapshotVersion: nat, snapshot: Option<Digest>)

  datatype Decision = Decision(root: Bytes, rootVersion: nat, snapshotVersion: nat, snapshot: Digest, payload: Digest)

  /** `readSigned`: a document without payload or signatures is refused. */
  function Signed(doc: Option<Doc>): (r: Option<Doc>)
    ensures r.Some? ==> doc == r && r.value.payload != []
  {
    if doc.Some? && doc.value.payload != [] && doc.value.signatures != [] then doc else None
  }

  predicate SignedFor(codec: Codec, doc: Doc, root: Root, role: string) {
    MeetsThreshold(codec, doc.payload, doc.signatures, root.keys, RoleOf(root, role))
  }

  /** `loadRoot`: the root to use, and its bytes. */
  function LoadRoot(codec: Codec, pinned: Digest, file: Option<Doc>, stored: Bytes, now: int): Option<(Root, Bytes)> {
    match Signed(file)
    case None => None
    case Some(doc) =>
      match codec.root(doc.payload)
      case None => None
      case Some(candidate) =>
        if candidate.schema != 1 || candidate.version == 0 || candidate.expires <= now then None
        else if stored == [] then
          if DigestOf(doc.payload) == pinned && SignedFor(codec, doc, candidate, "root")
          then Some((candidate, doc.payload)) else None
        else
          match codec.root(stored)
          case None => None
          case Some(current) =>
            if candidate.version < current.version then None
            else if candidate.version == current.version then
              if DigestOf(doc.payload) == DigestOf(stored) then Some((current, stored)) else None
            else if SignedFor(codec, doc, current, "root") && SignedFor(codec, doc, candidate, "root")
            then Some((candidate, doc.payload)) else None
  }

  /** The first delegation that names the key decides. */
  predicate Delegated(ds: seq<Delegation>, keyID: string, kinds: set<Kind>) {
    ds != []
    && if keyID in ds[0].keyIDs then forall k | k in kinds :: k in ds[0].kinds
       else Delegated(ds[1..], keyID, kinds)
  }

  function KindsOf(r: Release): set<Kind> {
    if r.schema == 1 then {OsRauc} else set i | 0 <= i < |r.targets| :: r.targets[i].kind
  }

  predicate Authorized(root: Root, keyID: string, r: Release) {
    ("targets" in root.roles && keyID in root.roles["targets"].keyIDs) || Delegated(root.delegations, keyID, KindsOf(r))
  }

  predicate Allows(codec: Codec, targets: Targets, payload: Bytes) {
    && DigestOf(payload) in targets.releases
    && codec.artifacts(codec.release(payload)).Some?
    && forall d | d in codec.artifacts(codec.release(payload)).value :: d !in targets.rejects
  }

  /** `evaluateSupplyChain` with a trust directory. */
  function Evaluate(codec: Codec, pinned: Digest, dir: TrustDir, rec: Record, payload: Bytes, keyID: string,
                    now: int): Option<Decision>
  {
    var loaded := LoadRoot(codec, pinned, dir.root, rec.root, now);
    var ts, snap, tgt := Signed(dir.timestamp), Signed(dir.snapshot), Signed(dir.targets);
    if loaded.None? || ts.None? || snap.None? || tgt.None? then None
    else
      var root := loaded.value.0;
      var t, s, g := codec.timestamp(ts.value.payload), codec.snapshot(snap.value.payload),
          codec.targets(tgt.value.payload);
      if t.None? || s.None? || g.None? then None
      else if t.value.expires <= now || !SignedFor(codec, ts.value, root, "timestamp") then None
      else if DigestOf(snap.value.payload) != t.value.snapshot || s.value.version != t.value.snapshotVersion then None
      else if s.value.version < rec.snapshotVersion
              || (s.value.version == rec.snapshotVersion && rec.snapshot.Some?
                  && rec.snapshot.value != DigestOf(snap.value.payload))
      then None
      else if s.value.expires <= now || !SignedFor(codec, snap.value, root, "snapshot") then None
      else if DigestOf(tgt.value.payload) != s.value.targets || g.value.version != s.value.targetsVersion then None
      else if g.value.expires <= now || !SignedFor(codec, tgt.value, root, "targets") then None
      else if !Allows(codec, g.value, payload) || !Authorized(root, keyID, codec.release(payload)) then None
      else Some(Decision(loaded.value.1, root.version, s.value.version, DigestOf(snap.value.payload),
                         DigestOf(payload)))
  }

  // ---------------------------------------------------------------- decisions, exactly

  predicate Presented(doc: Option<Doc>) {
    doc.Some? && doc.value.payload != [] && doc.value.signatures != []
  }

  /**
   The root document to use: the pinned one at first, then the stored bytes or a newer one signed under both roots.
   */
  predicate RootFine(codec: Codec, pinned: Digest, doc: Option<Doc>, stored: Bytes, now: int) {
    && Presented(doc) && codec.root(doc.value.payload).Some?
    && var latest := codec.root(doc.value.payload).value;
       && latest.schema == 1 && latest.version > 0 && now < latest.expires
       && if stored == [] then DigestOf(doc.value.payload) == pinned && SignedFor(codec, doc.value, latest, "root")
          else
            && codec.root(stored).Some?
            && (|| doc.value.payload == stored
                || (&& latest.version > codec.root(stored).value.version
                    && SignedFor(codec, doc.value, codec.root(stored).value, "root")
                    && SignedFor(codec, doc.value, latest, "root")))
  }

  /**
   The three documents below the root: present, decoded, unexpired, and each naming the next by digest and version.
   */
  predicate DocumentsFine(codec: Codec, dir: TrustDir, now: int) {
    && Presented(dir.timestamp) && Presented(dir.snapshot) && Presented(dir.targets)
    && var ts, sn, tg := dir.timestamp.value.payload, dir.snapshot.value.payload, dir.targets.value.payload;
       && codec.timestamp(ts).Some? && codec.snapshot(sn).Some? && codec.targets(tg).Some?
       && var t, s, g := codec.timestamp(ts).value, codec.snapshot(sn).value, codec.targets(tg).value;
          && now < t.expires && now < s.expires && now < g.expires
          && t.snapshot == DigestOf(sn) && t.snapshotVersion == s.version
          && s.targets == DigestOf(tg) && s.targetsVersion == g.version
  }

  /** Each of them is signed under its own role of the root. */
  predicate SignaturesFine(codec: Codec, dir: TrustDir, root: Root)
    requires dir.timestamp.Some? && dir.snapshot.Some? && dir.targets.Some?
  {
    && SignedFor(codec, dir.timestamp.value, root, "timestamp")
    && SignedFor(codec, dir.snapshot.value, root, "snapshot")
    && SignedFor(codec, dir.targets.value, root, "targets")
  }

  /** The snapshot is not older than the recorded one, and not another one of its version. */
  predicate NotRolledBack(rec: Record, version: nat, digest: Digest) {
    version > rec.snapshotVersion
      || (version == rec.snapshotVersion && (rec.snapshot.None? || rec.snapshot.value == digest))
  }

  /** The targets document lists the release and rejects none of its artifacts. */
  predicate ReleaseListed(codec: Codec, g: Targets, payload: Bytes) {
    && DigestOf(payload) in g.releases && codec.artifacts(codec.release(payload)).Some?
    && var arts := codec.artifacts(codec.release(payload)).value;
       forall i | 0 <= i < |arts| :: arts[i] !in g.rejects
  }

  /** Delegation `i` is the first that names the key. */
  predicate FirstNaming(root: Root, keyID: string, i: nat)
    requires i < |root.delegations|
  {
    keyID in root.delegations[i].keyIDs && forall k | 0 <= k < i :: keyID !in root.delegations[k].keyIDs
  }

  predicate Covers(d: Delegation, r: Release) {
    if r.schema == 1 then OsRauc in d.kinds else forall n | 0 <= n < |r.targets| :: r.targets[n].kind in d.kinds
  }

  /** The key may sign the release: a targets key, or one whose first delegation covers every kind of it. */
  predicate KeyFine(root: Root, keyID: string, r: Release) {
    || ("targets" in root.roles && keyID in root.roles["targets"].keyIDs)
    || exists i | 0 <= i < |root.delegations| :: FirstNaming(root, keyID, i) && Covers(root.delegations[i], r)
  }

  lemma CoversKinds(d: Delegation, r: Release)
    ensures (forall k | k in KindsOf(r) :: k in d.kinds) <==> Covers(d, r)
  {
    if r.schema != 1 && forall k | k in KindsOf(r) :: k in d.kinds {
      forall n | 0 <= n < |r.targets| ensures r.targets[n].kind in d.kinds {
        assert r.targets[n].kind in KindsOf(r);
      }
    }
  }

  /** The scan over the delegations finds exactly a covering first one. */
  lemma {:induction false} DelegatedExactly(root: Root, keyID: string, r: Release, n: nat)
    requires n <= |root.delegations| && forall k | 0 <= k < n :: keyID !in root.delegations[k].keyIDs
    ensures Delegated(root.delegations[n..], keyID, KindsOf(r)) <==>
              exists i | n <= i < |root.delegations| :: FirstNaming(root, keyID, i) && Covers(root.delegations[i], r)
    decreases |root.delegations| - n
  {
    hide KindsOf, Covers;
    var ds := root.delegations;
    if n < |ds| {
      assert ds[n..][0] == ds[n] && ds[n..][1..] == ds[n + 1..];
      CoversKinds(ds[n], r);
      if keyID in ds[n].keyIDs {
        assert FirstNaming(root, keyID, n);
      } else {
        DelegatedExactly(root, keyID, r, n + 1);
      }
    }
  }

  lemma AuthorizedExactly(root: Root, keyID: string, r: Release)
    ensures Authorized(root, keyID, r) <==> KeyFine(root, keyID, r)
  {
    hide KindsOf, Covers;
    assert root.delegations[0..] == root.delegations;
    DelegatedExactly(root, keyID, r, 0);
  }

  lemma LoadedExactly(codec: Codec, pinned: Digest, file: Option<Doc>, stored: Bytes, now: int)
    ensures LoadRoot(codec, pinned, file, stored, now).Some? <==> RootFine(codec, pinned, file, stored, now)
    ensures LoadRoot(codec, pinned, file, stored, now).Some? ==>
              LoadRoot(codec, pinned, file, stored, now).value
                == (codec.root(file.value.payload).value, file.value.payload)
  {
    hide SignedFor;
  }

  /** Everything the supply chain asks of a release, the documents and the recorded past. */
  predicate ChainFine(codec: Codec, pinned: Digest, dir: TrustDir, rec: Record, payload: Bytes, keyID: string,
                      now: int)
  {
    && RootFine(codec, pinned, dir.root, rec.root, now) && DocumentsFine(codec, dir, now)
    && var root := codec.root(dir.root.value.payload).value;
       && SignaturesFine(codec, dir, root)
       && NotRolledBack(rec, codec.snapshot(dir.snapshot.value.payload).value.version,
                        DigestOf(dir.snapshot.value.payload))
       && ReleaseListed(codec, codec.targets(dir.targets.value.payload).value, payload)
       && KeyFine(root, keyID, codec.release(payload))
  }

  /** A release is let through if and only if every one of these holds. */
  lemma EvaluatedExactly(codec: Codec, pinned: Digest, dir: TrustDir, rec: Record, payload: Bytes, keyID: string,
                         now: int)
    ensures var e := Evaluate(codec, pinned, dir, rec, payload, keyID, now);
            && (e.Some? <==> ChainFine(codec, pinned, dir, rec, payload, keyID, now))
            && (e.Some? ==>
                  && e.value.root == dir.root.value.payload
                  && e.value.rootVersion == codec.root(dir.root.value.payload).value.version
                  && e.value.snapshotVersion == codec.snapshot(dir.snapshot.value.payload).value.version
                  && e.value.snapshot == DigestOf(dir.snapshot.value.payload) && e.value.payload == DigestOf(payload))
  {
    hide SignedFor, LoadRoot, Authorized, KeyFine, RootFine, Allows, ReleaseListed;
    LoadedExactly(codec, pinned, dir.root, rec.root, now);
    RootPresent(codec, pinned, dir.root, rec.root, now);
    if Presented(dir.root) && codec.root(dir.root.value.payload).Some? {
      AuthorizedExactly(codec.root(dir.root.value.payload).value, keyID, codec.release(payload));
    }
    if Presented(dir.targets) && codec.targets(dir.targets.value.payload).Some? {
      AllowsExactly(codec, codec.targets(dir.targets.value.payload).value, payload);
    }
  }

  lemma RootPresent(codec: Codec, pinned: Digest, doc: Option<Doc>, stored: Bytes, now: int)
    ensures RootFine(codec, pinned, doc, stored, now) ==> Presented(doc) && codec.root(doc.value.payload).Some?
  {
  }

  lemma AllowsExactly(codec: Codec, g: Targets, payload: Bytes)
    ensures Allows(codec, g, payload) <==> ReleaseListed(codec, g, payload)
  {
  }

  function Applied(d: Decision): Record {
    Record(d.root, d.rootVersion, d.snapshotVersion, Some(d.snapshot))
  }

  // ---------------------------------------------------------------- the release log

  /** SHA-256 of a log line, as an injective constructor; `Zero` opens the log. */
  datatype Hash = Zero | HashOf(line: Line)
  datatype Line = Line(prev: Hash, releaseID: string, payload: Digest)

  /**
   The log file: whole lines, and whether a torn line follows them. The first `synced` lines, and a torn line that is
   `settled`, are on the disk; the rest is only in the file cache and may not survive a power cut.
   */
  datatype Log = Log(lines: seq<Line>, torn: bool, synced: nat, settled: bool)

  function Head(lines: seq<Line>): Hash {
    if lines == [] then Zero else HashOf(lines[|lines| - 1])
  }

  predicate Chained(lines: seq<Line>) {
    forall i | 0 <= i < |lines| :: lines[i].prev == Head(lines[..i])
  }

  lemma ChainedBefore(lines: seq<Line>, n: nat)
    requires Chained(lines) && n <= |lines|
    ensures Chained(lines[..n])
  {
    forall i | 0 <= i < n ensures lines[..n][i].prev == Head(lines[..n][..i]) {
      assert lines[..n][..i] == lines[..i];
    }
  }

  /** The head of a chain fixes every line of it: no other log of any length ends in the same hash. */
  lemma {:induction false} HeadDeterminesLog(a: seq<Line>, b: seq<Line>)
    requires Chained(a) && Chained(b) && Head(a) == Head(b)
    ensures a == b
    decreases |a|
  {
    if a != [] {
      var m, n := |a| - 1, |b| - 1;
      assert a[m].prev == Head(a[..m]) && b[n].prev == Head(b[..n]);
      ChainedBefore(a, m);
      ChainedBefore(b, n);
      HeadDeterminesLog(a[..m], b[..n]);
      assert a == a[..m] + [a[m]] && b == b[..n] + [b[n]];
    }
  }

  datatype Found = Broken | Conflict | Present | Absent(prev: Hash)

  /** Reads the log up to the line that carries the digest, checking the chain on the way. */
  function Scan(lines: seq<Line>, prev: Hash, releaseID: string, payload: Digest): Found {
    if lines == [] then Absent(prev)
    else if lines[0].prev != prev then Broken
    else if lines[0].payload == payload then if lines[0].releaseID == releaseID then Present else Conflict
    else Scan(lines[1..], HashOf(lines[0]), releaseID, payload)
  }

  /** What is left of the line when writing or syncing it fails. */
  datatype Append = Synced | Unreadable | Nothing | Torn | Unsynced

  function Appended(log: Log, releaseID: string, payload: Digest, how: Append): (Log, bool) {
    if how.Unreadable? || log.torn then (log, false)
    else
      match Scan(log.lines, Zero, releaseID, payload)
      case Broken => (log, false)
      case Conflict => (log, false)
      case Present => (log, true)
      case Absent(prev) =>
        match how
        case Synced => (log.(lines := log.lines + [Line(prev, releaseID, payload)], synced := |log.lines| + 1), true)
        case Unsynced => (log.(lines := log.lines + [Line(prev, releaseID, payload)]), false)
        case Torn => (log.(torn := true), false)
        case _ => (log, false)
  }

  /** A power cut keeps the synced lines and any number of the others, and may tear what it loses. */
  function Cut(log: Log, keep: nat, tear: bool): Log {
    var most := if keep < |log.lines| then keep else |log.lines|;
    var kept := if most < log.synced <= |log.lines| then log.synced else most;
    var torn := if log.torn && log.settled then true else tear && (log.torn || kept < |log.lines|);
    Log(log.lines[..kept], torn, kept, torn)
  }

  predicate Names(lines: seq<Line>, payload: Digest) {
    exists i | 0 <= i < |lines| :: lines[i].payload == payload
  }

  /** No digest twice, and every line carries the identifier of the release it digests. */
  predicate Genuine(codec: Codec, lines: seq<Line>) {
    && (forall i, k | 0 <= i < k < |lines| :: lines[i].payload != lines[k].payload)
    && (forall i | 0 <= i < |lines| :: lines[i].releaseID == codec.release(lines[i].payload.content).id)
  }

  lemma LinkAt(lines: seq<Line>, n: nat)
    requires n < |lines| && Chained(lines)
    ensures lines[n].prev == Head(lines[..n]) && Head(lines[..n + 1]) == HashOf(lines[n])
  {
  }

  lemma NamesNext(lines: seq<Line>, n: nat, payload: Digest)
    requires n < |lines|
    ensures Names(lines[..n + 1], payload) <==> Names(lines[..n], payload) || lines[n].payload == payload
    ensures lines[n].payload == payload ==> Names(lines, payload)
  {
    var a, b := lines[..n], lines[..n + 1];
    assert forall i | 0 <= i < n :: a[i] == b[i];
    assert b[n] == lines[n];
  }

  lemma {:induction false} ScanFinds(codec: Codec, lines: seq<Line>, n: nat, payload: Bytes)
    requires n <= |lines| && Chained(lines) && Genuine(codec, lines) && !Names(lines[..n], DigestOf(payload))
    ensures Scan(lines[n..], Head(lines[..n]), codec.release(payload).id, DigestOf(payload))
            == if Names(lines, DigestOf(payload)) then Present else Absent(Head(lines))
    decreases |lines| - n
  {
    hide Names, Chained, Head;
    if n == |lines| {
      assert lines[..n] == lines;
    } else {
      assert lines[n..][1..] == lines[n + 1..] && lines[n..][0] == lines[n];
      LinkAt(lines, n);
      NamesNext(lines, n, DigestOf(payload));
      if lines[n].payload != DigestOf(payload) {
        ScanFinds(codec, lines, n + 1, payload);
      }
    }
  }

  /** Lines `..n` are chained and none of them carries the digest. */
  predicate Passed(lines: seq<Line>, n: nat, payload: Digest)
    requires n <= |lines|
  {
    Chained(lines[..n]) && !Names(lines[..n], payload)
  }

  /**
   What reading any file of whole lines finds, damaged or not: it stops at the first line that breaks the chain or
   carries the digest, whichever comes first.
   */
  lemma {:induction false} ScanExactly(lines: seq<Line>, n: nat, releaseID: string, payload: Digest)
    returns (stop: nat)
    requires n <= |lines| && Passed(lines, n, payload)
    ensures n <= stop <= |lines| && Passed(lines, stop, payload)
    ensures Scan(lines[n..], Head(lines[..n]), releaseID, payload)
            == if stop == |lines| then Absent(Head(lines))
               else if lines[stop].prev != Head(lines[..stop]) then Broken
               else if lines[stop].releaseID == releaseID then Present else Conflict
    ensures stop < |lines| && lines[stop].prev == Head(lines[..stop]) ==> lines[stop].payload == payload
    decreases |lines| - n
  {
    hide Chained, Names, Head;
    stop := n;
    if n == |lines| {
      assert lines[..n] == lines;
    } else {
      assert lines[n..][1..] == lines[n + 1..] && lines[n..][0] == lines[n];
      if lines[n].prev == Head(lines[..n]) && lines[n].payload != payload {
        PassedNext(lines, n, payload);
        stop := ScanExactly(lines, n + 1, releaseID, payload);
      }
    }
  }

  /**
   An append to any file, exactly: it reports success if the line that carries the digest is there for this release, or
   if none is and the new line is written and synced; it adds at most that line, linked to the last one; and it adds
   nothing where a line is torn, a link is broken, or the digest is there for another release.
   */
  lemma AppendedExactly(log: Log, releaseID: string, payload: Digest, how: Append) returns (stop: nat)
    ensures stop <= |log.lines| && Passed(log.lines, stop, payload)
    ensures var (after, ok) := Appended(log, releaseID, payload, how); var lines := log.lines;
            var at := if stop == |lines| then Head(lines) else lines[stop].prev;
            var found := stop < |lines| && at == Head(lines[..stop]);
            var blocked := how.Unreadable? || log.torn;
            && (found ==> lines[stop].payload == payload)
            && (ok <==> !blocked && if stop < |lines| then found && lines[stop].releaseID == releaseID else how.Synced?)
            && after.settled == log.settled && after.torn == (log.torn || (stop == |lines| && how.Torn?))
            && (if !blocked && stop == |lines| && (how.Synced? || how.Unsynced?)
                then after.lines == lines + [Line(Head(lines), releaseID, payload)] else after.lines == lines)
            && after.synced == if !blocked && stop == |lines| && how.Synced? then |lines| + 1 else log.synced
  {
    hide Scan, Names;
    assert log.lines[0..] == log.lines && log.lines[..0] == [];
    assert Passed(log.lines, 0, payload) by {
      NothingNamed(payload);
    }
    stop := ScanExactly(log.lines, 0, releaseID, payload);
  }

  lemma NothingNamed(payload: Digest)
    ensures !Names([], payload)
  {
  }

  lemma PassedNext(lines: seq<Line>, n: nat, payload: Digest)
    requires n < |lines| && Passed(lines, n, payload)
    requires lines[n].prev == Head(lines[..n]) && lines[n].payload != payload
    ensures Passed(lines, n + 1, payload) && Head(lines[..n + 1]) == HashOf(lines[n])
  {
    NamesNext(lines, n, payload);
    var a, b := lines[..n], lines[..n + 1];
    forall i | 0 <= i < |b| ensures b[i].prev == Head(b[..i]) {
      assert b[..i] == lines[..i];
      if i < n {
        assert a[i] == b[i] && a[..i] == lines[..i];
      }
    }
  }

  class TransparencyLog {
    var lines: seq<Line>
    var torn: bool
    var synced: nat
    var settled: bool

    function Contents(): Log
      reads this
    {
      Log(lines, torn, synced, settled)
    }

    method AppendLine(releaseID: string, payload: Digest, how: Append) returns (ok: bool)
      modifies this
      ensures (Contents(), ok) == Appended(old(Contents()), releaseID, payload, how)
    {
      if how.Unreadable? || torn {
        return false;
      }
      var prev, n := Zero, 0;
      assert lines[0..] == lines;
      while n < |lines|
        invariant n <= |lines| && lines == old(lines) && !torn && synced == old(synced) && settled == old(settled)
        invariant Scan(lines, Zero, releaseID, payload) == Scan(lines[n..], prev, releaseID, payload)
      {
        assert lines[n..][0] == lines[n] && lines[n..][1..] == lines[n + 1..];
        if lines[n].prev != prev {
          return false;
        }
        if lines[n].payload == payload {
          return lines[n].releaseID == releaseID;
        }
        prev, n := HashOf(lines[n]), n + 1;
      }
      match how {
        case Synced =>
          lines := lines + [Line(prev, releaseID, payload)];
          synced := |lines|;
        case Unsynced => lines := lines + [Line(prev, releaseID, payload)];
        case Torn => torn := true;
        case Nothing =>
        case Unreadable => assert false;
      }
      ok := how.Synced?;
    }
  }
}
