/**
 Trust metadata over the whole life of a device (internal/ota/trustmeta.go, internal/ota/engine.go): every
 submission, with whatever documents the trust directory holds at the time, log appends that fail or tear, journal
 commits that fail with or without effect, restarts of the agent, and power cuts that lose what was not synced.
 */
module TrustRuns {
  import opened Model
  import opened Trust
  import opened Journal

  /** A release accepted under trust metadata, with the documents, the key and the time it was presented with. */
  datatype Entry = Entry(root: Doc, dir: TrustDir, keyID: string, now: int, snapshotVersion: nat, snapshot: Digest,
                         payload: Bytes)

  datatype State = State(disk: Record, mem: Record, poisoned: bool, log: Log,
                         history: seq<Entry>)       // never read by the engine

  /**
   `Submitted`: `admitted` covers the journal's own reasons to refuse before the log is touched (an active job, a
   full outbox, an old sequence), `fits` those after it. `Poisons`: some other journal write failed.
   */
  datatype Action =
    | Submitted(dir: TrustDir, payload: Bytes, keyID: string, now: int, admitted: bool, append: Append, fits: bool,
                outcome: Outcome)
    | Poisons
    | Restarts
    | PowerCut(keep: nat, tear: bool)

  const NOTHING := Record([], 0, 0, None)

  predicate Begins(s: State) {
    s == State(NOTHING, NOTHING, false, Log([], false, 0, false), [])
  }

  function After(codec: Codec, pinned: Digest, s: State, a: Action): State {
    match a
    case Poisons => s.(poisoned := true)
    case Restarts => s.(mem := s.disk, poisoned := false)
    case PowerCut(keep, tear) => s.(mem := s.disk, poisoned := false, log := Cut(s.log, keep, tear))
    case Submitted(dir, payload, keyID, now, admitted, append, fits, outcome) =>
      var d := Evaluate(codec, pinned, dir, s.mem, payload, keyID, now);
      if s.poisoned || d.None? || dir.root.None? || !admitted then s
      else
        var (log, ok) := Appended(s.log, codec.release(payload).id, DigestOf(payload), append);
        if !ok || !fits then s.(log := log)
        else Committing(s.(log := log), d.value, a)
  }

  /** The commit of an acceptance. */
  function Committing(s: State, d: Decision, a: Action): State
    requires a.Submitted? && a.dir.root.Some?
  {
    var e := Entry(a.dir.root.value, a.dir, a.keyID, a.now, d.snapshotVersion, d.snapshot, a.payload);
    var history := s.history + [e];
    match a.outcome
    case Durable => s.(disk := Applied(d), mem := Applied(d), history := history)
    case FailedLost => s.(poisoned := true)
    case FailedKept => s.(disk := Applied(d), poisoned := true, history := history)
  }

  // ---------------------------------------------------------------- what every run keeps

  function VersionOfRoot(codec: Codec, root: Bytes): nat {
    if codec.root(root).Some? then codec.root(root).value.version else 0
  }

  /** The document carries the signatures of enough root keys of `signer`. */
  ghost predicate RootSignedBy(codec: Codec, doc: Doc, signer: Bytes) {
    && codec.root(signer).Some?
    && Endorsed(codec, doc, codec.root(signer).value.keys, RoleOf(codec.root(signer).value, "root"))
  }

  /** The bytes stay the same, or a strictly newer document carries signatures under the old and the new root role. */
  ghost predicate Follows(codec: Codec, p: Bytes, q: Doc) {
    || p == q.payload
    || (VersionOfRoot(codec, p) < VersionOfRoot(codec, q.payload) && RootSignedBy(codec, q, p)
        && RootSignedBy(codec, q, q.payload))
  }

  /** Versions do not fall, and one version means one document. */
  predicate NotAfter<T(==)>(v: nat, x: T, w: nat, y: T) {
    v <= w && (v == w ==> x == y)
  }

  predicate EntriesOrdered(codec: Codec, p: Entry, q: Entry) {
    && NotAfter(VersionOfRoot(codec, p.root.payload), p.root.payload, VersionOfRoot(codec, q.root.payload),
                q.root.payload)
    && NotAfter(p.snapshotVersion, p.snapshot, q.snapshotVersion, q.snapshot)
  }

  ghost predicate RootsChain(codec: Codec, pinned: Digest, h: seq<Entry>) {
    && (h != [] ==> DigestOf(h[0].root.payload) == pinned && RootSignedBy(codec, h[0].root, h[0].root.payload))
    && (forall i, k | 0 <= i && k == i + 1 && k < |h| :: Follows(codec, h[i].root.payload, h[k].root))
    && (forall i, k | 0 <= i < k < |h| :: EntriesOrdered(codec, h[i], h[k]))
  }

  ghost predicate EndorsedFor(codec: Codec, doc: Doc, root: Root, role: string) {
    Endorsed(codec, doc, root.keys, RoleOf(root, role))
  }

  /**
   What stands behind an accepted release: an unexpired timestamp, snapshot and targets document, each signed by enough
   keys of its role in the accepted root and each naming the next; the targets document lists the release and rejects
   none of its artifacts; and the key that signed the release may sign all its kinds.
   */
  ghost predicate Vouched(codec: Codec, e: Entry) {
    && e.dir.root == Some(e.root) && codec.root(e.root.payload).Some? && DocumentsFine(codec, e.dir, e.now)
    && e.snapshot == DigestOf(e.dir.snapshot.value.payload)
    && e.snapshotVersion == codec.snapshot(e.dir.snapshot.value.payload).value.version
    && var root := codec.root(e.root.payload).value;
       && root.schema == 1 && root.version > 0 && e.now < root.expires
       && EndorsedFor(codec, e.dir.timestamp.value, root, "timestamp")
       && EndorsedFor(codec, e.dir.snapshot.value, root, "snapshot")
       && EndorsedFor(codec, e.dir.targets.value, root, "targets")
       && ReleaseListed(codec, codec.targets(e.dir.targets.value.payload).value, e.payload)
       && KeyFine(root, e.keyID, codec.release(e.payload))
  }

  ghost predicate AllVouched(codec: Codec, h: seq<Entry>) {
    forall i | 0 <= i < |h| :: Vouched(codec, h[i])
  }

  lemma DocumentsPresent(codec: Codec, dir: TrustDir, now: int)
    requires DocumentsFine(codec, dir, now)
    ensures dir.timestamp.Some? && dir.snapshot.Some? && dir.targets.Some?
    ensures codec.snapshot(dir.snapshot.value.payload).Some? && codec.targets(dir.targets.value.payload).Some?
  {
  }

  lemma RootUsable(codec: Codec, pinned: Digest, doc: Option<Doc>, stored: Bytes, now: int)
    requires RootFine(codec, pinned, doc, stored, now)
    ensures doc.Some? && codec.root(doc.value.payload).Some?
    ensures var root := codec.root(doc.value.payload).value; root.schema == 1 && root.version > 0 && now < root.expires
  {
  }

  lemma SignaturesEndorse(codec: Codec, dir: TrustDir, root: Root)
    requires dir.timestamp.Some? && dir.snapshot.Some? && dir.targets.Some? && SignaturesFine(codec, dir, root)
    ensures EndorsedFor(codec, dir.timestamp.value, root, "timestamp")
    ensures EndorsedFor(codec, dir.snapshot.value, root, "snapshot")
    ensures EndorsedFor(codec, dir.targets.value, root, "targets")
  {
    hide MeetsThreshold, Endorsed;
    ThresholdEndorses(codec, dir.timestamp.value, root.keys, RoleOf(root, "timestamp"));
    ThresholdEndorses(codec, dir.snapshot.value, root.keys, RoleOf(root, "snapshot"));
    ThresholdEndorses(codec, dir.targets.value, root.keys, RoleOf(root, "targets"));
  }

  /** A decision vouches for its release, whatever was recorded before. */
  lemma EvaluatedVouches(codec: Codec, pinned: Digest, dir: TrustDir, rec: Record, payload: Bytes, keyID: string,
                         now: int)
    requires Evaluate(codec, pinned, dir, rec, payload, keyID, now).Some?
    ensures var d := Evaluate(codec, pinned, dir, rec, payload, keyID, now).value;
            dir.root.Some? && Vouched(codec, Entry(dir.root.value, dir, keyID, now, d.snapshotVersion, d.snapshot,
                                                   payload))
  {
    hide Evaluate, RootFine, SignaturesFine, DocumentsFine, EndorsedFor, ReleaseListed, KeyFine, NotRolledBack;
    EvaluatedExactly(codec, pinned, dir, rec, payload, keyID, now);
    RootUsable(codec, pinned, dir.root, rec.root, now);
    DocumentsPresent(codec, dir, now);
    SignaturesEndorse(codec, dir, codec.root(dir.root.value.payload).value);
  }

  function RecordOf(codec: Codec, h: seq<Entry>): Record {
    if h == [] then NOTHING
    else
      var e := h[|h| - 1];
      Record(e.root.payload, VersionOfRoot(codec, e.root.payload), e.snapshotVersion, Some(e.snapshot))
  }

  ghost predicate LogSound(codec: Codec, log: Log) {
    Chained(log.lines) && Genuine(codec, log.lines) && log.synced <= |log.lines|
  }

  ghost predicate Inv(codec: Codec, pinned: Digest, s: State) {
    && (!s.poisoned ==> s.mem == s.disk)
    && s.disk == RecordOf(codec, s.history)
    && (forall i | 0 <= i < |s.history| :: s.history[i].root.payload != [])
    && RootsChain(codec, pinned, s.history) && AllVouched(codec, s.history)
    && LogSound(codec, s.log)
  }

  lemma LoadedRoot(codec: Codec, pinned: Digest, file: Option<Doc>, stored: Bytes, now: int)
    requires LoadRoot(codec, pinned, file, stored, now).Some?
    ensures var (root, bytes) := LoadRoot(codec, pinned, file, stored, now).value;
            && file.Some? && file.value.payload == bytes != [] && codec.root(bytes) == Some(root)
            && (stored == [] ==> DigestOf(bytes) == pinned && RootSignedBy(codec, file.value, bytes))
            && (stored != [] ==> Follows(codec, stored, file.value)
                                 && NotAfter(VersionOfRoot(codec, stored), stored, VersionOfRoot(codec, bytes), bytes))
  {
    hide MeetsThreshold, Endorsed;
    var doc := file.value;
    var candidate := codec.root(doc.payload).value;
    if SignedFor(codec, doc, candidate, "root") {
      ThresholdEndorses(codec, doc, candidate.keys, RoleOf(candidate, "root"));
    }
    if stored != [] {
      var current := codec.root(stored).value;
      if SignedFor(codec, doc, current, "root") {
        ThresholdEndorses(codec, doc, current.keys, RoleOf(current, "root"));
      }
    }
  }

  /** What a decision says about the record it was made from. */
  lemma EvaluatedFollows(codec: Codec, pinned: Digest, dir: TrustDir, rec: Record, payload: Bytes, keyID: string,
                         now: int)
    requires Evaluate(codec, pinned, dir, rec, payload, keyID, now).Some?
    ensures var d := Evaluate(codec, pinned, dir, rec, payload, keyID, now).value;
            && dir.root.Some? && dir.root.value.payload == d.root != []
            && d.rootVersion == VersionOfRoot(codec, d.root) && d.payload == DigestOf(payload)
            && (rec.root == [] ==> DigestOf(d.root) == pinned && RootSignedBy(codec, dir.root.value, d.root))
            && (rec.root != [] ==> Follows(codec, rec.root, dir.root.value)
                                   && NotAfter(VersionOfRoot(codec, rec.root), rec.root, d.rootVersion, d.root))
            && (rec.snapshot.Some? ==> NotAfter(rec.snapshotVersion, rec.snapshot.value, d.snapshotVersion, d.snapshot))
  {
    hide LoadRoot, MeetsThreshold, Endorsed, Allows, Authorized, Follows, RootSignedBy;
    LoadedRoot(codec, pinned, dir.root, rec.root, now);
  }

  lemma {:induction false} ChainExtends(codec: Codec, pinned: Digest, h: seq<Entry>, e: Entry)
    requires RootsChain(codec, pinned, h)
    requires h == [] ==> DigestOf(e.root.payload) == pinned && RootSignedBy(codec, e.root, e.root.payload)
    requires h != [] ==> Follows(codec, h[|h| - 1].root.payload, e.root) && EntriesOrdered(codec, h[|h| - 1], e)
    ensures RootsChain(codec, pinned, h + [e])
  {
    hide Follows, RootSignedBy;
    var g := h + [e];
    forall i, k | 0 <= i < k < |g| ensures EntriesOrdered(codec, g[i], g[k]) {
      if k == |h| && i < |h| - 1 {
        assert EntriesOrdered(codec, h[i], h[|h| - 1]);
      }
    }
  }

  /**
   Every root that was ever accepted is, byte for byte, one that came with enough signatures under its own root role.
   */
  lemma {:induction false} EveryRootWasSigned(codec: Codec, pinned: Digest, h: seq<Entry>, i: nat) returns (k: nat)
    requires RootsChain(codec, pinned, h) && i < |h|
    ensures k <= i && h[k].root.payload == h[i].root.payload && RootSignedBy(codec, h[k].root, h[i].root.payload)
  {
    hide RootSignedBy;
    if i == 0 {
      k := 0;
    } else {
      assert Follows(codec, h[i - 1].root.payload, h[i].root);
      if h[i - 1].root.payload == h[i].root.payload {
        k := EveryRootWasSigned(codec, pinned, h, i - 1);
      } else {
        k := i;
      }
    }
  }

  // ---------------------------------------------------------------- the log

  lemma AppendKeeps(codec: Codec, log: Log, payload: Bytes, how: Append)
    requires LogSound(codec, log)
    ensures var (after, ok) := Appended(log, codec.release(payload).id, DigestOf(payload), how);
            && LogSound(codec, after)
            && log.lines <= after.lines && log.synced <= after.synced
            && (ok || after.lines != log.lines ==> Names(after.lines, DigestOf(payload)))
            && (Names(log.lines, DigestOf(payload)) ==> after == log)
            && (!Names(log.lines, DigestOf(payload)) && ok ==> after.synced == |after.lines|)
            && (how.Synced? ==> (ok <==> !log.torn))
            && (log.torn ==> after == log && !ok)
  {
    hide Scan, Chained;
    assert log.lines[0..] == log.lines && log.lines[..0] == [];
    ScanFinds(codec, log.lines, 0, payload);
    if !Names(log.lines, DigestOf(payload)) {
      ChainedNext(log.lines, Line(Head(log.lines), codec.release(payload).id, DigestOf(payload)));
    }
  }

  lemma ChainedNext(lines: seq<Line>, line: Line)
    requires Chained(lines) && line.prev == Head(lines)
    ensures Chained(lines + [line]) && Names(lines + [line], line.payload)
  {
    var g := lines + [line];
    assert g[..|lines|] == lines && g[|lines|] == line;
    forall i | 0 <= i < |g| ensures g[i].prev == Head(g[..i]) {
      assert i < |lines| ==> g[..i] == lines[..i];
    }
  }

  lemma NamesLonger(a: seq<Line>, b: seq<Line>, payload: Digest)
    requires a <= b && Names(a, payload)
    ensures Names(b, payload)
  {
    var i :| 0 <= i < |a| && a[i].payload == payload;
    assert b[i] == a[i];
  }

  lemma CutKeeps(codec: Codec, log: Log, keep: nat, tear: bool)
    requires LogSound(codec, log)
    ensures var c := Cut(log, keep, tear);
            && LogSound(codec, c) && c.lines <= log.lines && log.synced <= c.synced == |c.lines|
            && (log.torn && log.settled ==> c.torn && c.settled)
  {
    hide Chained;
    ChainedBefore(log.lines, |Cut(log, keep, tear).lines|);
  }

  /** The lines that no power cut can take. */
  function OnDisk(log: Log): seq<Line> {
    if log.synced <= |log.lines| then log.lines[..log.synced] else log.lines
  }

  lemma PrefixOnDisk(a: Log, b: Log)
    requires a.synced <= |a.lines| && b.synced <= |b.lines| && a.synced <= b.synced
    requires a.lines <= b.lines || (b.lines <= a.lines && a.synced <= |b.lines|)
    ensures OnDisk(a) <= OnDisk(b)
  {
    if a.lines <= b.lines {
      assert OnDisk(a) == b.lines[..a.synced];
    } else {
      assert OnDisk(a) == b.lines[..a.synced];
    }
    assert b.lines[..b.synced][..a.synced] == b.lines[..a.synced];
  }

  // ---------------------------------------------------------------- steps

  /** What a step promises besides the invariant. */
  ghost predicate Advances(s: State, a: Action, t: State) {
    && s.history <= t.history
    && (!a.PowerCut? ==> s.log.lines <= t.log.lines)
    && OnDisk(s.log) <= OnDisk(t.log)
    && (s.log.torn && !a.PowerCut? ==> t.log == s.log)
    && (s.log.torn && s.log.settled ==> t.log.torn && t.log.settled)
    && (s.log.torn ==> t.history == s.history)
  }

  /** A log that an append may leave. */
  lemma KeepLog(codec: Codec, pinned: Digest, s: State, log: Log)
    requires Inv(codec, pinned, s) && LogSound(codec, log)
    ensures Inv(codec, pinned, s.(log := log))
  {
    hide RootsChain, LogSound, AllVouched;
  }

  /** An acceptance, whatever becomes of its commit. */
  lemma KeepCommitting(codec: Codec, pinned: Digest, s: State, a: Action, d: Decision)
    requires Inv(codec, pinned, s) && a.Submitted? && !s.poisoned && a.dir.root.Some?
    requires Evaluate(codec, pinned, a.dir, s.mem, a.payload, a.keyID, a.now) == Some(d)
    ensures Inv(codec, pinned, Committing(s, d, a))
    ensures s.history <= Committing(s, d, a).history
  {
    hide Evaluate, RootsChain, LogSound, Follows, RootSignedBy, Vouched;
    EvaluatedFollows(codec, pinned, a.dir, s.mem, a.payload, a.keyID, a.now);
    EvaluatedVouches(codec, pinned, a.dir, s.mem, a.payload, a.keyID, a.now);
    ChainExtends(codec, pinned, s.history,
                 Entry(a.dir.root.value, a.dir, a.keyID, a.now, d.snapshotVersion, d.snapshot, a.payload));
  }

  lemma KeepSubmitted(codec: Codec, pinned: Digest, s: State, a: Action)
    requires Inv(codec, pinned, s) && a.Submitted?
    ensures Inv(codec, pinned, After(codec, pinned, s, a)) && Advances(s, a, After(codec, pinned, s, a))
  {
    hide Evaluate, Appended, Inv, Names, OnDisk, Chained, Genuine;
    InvLogged(codec, pinned, s);
    var d := Evaluate(codec, pinned, a.dir, s.mem, a.payload, a.keyID, a.now);
    AppendKeeps(codec, s.log, a.payload, a.append);
    var log := Appended(s.log, codec.release(a.payload).id, DigestOf(a.payload), a.append).0;
    PrefixOnDisk(s.log, log);
    PrefixOnDisk(s.log, s.log);
    KeepLog(codec, pinned, s, log);
    if !s.poisoned && d.Some? && a.dir.root.Some? {
      KeepCommitting(codec, pinned, s.(log := log), a, d.value);
    }
  }

  lemma Keep(codec: Codec, pinned: Digest, s: State, a: Action)
    requires Inv(codec, pinned, s)
    ensures Inv(codec, pinned, After(codec, pinned, s, a)) && Advances(s, a, After(codec, pinned, s, a))
  {
    hide RootsChain, AllVouched, Chained, Genuine, OnDisk, Cut, Evaluate, Appended;
    PrefixOnDisk(s.log, s.log);
    if a.Submitted? {
      KeepSubmitted(codec, pinned, s, a);
    } else if a.PowerCut? {
      CutKeeps(codec, s.log, a.keep, a.tear);
      PrefixOnDisk(s.log, Cut(s.log, a.keep, a.tear));
    }
  }

  // ---------------------------------------------------------------- runs

  /** The state after any sequence of actions. */
  function AfterAll(codec: Codec, pinned: Digest, s: State, acts: seq<Action>): State
    decreases |acts|
  {
    if acts == [] then s else AfterAll(codec, pinned, After(codec, pinned, s, acts[0]), acts[1..])
  }

  predicate NoPowerCut(acts: seq<Action>) {
    forall i | 0 <= i < |acts| :: !acts[i].PowerCut?
  }

  lemma {:induction false} KeepAll(codec: Codec, pinned: Digest, s: State, acts: seq<Action>)
    requires Inv(codec, pinned, s)
    ensures var t := AfterAll(codec, pinned, s, acts);
            && Inv(codec, pinned, t) && s.history <= t.history && OnDisk(s.log) <= OnDisk(t.log)
            && (NoPowerCut(acts) ==> s.log.lines <= t.log.lines)
            && (s.log.torn && (s.log.settled || NoPowerCut(acts)) ==> t.history == s.history)
    decreases |acts|
  {
    hide Inv, After, OnDisk;
    if acts != [] {
      Keep(codec, pinned, s, acts[0]);
      KeepAll(codec, pinned, After(codec, pinned, s, acts[0]), acts[1..]);
    }
  }

  lemma InvLogged(codec: Codec, pinned: Digest, s: State)
    requires Inv(codec, pinned, s)
    ensures LogSound(codec, s.log)
  {
  }

  /**
   Over all accepted submissions the roots form a chain that starts at the pinned one, each link being the same bytes
   or a newer document that itself carries enough signatures under both root roles; no root or snapshot version ever
   falls, and one version never stands for two documents. Behind every accepted release stand the signed documents
   and the key that allow it. The log is a hash chain that names no digest twice.
   */
  lemma TrustHolds(codec: Codec, pinned: Digest, s: State, acts: seq<Action>)
    requires Begins(s)
    ensures var t := AfterAll(codec, pinned, s, acts);
            && RootsChain(codec, pinned, t.history) && AllVouched(codec, t.history)
            && LogSound(codec, t.log)
            && t.disk == RecordOf(codec, t.history)
  {
    assert Inv(codec, pinned, s);
    KeepAll(codec, pinned, s, acts);
  }

  /**
   A release whose line was written is never logged again, whatever happened since, including a death of the agent
   before its journal commit; after a power cut this needs the line to have been synced.
   */
  lemma RetryAddsNothing(codec: Codec, pinned: Digest, s: State, first: Action, between: seq<Action>, retry: Action)
    requires Inv(codec, pinned, s) && first.Submitted? && retry.Submitted? && retry.payload == first.payload
    requires After(codec, pinned, s, first).log.lines != s.log.lines
    requires first.append.Synced? || NoPowerCut(between)
    ensures var t := AfterAll(codec, pinned, After(codec, pinned, s, first), between);
            After(codec, pinned, t, retry).log == t.log
  {
    hide Inv, After, Names, OnDisk;
    LineWritten(codec, pinned, s, first);
    Keep(codec, pinned, s, first);
    var mid := After(codec, pinned, s, first);
    KeepAll(codec, pinned, mid, between);
    var t := AfterAll(codec, pinned, mid, between);
    if first.append.Synced? {
      AllOnDisk(mid.log);
      OnDiskIsPrefix(t.log);
    }
    NamesLonger(mid.log.lines, t.log.lines, DigestOf(first.payload));
    NamedAddsNothing(codec, pinned, t, retry);
  }

  lemma LineWritten(codec: Codec, pinned: Digest, s: State, a: Action)
    requires Inv(codec, pinned, s) && a.Submitted? && After(codec, pinned, s, a).log.lines != s.log.lines
    ensures var log := After(codec, pinned, s, a).log;
            Names(log.lines, DigestOf(a.payload)) && (a.append.Synced? ==> log.synced == |log.lines|)
  {
    hide Inv, Evaluate, Appended, Names;
    InvLogged(codec, pinned, s);
    AppendKeeps(codec, s.log, a.payload, a.append);
  }

  /** A submission of a release that the log names leaves the log as it is. */
  lemma NamedAddsNothing(codec: Codec, pinned: Digest, s: State, a: Action)
    requires Inv(codec, pinned, s) && a.Submitted? && Names(s.log.lines, DigestOf(a.payload))
    ensures After(codec, pinned, s, a).log == s.log
  {
    hide Inv, Evaluate, Appended, Names;
    InvLogged(codec, pinned, s);
    AppendKeeps(codec, s.log, a.payload, a.append);
  }

  lemma AllOnDisk(log: Log)
    requires log.synced == |log.lines|
    ensures OnDisk(log) == log.lines
  {
  }

  lemma OnDiskIsPrefix(log: Log)
    ensures OnDisk(log) <= log.lines
  {
  }

  // ---------------------------------------------------------------- a line for every accepted release

  /** The line of every accepted release is where no power cut can take it. */
  ghost predicate DurablyLogged(s: State) {
    forall i | 0 <= i < |s.history| :: Names(OnDisk(s.log), DigestOf(s.history[i].payload))
  }

  /** A submission that nothing stands in the way of once the log names its release. */
  predicate Passes(codec: Codec, pinned: Digest, s: State, a: Action) {
    && a.Submitted? && !s.poisoned && a.admitted && a.fits && !a.append.Unreadable? && !s.log.torn
       && !a.outcome.FailedLost?
    && ChainFine(codec, pinned, a.dir, s.mem, a.payload, a.keyID, a.now)
  }

  /**
   A submission is accepted if and only if it passes and the log names its release or takes its line and syncs it.
   */
  lemma AcceptedExactly(codec: Codec, pinned: Digest, s: State, a: Action)
    requires Inv(codec, pinned, s) && a.Submitted?
    ensures After(codec, pinned, s, a).history != s.history <==>
              Passes(codec, pinned, s, a) && (a.append.Synced? || Names(s.log.lines, DigestOf(a.payload)))
  {
    hide Inv, Evaluate, Names, Chained, Genuine, Scan, ChainFine;
    InvLogged(codec, pinned, s);
    EvaluatedExactly(codec, pinned, a.dir, s.mem, a.payload, a.keyID, a.now);
    assert s.log.lines[0..] == s.log.lines && s.log.lines[..0] == [];
    NothingNamed(DigestOf(a.payload));
    ScanFinds(codec, s.log.lines, 0, a.payload);
    if Evaluate(codec, pinned, a.dir, s.mem, a.payload, a.keyID, a.now).Some? {
      EvaluatedFollows(codec, pinned, a.dir, s.mem, a.payload, a.keyID, a.now);
    }
  }

  /** The submission passes on the strength of a line that is in the file but was never synced. */
  predicate ReliesOnUnsynced(codec: Codec, pinned: Digest, s: State, a: Action) {
    && Passes(codec, pinned, s, a)
    && Names(s.log.lines, DigestOf(a.payload)) && !Names(OnDisk(s.log), DigestOf(a.payload))
  }

  /** Where the log names the release, exactly the submissions that pass are accepted. */
  lemma PassesExactly(codec: Codec, pinned: Digest, s: State, a: Action)
    requires Inv(codec, pinned, s) && a.Submitted? && Names(s.log.lines, DigestOf(a.payload))
    ensures |After(codec, pinned, s, a).history| > |s.history| <==> Passes(codec, pinned, s, a)
  {
    hide Inv, Evaluate, Names, Chained, Genuine, ChainFine;
    InvLogged(codec, pinned, s);
    AppendPresent(codec, s.log, a.payload, a.append);
    EvaluatedExactly(codec, pinned, a.dir, s.mem, a.payload, a.keyID, a.now);
    if Evaluate(codec, pinned, a.dir, s.mem, a.payload, a.keyID, a.now).Some? {
      EvaluatedFollows(codec, pinned, a.dir, s.mem, a.payload, a.keyID, a.now);
    }
  }

  lemma AppendPresent(codec: Codec, log: Log, payload: Bytes, how: Append)
    requires LogSound(codec, log) && Names(log.lines, DigestOf(payload))
    ensures Appended(log, codec.release(payload).id, DigestOf(payload), how) == (log, !how.Unreadable? && !log.torn)
  {
    hide Scan, Chained;
    assert log.lines[0..] == log.lines && log.lines[..0] == [];
    ScanFinds(codec, log.lines, 0, payload);
  }

  lemma AcceptedIsNamed(codec: Codec, pinned: Digest, s: State, a: Action)
    requires Inv(codec, pinned, s) && a.Submitted?
    ensures var t := After(codec, pinned, s, a);
            || t.history == s.history
            || (&& |t.history| == |s.history| + 1 && s.history <= t.history
                && t.history[|s.history|].payload == a.payload
                && Names(t.log.lines, DigestOf(a.payload))
                && (if Names(s.log.lines, DigestOf(a.payload)) then t.log == s.log else t.log.synced == |t.log.lines|))
  {
    hide Evaluate, Appended, RootsChain, Chained, Genuine, Names;
    AppendKeeps(codec, s.log, a.payload, a.append);
  }

  /** Accepted releases stay durably logged, through every step, exactly as long as none relies on an unsynced line. */
  lemma DurablyLoggedExactly(codec: Codec, pinned: Digest, s: State, a: Action)
    requires Inv(codec, pinned, s) && DurablyLogged(s)
    ensures DurablyLogged(After(codec, pinned, s, a)) <==> !ReliesOnUnsynced(codec, pinned, s, a)
  {
    hide Inv, After, Names, OnDisk, Passes;
    Keep(codec, pinned, s, a);
    var t := After(codec, pinned, s, a);
    forall i | 0 <= i < |s.history| ensures Names(OnDisk(t.log), DigestOf(s.history[i].payload)) {
      NamesLonger(OnDisk(s.log), OnDisk(t.log), DigestOf(s.history[i].payload));
    }
    if a.Submitted? {
      AcceptedIsNamed(codec, pinned, s, a);
      if Names(s.log.lines, DigestOf(a.payload)) {
        PassesExactly(codec, pinned, s, a);
      }
      if t.history != s.history && !Names(s.log.lines, DigestOf(a.payload)) {
        AllOnDisk(t.log);
      }
      assert t.history != s.history ==> t.history[|s.history|].payload == a.payload;
    } else {
      OnlySubmissionsAccept(codec, pinned, s, a);
      OnlySubmissionsPass(codec, pinned, s, a);
    }
  }

  lemma OnlySubmissionsPass(codec: Codec, pinned: Digest, s: State, a: Action)
    requires !a.Submitted?
    ensures !Passes(codec, pinned, s, a)
  {
  }

  lemma OnlySubmissionsAccept(codec: Codec, pinned: Digest, s: State, a: Action)
    requires !a.Submitted?
    ensures After(codec, pinned, s, a).history == s.history
  {
  }

  /** And such a release does lose its line: one power cut is enough. */
  lemma UnsyncedLineIsLost(codec: Codec, pinned: Digest, s: State, a: Action)
    requires Inv(codec, pinned, s) && ReliesOnUnsynced(codec, pinned, s, a)
    ensures var t := After(codec, pinned, After(codec, pinned, s, a), PowerCut(0, false));
            |t.history| == |s.history| + 1 && t.history[|s.history|].payload == a.payload
              && !Names(t.log.lines, DigestOf(a.payload))
  {
    hide Inv, Evaluate, Appended, Names;
    AcceptedIsNamed(codec, pinned, s, a);
    PassesExactly(codec, pinned, s, a);
    InvLogged(codec, pinned, s);
  }

  ghost predicate NoneRelies(codec: Codec, pinned: Digest, s: State, acts: seq<Action>)
    decreases |acts|
  {
    acts == [] || (!ReliesOnUnsynced(codec, pinned, s, acts[0])
                   && NoneRelies(codec, pinned, After(codec, pinned, s, acts[0]), acts[1..]))
  }

  /**
   Over a whole life, power cuts included, every accepted release keeps its line if none relied on an unsynced one.
   */
  lemma {:induction false} EveryReleaseLogged(codec: Codec, pinned: Digest, s: State, acts: seq<Action>)
    requires Inv(codec, pinned, s) && DurablyLogged(s) && NoneRelies(codec, pinned, s, acts)
    ensures DurablyLogged(AfterAll(codec, pinned, s, acts))
    decreases |acts|
  {
    hide Inv, After, ReliesOnUnsynced, DurablyLogged;
    if acts != [] {
      Keep(codec, pinned, s, acts[0]);
      DurablyLoggedExactly(codec, pinned, s, acts[0]);
      EveryReleaseLogged(codec, pinned, After(codec, pinned, s, acts[0]), acts[1..]);
    }
  }

  /** Every accepted release has its line in the file. */
  ghost predicate Logged(s: State) {
    forall i | 0 <= i < |s.history| :: Names(s.log.lines, DigestOf(s.history[i].payload))
  }

  /** Without power cuts every accepted release has its line, whatever else fails. */
  lemma {:induction false} LoggedWithoutPowerCut(codec: Codec, pinned: Digest, s: State, acts: seq<Action>)
    requires Inv(codec, pinned, s) && Logged(s) && NoPowerCut(acts)
    ensures Logged(AfterAll(codec, pinned, s, acts))
    decreases |acts|
  {
    hide Inv, After, Names, OnDisk;
    if acts != [] {
      var a, t := acts[0], After(codec, pinned, s, acts[0]);
      Keep(codec, pinned, s, a);
      forall i | 0 <= i < |s.history| ensures Names(t.log.lines, DigestOf(s.history[i].payload)) {
        NamesLonger(s.log.lines, t.log.lines, DigestOf(s.history[i].payload));
      }
      if a.Submitted? {
        AcceptedIsNamed(codec, pinned, s, a);
        assert forall i | 0 <= i < |t.history| :: i < |s.history| ==> t.history[i] == s.history[i];
      } else {
        OnlySubmissionsAccept(codec, pinned, s, a);
      }
      LoggedWithoutPowerCut(codec, pinned, t, acts[1..]);
    }
  }

  // ---------------------------------------------------------------- torn lines

  /**
   A submission passes the log exactly if no line is torn; a torn line lasts until a power cut takes it, if one can.
   */
  lemma AcceptsUnlessTorn(codec: Codec, pinned: Digest, s: State, a: Action)
    requires Inv(codec, pinned, s) && !s.poisoned
    requires a.Submitted? && a.admitted && a.fits && a.append.Synced? && a.outcome.Durable?
    requires ChainFine(codec, pinned, a.dir, s.mem, a.payload, a.keyID, a.now)
    ensures |After(codec, pinned, s, a).history| == |s.history| + 1 <==> !s.log.torn
    ensures s.log.torn ==>
              forall acts | s.log.settled || NoPowerCut(acts) :: AfterAll(codec, pinned, s, acts).history == s.history
  {
    hide Inv, Evaluate, Appended, Names, ChainFine;
    InvLogged(codec, pinned, s);
    EvaluatedExactly(codec, pinned, a.dir, s.mem, a.payload, a.keyID, a.now);
    EvaluatedFollows(codec, pinned, a.dir, s.mem, a.payload, a.keyID, a.now);
    AppendKeeps(codec, s.log, a.payload, a.append);
    forall acts | s.log.settled || NoPowerCut(acts)
      ensures s.log.torn ==> AfterAll(codec, pinned, s, acts).history == s.history
    {
      KeepAll(codec, pinned, s, acts);
    }
  }

  // ---------------------------------------------------------------- two runs

  function ExampleRoot(): Root {
    var role := Role(1, ["k"]);
    Root(1, 1, 100, map["k" := "p"], map["root" := role, "timestamp" := role, "snapshot" := role, "targets" := role],
         [])
  }

  /** A codec under which one key may sign everything. */
  function Example(): Codec {
    Codec(_ => Some(ExampleRoot()), _ => Some(Timestamp(100, 1, DigestOf([2]))),
          _ => Some(Snapshot(1, 100, 1, DigestOf([3]))), _ => Some(Targets(1, 100, [DigestOf([9])], [])),
          _ => Release(1, "r", 1, "v", 100, []), _ => Some([]), _ => true, (_, _, _) => true)
  }

  function ExampleDoc(b: Byte): Doc {
    Doc([b], [KeySignature("k", [])])
  }

  function ExampleSubmission(append: Append): Action {
    Submitted(TrustDir(Some(ExampleDoc(1)), Some(ExampleDoc(4)), Some(ExampleDoc(2)), Some(ExampleDoc(3))), [9], "k",
              0, true,
              append, true, Durable)
  }

  lemma OneSigner(b: Byte)
    ensures MeetsThreshold(Example(), [b], [KeySignature("k", [])], ExampleRoot().keys, Role(1, ["k"]))
  {
    var sigs, role := [KeySignature("k", [])], Role(1, ["k"]);
    assert sigs[0].keyID in Signers(sigs, role);
    assert Signers(sigs, role) == {"k"};
  }

  lemma SignedForRole(b: Byte, name: string)
    requires name in ExampleRoot().roles
    ensures SignedFor(Example(), ExampleDoc(b), ExampleRoot(), name)
  {
    hide MeetsThreshold;
    OneSigner(b);
    assert RoleOf(ExampleRoot(), name) == Role(1, ["k"]);
  }

  lemma ExampleDecides(append: Append)
    ensures var a := ExampleSubmission(append);
            Evaluate(Example(), DigestOf([1]), a.dir, NOTHING, a.payload, a.keyID, a.now)
            == Some(Decision([1], 1, 1, DigestOf([2]), DigestOf([9])))
  {
    hide SignedFor;
    SignedForRole(1, "root");
    SignedForRole(4, "timestamp");
    SignedForRole(2, "snapshot");
    SignedForRole(3, "targets");
  }

  /** A line that tears and then survives a power cut stops the device for good. */
  lemma TornForGood(s: State, acts: seq<Action>)
    requires Begins(s)
    ensures var tears := [ExampleSubmission(Torn), PowerCut(0, true)];
            var t := AfterAll(Example(), DigestOf([1]), s, tears);
            t.log.torn && t.log.settled && AfterAll(Example(), DigestOf([1]), t, acts).history == []
  {
    hide Evaluate;
    ExampleDecides(Torn);
    var codec, pinned := Example(), DigestOf([1]);
    var a, b := ExampleSubmission(Torn), PowerCut(0, true);
    var t1 := After(codec, pinned, s, a);
    assert t1 == s.(log := Log([], true, 0, false));
    var t := After(codec, pinned, t1, b);
    assert t.log == Log([], true, 0, true);
    TwoSteps(codec, pinned, s, a, b);
    assert Inv(codec, pinned, t);
    KeepAll(codec, pinned, t, acts);
  }

  lemma TwoSteps(codec: Codec, pinned: Digest, s: State, a: Action, b: Action)
    ensures AfterAll(codec, pinned, s, [a, b]) == After(codec, pinned, After(codec, pinned, s, a), b)
  {
    hide After;
    assert [a, b][1..] == [b] && [b][1..] == [];
    var t := After(codec, pinned, s, a);
    assert AfterAll(codec, pinned, t, [b]) == AfterAll(codec, pinned, After(codec, pinned, t, b), []);
  }

  /** A line that was not synced is found by the retry, the release is accepted on it, and a power cut takes it. */
  lemma AcceptedThenLost(s: State)
    requires Begins(s)
    ensures var codec := Example();
            var t := AfterAll(codec, DigestOf([1]), s, [ExampleSubmission(Unsynced), ExampleSubmission(Synced)]);
            var u := After(codec, DigestOf([1]), t, PowerCut(0, false));
            |u.history| == 1 && u.log.lines == []
  {
    hide Evaluate;
    ExampleDecides(Unsynced);
    ExampleDecides(Synced);
    var codec, pinned := Example(), DigestOf([1]);
    var a, b := ExampleSubmission(Unsynced), ExampleSubmission(Synced);
    var line := Line(Zero, "r", DigestOf([9]));
    var t1 := After(codec, pinned, s, a);
    assert t1 == s.(log := Log([line], false, 0, false));
    assert Scan([line], Zero, "r", DigestOf([9])) == Present;
    var t := After(codec, pinned, t1, b);
    assert t.log == t1.log && |t.history| == 1;
    TwoSteps(codec, pinned, s, a, b);
  }
}
