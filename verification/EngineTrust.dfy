/**
 The engine under trust metadata (internal/ota/engine.go, internal/ota/trustmeta.go): every acceptance goes through the
 supply-chain decision and the release log, inside the journal's own transaction. Engine steps and the trust record
 move together.
 */
module EngineTrust {
  import opened Model
  import opened Journal
  import T = Trust
  import R = TrustRuns
  import E = Engine
  import I = EngineInvariant
  import EngineWrites
  import EngineRuns

  datatype Move =
    | Accepting(spilled: set<string>, act: R.Action)       // the journal write of an acceptance
    | EngineMoves(l: E.Label)                              // any other engine step
    | PowerFails(boot: E.Boot, keep: nat, tear: bool)      // the device starts again, and the log keeps what was synced

  /** The supply chain and the log let the submission through. */
  predicate Granted(codec: T.Codec, pinned: Digest, s: R.State, a: R.Action)
    requires a.Submitted?
  {
    && T.Evaluate(codec, pinned, a.dir, s.mem, a.payload, a.keyID, a.now).Some? && a.dir.root.Some?
    && T.Appended(s.log, codec.release(a.payload).id, DigestOf(a.payload), a.append).1
  }

  /** The change that a write or an acknowledgment tries to commit. */
  function Attempted(cfg: E.Config, w: E.World, l: E.Label): Option<Database> {
    match l
    case Write(spilled, _) =>
      if E.IsWrite(w.todo) then E.Attempt(cfg, w, E.Change(w.todo, w.mem, w.clock), spilled) else None
    case Ack(sequence, spilled, _) => E.Attempt(cfg, w, Acked(w.mem, sequence), spilled)
    case _ => None
  }

  /** What an engine step other than an acceptance does to the trust record. */
  function Beside(cfg: E.Config, w: E.World, l: E.Label, s: R.State): R.State {
    if l.Crash? || l.DeviceBoots? then s.(mem := s.disk, poisoned := false)
    else if (l.Write? || l.Ack?) && Attempted(cfg, w, l).Some? && !l.outcome.Durable? then s.(poisoned := true)
    else s
  }

  ghost predicate JointNext(cfg: E.Config, codec: T.Codec, pinned: Digest, w: E.World, s: R.State, m: Move,
                            w': E.World, s': R.State)
  {
    match m
    case EngineMoves(l) => !(l.Write? && w.todo.AcceptJob?) && E.Next(cfg, w, l, w') && s' == Beside(cfg, w, l, s)
    case PowerFails(boot, keep, tear) =>
      E.Next(cfg, w, E.DeviceBoots(boot), w') && s' == R.After(codec, pinned, s, R.PowerCut(keep, tear))
    case Accepting(spilled, a) =>
      && w.todo.AcceptJob? && a.Submitted? && a.payload == w.todo.job.assignment.release.payload
      && a.fits && a.admitted == E.Change(w.todo, w.mem, w.clock).Some?
      && s' == R.After(codec, pinned, s, a)
      && (if !w.poisoned && a.admitted && !Granted(codec, pinned, s, a) then w' == w.(todo := E.Idle)
          else E.Next(cfg, w, E.Write(spilled, a.outcome), w'))
  }

  /** One history: what the engine accepted is what the trust record accepted. */
  predicate Matches(w: E.World, s: R.State) {
    && s.poisoned == w.poisoned && |s.history| == |w.accepted|
    && forall i | 0 <= i < |s.history| :: s.history[i].payload == w.accepted[i].release.payload
  }

  lemma BesideMatches(cfg: E.Config, w: E.World, l: E.Label, s: R.State)
    requires E.Enabled(cfg, w, l) && Matches(w, s) && !(l.Write? && w.todo.AcceptJob?)
    ensures Matches(E.Apply(cfg, w, l), Beside(cfg, w, l, s))
  {
    hide Journal.Valid, Spills, E.Decide, E.DecideSubmit, E.DecideReboot, E.DecideAbort, E.AfterInspect, Marked,
         FindSlot,
         E.Change, Acked, E.AfterWrite, E.IsLatest, Without, E.Archived;
  }

  lemma BesideKeeps(codec: T.Codec, pinned: Digest, cfg: E.Config, w: E.World, l: E.Label, s: R.State)
    requires R.Inv(codec, pinned, s)
    ensures R.Inv(codec, pinned, Beside(cfg, w, l, s))
    ensures Beside(cfg, w, l, s).log == s.log && Beside(cfg, w, l, s).history == s.history
  {
    hide R.RootsChain, R.LogSound, R.AllVouched, Attempted;
  }

  lemma AcceptingMatches(cfg: E.Config, codec: T.Codec, pinned: Digest, w: E.World, s: R.State, spilled: set<string>,
                         a: R.Action, w': E.World, s': R.State)
    requires I.Inv(cfg, w) && Matches(w, s) && JointNext(cfg, codec, pinned, w, s, Accepting(spilled, a), w', s')
    ensures Matches(w', s')
  {
    hide I.Inv, Journal.Valid, Spills, E.Change, T.Evaluate, T.Appended, Without, E.Archived, E.AfterWrite;
    if !w.poisoned && a.admitted && Granted(codec, pinned, s, a) {
      EngineRuns.WritesAreValid(cfg, w, spilled, a.outcome);
    }
  }

  lemma JointKeep(cfg: E.Config, codec: T.Codec, pinned: Digest, w: E.World, s: R.State, m: Move, w': E.World,
                  s': R.State)
    requires I.Inv(cfg, w) && R.Inv(codec, pinned, s) && Matches(w, s)
    requires JointNext(cfg, codec, pinned, w, s, m, w', s')
    ensures I.Inv(cfg, w') && R.Inv(codec, pinned, s') && Matches(w', s')
  {
    hide I.Inv, R.Inv, E.Enabled, E.Apply, R.After, Granted, Beside, Matches;
    if m.EngineMoves? {
      EngineWrites.Keep(cfg, w, m.l);
      BesideMatches(cfg, w, m.l, s);
      BesideKeeps(codec, pinned, cfg, w, m.l, s);
    } else if m.PowerFails? {
      EngineWrites.Keep(cfg, w, E.DeviceBoots(m.boot));
      R.Keep(codec, pinned, s, R.PowerCut(m.keep, m.tear));
      PowerMatches(cfg, codec, pinned, w, s, m);
    } else {
      R.Keep(codec, pinned, s, m.act);
      AcceptingMatches(cfg, codec, pinned, w, s, m.spilled, m.act, w', s');
      EngineWrites.KeepIdle(cfg, w);
      if w' != w.(todo := E.Idle) {
        EngineWrites.Keep(cfg, w, E.Write(m.spilled, m.act.outcome));
      }
    }
  }

  lemma PowerMatches(cfg: E.Config, codec: T.Codec, pinned: Digest, w: E.World, s: R.State, m: Move)
    requires m.PowerFails? && Matches(w, s) && E.Enabled(cfg, w, E.DeviceBoots(m.boot))
    ensures Matches(E.Apply(cfg, w, E.DeviceBoots(m.boot)), R.After(codec, pinned, s, R.PowerCut(m.keep, m.tear)))
  {
  }

  // ---------------------------------------------------------------- joint runs

  ghost predicate JointMoves(cfg: E.Config, codec: T.Codec, pinned: Digest, ws: seq<E.World>, ss: seq<R.State>,
                             ms: seq<Move>, i: nat)
    requires i < |ms| && |ws| == |ms| + 1 == |ss|
  {
    JointNext(cfg, codec, pinned, ws[i], ss[i], ms[i], ws[i + 1], ss[i + 1])
  }

  ghost predicate IsJointRun(cfg: E.Config, codec: T.Codec, pinned: Digest, ws: seq<E.World>, ss: seq<R.State>,
                             ms: seq<Move>)
  {
    && |ws| == |ms| + 1 == |ss| && E.Init(ws[0]) && R.Begins(ss[0])
    && forall i | 0 <= i < |ms| :: JointMoves(cfg, codec, pinned, ws, ss, ms, i)
  }

  lemma BeginsInv(codec: T.Codec, pinned: Digest, s: R.State)
    requires R.Begins(s)
    ensures R.Inv(codec, pinned, s) && R.DurablyLogged(s) && R.Logged(s)
  {
  }

  lemma {:induction false} JointReachable(cfg: E.Config, codec: T.Codec, pinned: Digest, ws: seq<E.World>,
                                          ss: seq<R.State>,
                                          ms: seq<Move>, k: nat)
    requires IsJointRun(cfg, codec, pinned, ws, ss, ms) && k < |ws|
    ensures I.Inv(cfg, ws[k]) && R.Inv(codec, pinned, ss[k]) && Matches(ws[k], ss[k])
  {
    hide I.Inv, R.Inv, JointNext;
    if k == 0 {
      I.InitInv(cfg, ws[0]);
      BeginsInv(codec, pinned, ss[0]);
    } else {
      JointReachable(cfg, codec, pinned, ws, ss, ms, k - 1);
      assert JointMoves(cfg, codec, pinned, ws, ss, ms, k - 1);
      JointKeep(cfg, codec, pinned, ws[k - 1], ss[k - 1], ms[k - 1], ws[k], ss[k]);
    }
  }

  /** No acceptance relies on a log line that was never synced. */
  predicate Careful(codec: T.Codec, pinned: Digest, s: R.State, m: Move) {
    m.Accepting? ==> !R.ReliesOnUnsynced(codec, pinned, s, m.act)
  }

  lemma LoggedStep(cfg: E.Config, codec: T.Codec, pinned: Digest, w: E.World, s: R.State, m: Move, w': E.World,
                   s': R.State)
    requires R.Inv(codec, pinned, s) && R.DurablyLogged(s) && Careful(codec, pinned, s, m)
    requires JointNext(cfg, codec, pinned, w, s, m, w', s')
    ensures R.DurablyLogged(s')
  {
    hide R.Inv, E.Next, R.After, Granted, Beside, R.Passes;
    if m.EngineMoves? {
      BesideKeeps(codec, pinned, cfg, w, m.l, s);
    } else if m.PowerFails? {
      R.DurablyLoggedExactly(codec, pinned, s, R.PowerCut(m.keep, m.tear));
      R.OnlySubmissionsPass(codec, pinned, s, R.PowerCut(m.keep, m.tear));
    } else {
      R.DurablyLoggedExactly(codec, pinned, s, m.act);
    }
  }

  lemma {:induction false} DurablyLoggedThroughout(cfg: E.Config, codec: T.Codec, pinned: Digest, ws: seq<E.World>,
                                                   ss: seq<R.State>, ms: seq<Move>, k: nat)
    requires IsJointRun(cfg, codec, pinned, ws, ss, ms) && k < |ws|
    requires forall i | 0 <= i < |ms| :: Careful(codec, pinned, ss[i], ms[i])
    ensures R.DurablyLogged(ss[k])
  {
    hide I.Inv, R.Inv, JointNext, R.DurablyLogged, Careful;
    if k == 0 {
      BeginsInv(codec, pinned, ss[0]);
    } else {
      DurablyLoggedThroughout(cfg, codec, pinned, ws, ss, ms, k - 1);
      JointReachable(cfg, codec, pinned, ws, ss, ms, k - 1);
      assert JointMoves(cfg, codec, pinned, ws, ss, ms, k - 1);
      LoggedStep(cfg, codec, pinned, ws[k - 1], ss[k - 1], ms[k - 1], ws[k], ss[k]);
    }
  }

  /**
   Every release the engine ever accepted, through crashes, failed commits, failed appends and power cuts, was accepted
   under a root of the signed chain, with the signed documents and the key that allow it behind it, and has a line on
   the disk that no power cut can take, as long as no acceptance relied on an unsynced one.
   */
  lemma EveryAcceptedIsLogged(cfg: E.Config, codec: T.Codec, pinned: Digest, ws: seq<E.World>, ss: seq<R.State>,
                              ms: seq<Move>, k: nat, i: nat)
    requires IsJointRun(cfg, codec, pinned, ws, ss, ms) && k < |ws| && i < |ws[k].accepted|
    ensures |ss[k].history| == |ws[k].accepted| && R.RootsChain(codec, pinned, ss[k].history)
    ensures R.LogSound(codec, ss[k].log)
    ensures ss[k].history[i].payload == ws[k].accepted[i].release.payload && R.Vouched(codec, ss[k].history[i])
    ensures (forall n | 0 <= n < |ms| :: Careful(codec, pinned, ss[n], ms[n])) ==>
              T.Names(R.OnDisk(ss[k].log), DigestOf(ws[k].accepted[i].release.payload))
  {
    hide I.Inv, JointNext, Careful, T.Names, R.OnDisk, R.RootsChain, R.LogSound, R.Vouched;
    JointReachable(cfg, codec, pinned, ws, ss, ms, k);
    if forall n | 0 <= n < |ms| :: Careful(codec, pinned, ss[n], ms[n]) {
      DurablyLoggedThroughout(cfg, codec, pinned, ws, ss, ms, k);
    }
  }
}
