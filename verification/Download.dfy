/**
 The resumable download of one artifact (internal/ota/download.go): a finished file, a partial file, and attempts
 that may be answered by anyone with anything and may stop anywhere.

 Every file operation can fail. An agent that dies is an operation that fails together with the clean-up after it.
 */
module Download {
  import opened Model

  type Bytes = seq<Byte>

  datatype ContentRange = ContentRange(first: int, last: int, total: int)

  /** A response; `body` is what arrives, `broken` says that the transfer ended with an error. */
  datatype Response = Response(status: int, range: Option<ContentRange>, identity: bool, length: Option<int>,
                               body: Bytes, broken: bool)

  /** `localMediaFile` and the copy that `stageLocal` makes of what it found. */
  datatype Media = NoMedia | MediaError | MediaFile(found: Bytes, copied: Bytes, copyOk: bool)

  /** Where the artifact's URL points: to a server, or to a file that has to lie inside the local media directory. */
  datatype Url = Remote(allowed: bool) | LocalFile(inside: bool, found: Option<Bytes>, copied: Bytes, copyOk: bool)

  datatype Relay = NoRelay | RelayDown | RelayError
                 | RelaySends(openOk: bool, body: Bytes, broken: bool, renameOk: bool, cleanOk: bool)

  /** How far `finishDownload` gets. */
  datatype Finish = NotRenamed | Renamed | Finished

  /** What one attempt meets. The server answers the offset it is asked for; 0 means the whole file. */
  datatype Source = Source(url: Url, media: Media, relay: Relay, removeOk: bool, openOk: bool, truncateOk: bool,
                           spaceOk: bool, server: nat -> Option<Response>, syncOk: bool, finish: Finish, cleanOk: bool)

  datatype Error = Invalid | FileError | Unauthorized | RequestFailed | BadRange | BadStatus | BadEncoding
                 | BadLength | TooLong | Interrupted | Truncated | Mismatch

  datatype Result = Done(bytes: nat, resumed: bool) | Failure(error: Error)

  /** `CheckArtifact`: the file exists with the signed size and digest. */
  predicate Matches(a: Artifact, file: Option<Bytes>) {
    file.Some? && |file.value| == a.size && DigestOf(file.value) == a.digest
  }

  predicate Prefix(s: Bytes, t: Bytes) {
    |s| <= |t| && s == t[..|s|]
  }

  /**
   A response that tells the truth about `content` (sections 14.4 and 15.3.7 of RFC 9110): the bytes that arrive
   are those of the file, or of the range it names, cut off anywhere.
   */
  predicate TrueReply(content: Bytes, r: Response) {
    r.identity ==>
      && (r.status == 200 ==> Prefix(r.body, content))
      && (r.status == 206 && r.range.Some? && 0 <= r.range.value.first <= |content| ==>
            Prefix(r.body, content[r.range.value.first..]))
  }

  ghost predicate TrueSource(content: Bytes, s: Source) {
    && (forall o: nat :: s.server(o).Some? ==> TrueReply(content, s.server(o).value))
    && (s.relay.RelaySends? ==> Prefix(s.relay.body, content))
  }

  /** Only the server is used, and it never answers a range request with the whole file. */
  ghost predicate HonoursRanges(s: Source) {
    && s.url.Remote? && s.media.NoMedia? && !s.relay.RelaySends?
    && forall o: nat :: o > 0 && s.server(o).Some? ==> s.server(o).value.status != 200
  }

  /** Nothing goes wrong and everything that was asked for arrives. */
  ghost predicate Delivers(content: Bytes, s: Source) {
    && s.url == Remote(true) && s.media.NoMedia? && (s.relay.NoRelay? || s.relay.RelayDown?)
    && s.removeOk && s.openOk && s.truncateOk && s.spaceOk && s.syncOk && s.finish.Finished? && s.cleanOk
    && forall o: nat | o < |content| :: Complete(content, o, s.server(o))
  }

  predicate Complete(content: Bytes, offset: nat, r: Option<Response>)
    requires offset < |content|
  {
    && r.Some? && r.value.identity && !r.value.broken
    && (|| (r.value.status == 200 && r.value.body == content)
        || (r.value.status == 206 && r.value.range == Some(ContentRange(offset, |content| - 1, |content|))
            && r.value.body == content[offset..]))
    && (r.value.length.None? || r.value.length.value == |r.value.body|)
  }

  /** The positions `0 .. n`, each once. */
  function Positions(n: nat): multiset<nat> {
    if n == 0 then multiset{} else Positions(n - 1) + multiset{n - 1}
  }

  lemma {:induction false} PositionsOnce(n: nat, p: nat)
    ensures Positions(n)[p] == if p < n then 1 else 0
  {
    if n > 0 {
      PositionsOnce(n - 1, p);
    }
  }

  // ---------------------------------------------------------------- one attempt

  datatype Files = Files(final: Option<Bytes>, part: Option<Bytes>)

  /** What an attempt leaves, its result, and the positions `from .. to` it wrote from the server. */
  datatype Attempt = Attempt(files: Files, result: Result, from: nat, to: nat)

  function Wrote(files: Files, result: Result, from: nat, n: nat): Attempt {
    Attempt(files, result, from, from + n)
  }

  function Fails(files: Files, error: Error): Attempt {
    Attempt(files, Failure(error), 0, 0)
  }

  /** `finishDownload`. */
  function Finishing(f: Files, finish: Finish): Files {
    if finish.NotRenamed? then f else Files(f.part, None)
  }

  /** `stageLocal`. */
  function Staged(a: Artifact, f: Files, copied: Bytes, copyOk: bool): Attempt {
    if Matches(a, f.final) then Attempt(f, Done(a.size, false), 0, 0)
    else
      var g := f.(final := Some(copied));
      if !copyOk then Fails(g, FileError)
      else if !Matches(a, g.final) then Fails(g, Mismatch)
      else Attempt(g, Done(a.size, false), 0, 0)
  }

  /** `fetchFromRelay` once the relay answers with a body. */
  function FromRelay(a: Artifact, f: Files, relay: Relay): Attempt
    requires relay.RelaySends?
  {
    if !relay.openOk then Fails(f, FileError)
    else
      var got := relay.body[..Least(|relay.body|, a.size + 1)];
      var kept := f.(part := if relay.cleanOk then None else Some(got));
      if relay.broken || !Matches(a, Some(got)) then Fails(kept, Mismatch)
      else if !relay.renameOk then Fails(kept, FileError)
      else Attempt(Files(Some(got), None), Done(a.size, false), 0, 0)
  }

  function Least(x: nat, y: nat): nat {
    if x < y then x else y
  }

  /** The response is one the transfer accepts for the bytes from `offset` on. */
  predicate Acceptable(a: Artifact, reply: Response, asked: nat) {
    && (reply.status == 200 || reply.status == 206)
    && (reply.status == 206 ==> reply.range == Some(ContentRange(asked, a.size - 1, a.size)))
    && reply.identity
    && (reply.length.Some? && reply.length.value >= 0 ==> reply.length.value == a.size - Begin(reply, asked))
  }

  /** Where the bytes of the response go. */
  function Begin(reply: Response, asked: nat): nat {
    if reply.status == 200 then 0 else asked
  }

  function Refusal(a: Artifact, reply: Response, asked: nat): Error {
    if reply.status != 200 && reply.status != 206 then BadStatus
    else if reply.status == 206 && reply.range != Some(ContentRange(asked, a.size - 1, a.size)) then BadRange
    else if !reply.identity then BadEncoding
    else BadLength
  }

  /** The transfer, from the response on. */
  function Received(a: Artifact, f: Files, s: Source, reply: Response): Attempt
    requires f.part.Some? && |f.part.value| < a.size
  {
    var asked := |f.part.value|;
    if reply.status == 200 && !s.truncateOk then Fails(f, FileError)
    else
      var before := f.(part := Some(if reply.status == 200 then [] else f.part.value));
      if !Acceptable(a, reply, asked) then Fails(before, Refusal(a, reply, asked))
      else
        var from := |before.part.value|;
        var n := Least(|reply.body|, a.size - from + 1);
        var g := f.(part := Some(before.part.value + reply.body[..n]));
        var cleaned := if s.cleanOk then f.(part := Some([])) else g;
        if n > a.size - from then Wrote(cleaned, Failure(TooLong), from, n)
        else if reply.broken then Wrote(g, Failure(Interrupted), from, n)
        else if !s.syncOk then Wrote(g, Failure(FileError), from, n)
        else if n != a.size - from then Wrote(g, Failure(Truncated), from, n)
        else if !Matches(a, g.part) then Wrote(cleaned, Failure(Mismatch), from, n)
        else Wrote(Finishing(g, s.finish),
                   if s.finish.Finished? then Done(n, reply.status == 206 && asked > 0)
                      else Failure(FileError), from, n)
  }

  /** An attempt at the server, from the partial file as it is found. */
  function Resumed(a: Artifact, f: Files, s: Source): Attempt
    requires a.size > 0 && f.part.Some?
  {
    if Matches(a, f.part) then
      Attempt(Finishing(f, s.finish), if s.finish.Finished? then Done(a.size, true) else Failure(FileError), 0, 0)
    else if |f.part.value| >= a.size && !s.truncateOk then Fails(f, FileError)
    else
      var g := if |f.part.value| >= a.size then f.(part := Some([])) else f;
      var reply := s.server(|g.part.value|);
      if !s.spaceOk then Fails(g, FileError)
      else if reply.None? then Fails(g, RequestFailed)
      else Received(a, g, s, reply.value)
  }

  /** One call of `fetch`. */
  function Fetched(a: Artifact, maxBytes: int, f: Files, s: Source): Attempt {
    if s.media.MediaError? then Fails(f, FileError)
    else if s.media.MediaFile? then
      if Matches(a, Some(s.media.found)) then Staged(a, f, s.media.copied, s.media.copyOk) else Fails(f, Mismatch)
    else if s.url.LocalFile? then
      if !s.url.inside then Fails(f, Invalid)
      else if !Matches(a, s.url.found) then Fails(f, Mismatch)
      else Staged(a, f, s.url.copied, s.url.copyOk)
    else if !s.url.allowed || a.size == 0 || a.size > maxBytes then Fails(f, Invalid)
    else if Matches(a, f.final) then Attempt(f, Done(a.size, false), 0, 0)
    else if s.relay.RelayError? then Fails(f, Unauthorized)
    else if s.relay.RelaySends? then FromRelay(a, f, s.relay)
    else if !s.removeOk then Fails(f, FileError)
    else if !s.openOk then Fails(f.(final := None), FileError)
    else Resumed(a, Files(None, Some(if f.part.Some? then f.part.value else [])), s)
  }

  /** The partial file holds nothing but the beginning of `content`. */
  predicate HoldsPrefix(content: Bytes, f: Files) {
    f.part.Some? ==> Prefix(f.part.value, content)
  }

  lemma ReceivedSigned(a: Artifact, f: Files, s: Source, reply: Response)
    requires f.part.Some? && |f.part.value| < a.size
    ensures var r := Received(a, f, s, reply);
            && (r.result.Done? ==> Matches(a, r.files.final))
            && (r.files.final == f.final || Matches(a, r.files.final))
  {
  }

  /** Whatever any source sends, success means the signed size and digest. */
  lemma SuccessIsSigned(a: Artifact, maxBytes: int, f: Files, s: Source)
    ensures Fetched(a, maxBytes, f, s).result.Done? ==> Matches(a, Fetched(a, maxBytes, f, s).files.final)
    // without local media, nothing unsigned is ever put in place
    ensures !s.media.MediaFile? && !s.url.LocalFile? ==>
              var g := Fetched(a, maxBytes, f, s).files.final; g == f.final || g.None? || Matches(a, g)
    // a cached artifact is final: no attempt replaces it
    ensures Matches(a, f.final) ==> Fetched(a, maxBytes, f, s).files == f
  {
    hide Received;
    forall g: Files, reply | g.part.Some? && |g.part.value| < a.size
      ensures var r := Received(a, g, s, reply);
              && (r.result.Done? ==> Matches(a, r.files.final))
              && (r.files.final == g.final || Matches(a, r.files.final))
    {
      ReceivedSigned(a, g, s, reply);
    }
  }

  lemma ReceivedTrue(a: Artifact, f: Files, s: Source, reply: Response, content: Bytes)
    requires Matches(a, Some(content)) && f.part.Some? && |f.part.value| < a.size
    requires TrueReply(content, reply) && HoldsPrefix(content, f)
    ensures var r := Received(a, f, s, reply);
            HoldsPrefix(content, r.files) && r.result != Failure(TooLong) && r.result != Failure(Mismatch)
  {
    hide TrueReply, Prefix;
    PrefixesMatch(a, content);
    EmptyPrefix(content);
    if Acceptable(a, reply, |f.part.value|) {
      var from := Begin(reply, |f.part.value|);
      AcceptableIsTrue(a, f, reply, content);
      var had := if reply.status == 200 then [] else f.part.value;
      Extended(content, had, reply.body, Least(|reply.body|, a.size - from + 1));
    }
  }

  lemma EmptyPrefix(content: Bytes)
    ensures Prefix([], content)
  {
  }

  /** An acceptable true reply continues what is there. */
  lemma AcceptableIsTrue(a: Artifact, f: Files, reply: Response, content: Bytes)
    requires |content| == a.size && f.part.Some? && |f.part.value| < a.size
    requires TrueReply(content, reply) && Acceptable(a, reply, |f.part.value|)
    ensures Prefix(reply.body, content[Begin(reply, |f.part.value|)..])
  {
    assert content[0..] == content;
  }

  lemma Extended(content: Bytes, had: Bytes, more: Bytes, n: nat)
    requires Prefix(had, content) && Prefix(more, content[|had|..]) && n <= |more|
    ensures Prefix(had + more[..n], content) && |more| <= |content| - |had|
  {
    var rest := content[|had|..];
    assert more[..n] == rest[..n];
    assert had + more[..n] == content[..|had| + n];
  }

  /** Against true bytes the partial file stays a prefix, and what completes it passes the digest check. */
  lemma FetchedTrue(a: Artifact, maxBytes: int, f: Files, s: Source, content: Bytes)
    requires Matches(a, Some(content)) && TrueSource(content, s) && HoldsPrefix(content, f)
    ensures var r := Fetched(a, maxBytes, f, s);
            && HoldsPrefix(content, r.files)
            && (!s.media.MediaFile? && s.url.Remote? && !s.relay.RelaySends? ==>
                r.result != Failure(TooLong) && r.result != Failure(Mismatch))
  {
    hide Received, TrueReply, Matches;
    PrefixesMatch(a, content);
    if s.server(0).Some? && content != [] {
      ReceivedTrue(a, Files(None, Some([])), s, s.server(0).value, content);
    }
    if f.part.Some? && |f.part.value| < a.size && s.server(|f.part.value|).Some? {
      ReceivedTrue(a, Files(None, f.part), s, s.server(|f.part.value|).value, content);
    }
  }

  lemma PrefixesMatch(a: Artifact, content: Bytes)
    requires Matches(a, Some(content))
    ensures |content| == a.size
    ensures forall file: Bytes :: Prefix(file, content) ==> (Matches(a, Some(file)) <==> |file| == a.size)
  {
  }

  /** With no fault, true bytes that arrive in full complete a true partial file; a wrong one is emptied. */
  lemma ReceivedInFull(a: Artifact, f: Files, s: Source, content: Bytes)
    requires Matches(a, Some(content)) && Delivers(content, s) && f.part.Some? && |f.part.value| < a.size
    ensures var r := Received(a, f, s, s.server(|f.part.value|).value);
            if HoldsPrefix(content, f) || s.server(|f.part.value|).value.status == 200
            then r.result.Done? && r.files == Files(Some(content), None)
            else r.files == f.(part := Some([]))
  {
    hide Delivers;
    var asked := |f.part.value|;
    DeliversAt(content, s, asked);
    var reply := s.server(asked).value;
    if reply.status == 206 {
      var whole := f.part.value + reply.body;
      assert whole[..asked] == f.part.value;
      assert content[..asked] + content[asked..] == content;
      assert reply.body[..|reply.body|] == reply.body;
    } else {
      assert [] + reply.body[..|reply.body|] == content;
    }
  }

  lemma DeliversAt(content: Bytes, s: Source, asked: nat)
    requires Delivers(content, s) && asked < |content|
    ensures Complete(content, asked, s.server(asked)) && s.truncateOk && s.syncOk && s.cleanOk && s.finish.Finished?
  {
  }

  /** A server that delivers is enough: at most one attempt is wasted, on a partial file that was wrong. */
  lemma DeliveryCompletes(a: Artifact, maxBytes: int, f: Files, s: Source, t: Source, content: Bytes)
    requires Matches(a, Some(content)) && 0 < a.size <= maxBytes && Delivers(content, s) && Delivers(content, t)
    ensures HoldsPrefix(content, f) || (f.part.Some? && |f.part.value| >= a.size) ==>
              Fetched(a, maxBytes, f, s).result.Done?
    ensures var once := Fetched(a, maxBytes, f, s);
            once.result.Done? || (once.files.final.None? && Fetched(a, maxBytes, once.files, t).result.Done?)
  {
    hide Received, Acceptable, Complete;
    PrefixesMatch(a, content);
    var none := Files(None, Some([]));
    ReceivedInFull(a, none, s, content);
    ReceivedInFull(a, none, t, content);
    DeliversAt(content, s, 0);
    DeliversAt(content, t, 0);
    if f.part.Some? && |f.part.value| < a.size {
      ReceivedInFull(a, Files(None, f.part), s, content);
      DeliversAt(content, s, |f.part.value|);
    }
  }

  // ---------------------------------------------------------------- each source, exactly

  /** The attempt gets past the checks on the artifact, and the cache does not hold it yet. */
  predicate Asks(a: Artifact, maxBytes: int, f: Files, s: Source) {
    s.media.NoMedia? && s.url == Remote(true) && 0 < a.size <= maxBytes && !Matches(a, f.final)
  }

  /**
   What is not asked for: an artifact that is cached, of impossible size, or behind an address that is not allowed.
   */
  lemma NotAsked(a: Artifact, maxBytes: int, f: Files, s: Source)
    requires s.media.NoMedia? && s.url.Remote? && !Asks(a, maxBytes, f, s)
    ensures var r := Fetched(a, maxBytes, f, s);
            && r.files == f
            && r.result == if s.url.allowed && 0 < a.size <= maxBytes then Done(a.size, false) else Failure(Invalid)
  {
  }

  /** A relay that sends is believed exactly when what it sends is the artifact and the files can be handled. */
  lemma RelayExactly(a: Artifact, maxBytes: int, f: Files, s: Source, content: Bytes)
    requires Matches(a, Some(content)) && Asks(a, maxBytes, f, s) && s.relay.RelaySends?
    ensures var r := Fetched(a, maxBytes, f, s);
            if s.relay.openOk && !s.relay.broken && s.relay.renameOk && s.relay.body == content
            then r.result == Done(a.size, false) && r.files == Files(Some(content), None)
            else && r.files.final == f.final
                 && (r.result == Failure(if s.relay.openOk && (s.relay.broken || s.relay.body != content)
                                         then Mismatch else FileError))
                 && (if !s.relay.openOk then r.files.part == f.part
                     else if s.relay.cleanOk then r.files.part.None?
                     else r.files.part.Some? && Prefix(r.files.part.value, s.relay.body))
  {
    var body := s.relay.body;
    if |body| == a.size {
      assert body[..|body|] == body;
    }
  }

  /** A relay that refuses stops the attempt; the other cases go on to the server. */
  lemma RelayRefuses(a: Artifact, maxBytes: int, f: Files, s: Source)
    requires Asks(a, maxBytes, f, s) && s.relay.RelayError?
    ensures Fetched(a, maxBytes, f, s).files == f && Fetched(a, maxBytes, f, s).result == Failure(Unauthorized)
  {
  }

  /** A copy of a local file is taken exactly when the file is the artifact and the cache ends up holding it. */
  lemma StagedExactly(a: Artifact, f: Files, copied: Bytes, copyOk: bool)
    ensures var r := Staged(a, f, copied, copyOk);
            && (r.result.Done? <==> Matches(a, f.final) || (copyOk && Matches(a, Some(copied))))
            && (r.result.Done? ==> r.result == Done(a.size, false))
            && (!r.result.Done? ==> r.result == Failure(if copyOk then Mismatch else FileError))
            && r.files.part == f.part && r.files.final == if Matches(a, f.final) then f.final else Some(copied)
  {
  }

  lemma LocalExactly(a: Artifact, maxBytes: int, f: Files, s: Source)
    requires !s.media.NoMedia? || s.url.LocalFile?
    ensures var r := Fetched(a, maxBytes, f, s);
            && (s.media.MediaError? ==> r.files == f && r.result == Failure(FileError))
            && (s.media.MediaFile? ==>
                  if Matches(a, Some(s.media.found)) then r == Staged(a, f, s.media.copied, s.media.copyOk)
                  else r.files == f && r.result == Failure(Mismatch))
            && (s.media.NoMedia? ==>
                  if s.url.inside && Matches(a, s.url.found) then r == Staged(a, f, s.url.copied, s.url.copyOk)
                  else r.files == f && r.result == Failure(if s.url.inside then Mismatch else Invalid))
  {
  }

  /**
   The reply is the whole file, or exactly the rest that was asked for, unencoded and of no other announced length
   (section 15.3.7 of RFC 9110).
   */
  predicate AnswersRequest(a: Artifact, reply: Response, asked: nat) {
    var rest := if reply.status == 200 then a.size else a.size - asked;
    && reply.identity && (reply.length.None? || reply.length.value < 0 || reply.length.value == rest)
    && (|| reply.status == 200
        || (&& reply.status == 206 && reply.range.Some? && reply.range.value.first == asked
            && reply.range.value.last == a.size - 1 && reply.range.value.total == a.size))
  }

  /** Why a reply that does not answer is refused: its status first, then its range, its encoding, its length. */
  function WhyNot(a: Artifact, reply: Response, asked: nat): Error {
    if reply.status !in {200, 206} then BadStatus
    else if reply.status == 206 && !AnswersRequest(a, reply.(identity := true, length := None), asked) then BadRange
    else if reply.identity then BadLength
    else BadEncoding
  }

  /** The transfer completes the artifact from what is there: the right bytes, all of them, and no fault. */
  predicate Fills(a: Artifact, had: Bytes, s: Source, reply: Response) {
    !reply.broken && s.syncOk && s.finish.Finished? && Matches(a, Some(had + reply.body))
  }

  /**
   A reply, exactly: one that does not answer the request leaves the partial file, up to the emptying that a whole file
   brings; a short or interrupted one is kept; one that is too long or wrong is dropped; and only one that completes the
   artifact succeeds.
   */
  lemma ReceivedExactly(a: Artifact, f: Files, s: Source, reply: Response)
    requires f.part.Some? && |f.part.value| < a.size
    ensures var r := Received(a, f, s, reply); var asked := |f.part.value|;
            var had := if reply.status == 200 then [] else f.part.value;
            if reply.status == 200 && !s.truncateOk then r.files == f && r.result == Failure(FileError)
            else if !AnswersRequest(a, reply, asked) then
              r.files == f.(part := Some(had)) && r.result == Failure(WhyNot(a, reply, asked))
            else
              && (r.result.Done? <==> Fills(a, had, s, reply))
              && (r.result.Done? ==>
                    && r.files == Files(Some(had + reply.body), None)
                    && r.result == Done(a.size - |had|, reply.status == 206 && asked > 0))
              && (|had| + |reply.body| > a.size ==>
                    r.result == Failure(TooLong) && r.files.final == f.final
                      && (s.cleanOk ==> r.files.part == Some([])))
              && (|had| + |reply.body| <= a.size && (reply.broken || !s.syncOk || |had| + |reply.body| < a.size) ==>
                    && r.files == f.(part := Some(had + reply.body))
                    && r.result == Failure(if reply.broken then Interrupted
                                           else if !s.syncOk then FileError else Truncated))
              && (|had| + |reply.body| == a.size && !reply.broken && s.syncOk && !Matches(a, Some(had + reply.body)) ==>
                    r.result == Failure(Mismatch) && r.files.final == f.final
                      && (s.cleanOk ==> r.files.part == Some([])))
  {
    var had := if reply.status == 200 then [] else f.part.value;
    if |had| + |reply.body| <= a.size {
      assert reply.body[..|reply.body|] == reply.body;
    }
  }

  /** The partial file as a request finds it. */
  function PartOf(f: Files): Bytes {
    if f.part.Some? then f.part.value else []
  }

  /**
   An attempt at the server, exactly: a complete partial file is put in place without a request; a file that is too long
   or wrong is emptied first; and then the reply to a request for the rest decides.
   */
  lemma ServerExactly(a: Artifact, maxBytes: int, f: Files, s: Source)
    requires Asks(a, maxBytes, f, s) && (s.relay.NoRelay? || s.relay.RelayDown?)
    ensures var r := Fetched(a, maxBytes, f, s); var p := PartOf(f); var start := if |p| >= a.size then [] else p;
            if !s.removeOk || !s.openOk then
              && r.result == Failure(FileError) && r.files.part == f.part
              && r.files.final == if s.removeOk then None else f.final
            else if Matches(a, Some(p)) then
              && (r.result == if s.finish.Finished? then Done(a.size, true) else Failure(FileError))
              && r.files == if s.finish.NotRenamed? then Files(None, Some(p)) else Files(Some(p), None)
            else if |p| >= a.size && !s.truncateOk then
              r.result == Failure(FileError) && r.files == Files(None, Some(p))
            else if !s.spaceOk || s.server(|start|).None? then
              && r.result == Failure(if s.spaceOk then RequestFailed else FileError)
              && r.files == Files(None, Some(start))
            else r == Received(a, Files(None, Some(start)), s, s.server(|start|).value)
  {
    hide Received;
  }

  // ---------------------------------------------------------------- any number of attempts

  function After(a: Artifact, maxBytes: int, f: Files, ss: seq<Source>): Files
    decreases |ss|
  {
    if ss == [] then f else After(a, maxBytes, Fetched(a, maxBytes, f, ss[0]).files, ss[1..])
  }

  /** Every write of a byte from the server to a position of the partial file, over all attempts. */
  function Writes(a: Artifact, maxBytes: int, f: Files, ss: seq<Source>): multiset<nat>
    decreases |ss|
  {
    if ss == [] then multiset{}
    else
      var r := Fetched(a, maxBytes, f, ss[0]);
      (Positions(r.to) - Positions(r.from)) + Writes(a, maxBytes, r.files, ss[1..])
  }

  lemma {:induction false} PrefixThroughout(a: Artifact, maxBytes: int, f: Files, ss: seq<Source>, content: Bytes)
    requires Matches(a, Some(content)) && HoldsPrefix(content, f)
    requires forall i | 0 <= i < |ss| :: TrueSource(content, ss[i])
    ensures HoldsPrefix(content, After(a, maxBytes, f, ss))
    decreases |ss|
  {
    hide Fetched, TrueSource, HoldsPrefix, Matches;
    if ss != [] {
      FetchedTrue(a, maxBytes, f, ss[0], content);
      PrefixThroughout(a, maxBytes, Fetched(a, maxBytes, f, ss[0]).files, ss[1..], content);
    }
  }

  /** The bytes in place: those of the partial file, or all of the finished one. */
  function InPlace(f: Files): nat {
    if f.part.Some? then |f.part.value| else if f.final.Some? then |f.final.value| else 0
  }

  /** The cache of an artifact that only the server has written to. */
  predicate Sound(a: Artifact, f: Files) {
    f.final.Some? ==> Matches(a, f.final) && f.part.None?
  }

  /** One attempt appends what it writes to what is in place. */
  lemma FetchedAppends(a: Artifact, maxBytes: int, f: Files, s: Source, content: Bytes)
    requires Matches(a, Some(content)) && TrueSource(content, s) && HonoursRanges(s)
    requires HoldsPrefix(content, f) && Sound(a, f)
    ensures var r := Fetched(a, maxBytes, f, s);
            && Sound(a, r.files)
            && r.from <= r.to
            && (if r.from == r.to then InPlace(r.files) == InPlace(f)
                else r.from == InPlace(f) && r.to == InPlace(r.files))
  {
    hide Received, TrueReply, Staged, Matches;
    PrefixesMatch(a, content);
    if s.server(0).Some? && content != [] {
      ReceivedAppends(a, Files(None, Some([])), s, s.server(0).value, content);
    }
    if f.part.Some? && |f.part.value| < a.size && s.server(|f.part.value|).Some? {
      ReceivedAppends(a, Files(None, f.part), s, s.server(|f.part.value|).value, content);
    }
  }

  lemma ReceivedAppends(a: Artifact, f: Files, s: Source, reply: Response, content: Bytes)
    requires Matches(a, Some(content)) && f.part.Some? && |f.part.value| < a.size && f.final.None?
    requires TrueReply(content, reply) && HoldsPrefix(content, f)
    requires reply.status == 200 ==> f.part.value == []
    ensures var r := Received(a, f, s, reply);
            && Sound(a, r.files)
            && r.from <= r.to
            && (if r.from == r.to then InPlace(r.files) == InPlace(f)
                else r.from == InPlace(f) && r.to == InPlace(r.files))
  {
    hide TrueReply;
    ReceivedTrue(a, f, s, reply, content);
  }

  lemma {:induction false} PositionsGrow(m: nat, n: nat)
    requires m <= n
    ensures Positions(m) <= Positions(n)
    decreases n - m
  {
    if m < n {
      PositionsGrow(m, n - 1);
    }
  }

  /** When ranges are honoured no byte is ever written twice: over all attempts, each byte in place was written once. */
  lemma {:induction false} EachByteOnce(a: Artifact, maxBytes: int, f: Files, ss: seq<Source>, content: Bytes)
    requires Matches(a, Some(content)) && HoldsPrefix(content, f) && Sound(a, f)
    requires forall i | 0 <= i < |ss| :: TrueSource(content, ss[i]) && HonoursRanges(ss[i])
    ensures var g := After(a, maxBytes, f, ss);
            && Positions(InPlace(f)) + Writes(a, maxBytes, f, ss) == Positions(InPlace(g))
            && Sound(a, g)
    decreases |ss|
  {
    hide Fetched, TrueSource, HonoursRanges, HoldsPrefix, Matches, Sound;
    if ss != [] {
      var r := Fetched(a, maxBytes, f, ss[0]);
      FetchedTrue(a, maxBytes, f, ss[0], content);
      FetchedAppends(a, maxBytes, f, ss[0], content);
      PositionsGrow(r.from, r.to);
      EachByteOnce(a, maxBytes, r.files, ss[1..], content);
    }
  }

  /** From an empty cache to a finished file: exactly the bytes of the artifact, each transferred exactly once. */
  lemma FinishedWithoutWaste(a: Artifact, maxBytes: int, ss: seq<Source>, content: Bytes, p: nat)
    requires Matches(a, Some(content)) && forall i | 0 <= i < |ss| :: TrueSource(content, ss[i]) && HonoursRanges(ss[i])
    ensures var g := After(a, maxBytes, Files(None, None), ss);
            var count := Writes(a, maxBytes, Files(None, None), ss)[p];
            count <= 1 && (g.final.Some? ==> g.final.value == content && count == if p < a.size then 1 else 0)
  {
    hide Fetched, TrueSource, HonoursRanges;
    var none := Files(None, None);
    EachByteOnce(a, maxBytes, none, ss, content);
    PositionsOnce(InPlace(After(a, maxBytes, none, ss)), p);
  }

  // ---------------------------------------------------------------- the downloader

  /** The cache directory's two files for one artifact, changed in place. */
  class Cache {
    const artifact: Artifact
    const maxBytes: int
    var final: Option<Bytes>
    var part: Option<Bytes>

    constructor (artifact: Artifact, maxBytes: int)
      ensures this.artifact == artifact && this.maxBytes == maxBytes && Contents() == Files(None, None)
    {
      this.artifact, this.maxBytes := artifact, maxBytes;
      final, part := None, None;
    }

    function Contents(): Files
      reads this
    {
      Files(final, part)
    }

    /** Copies at most `limit` bytes of `body` to the end of the partial file, one by one. */
    method Copy(body: Bytes, limit: nat) returns (n: nat)
      requires part.Some?
      modifies this`part
      ensures n == Least(|body|, limit)
      ensures part == Some(old(part.value) + body[..n])
    {
      ghost var before := part.value;
      n := 0;
      assert before + body[..0] == before;
      while n < limit && n < |body|
        invariant n <= limit && n <= |body|
        invariant part == Some(before + body[..n])
      {
        assert before + body[..n + 1] == before + body[..n] + [body[n]];
        part := Some(part.value + [body[n]]);
        n := n + 1;
      }
    }

    method FinishDownload(finish: Finish) returns (ok: bool)
      requires part.Some?
      modifies this`part, this`final
      ensures ok == finish.Finished? && Contents() == Finishing(old(Contents()), finish)
    {
      if !finish.NotRenamed? {
        final, part := part, None;
      }
      ok := finish.Finished?;
    }

    method StageLocal(copied: Bytes, copyOk: bool) returns (r: Result)
      modifies this`final
      ensures var want := Staged(artifact, old(Contents()), copied, copyOk);
              Contents() == want.files && r == want.result
    {
      if Matches(artifact, final) {
        return Done(artifact.size, false);
      }
      final := Some(copied);
      if !copyOk {
        return Failure(FileError);
      }
      r := if Matches(artifact, final) then Done(artifact.size, false) else Failure(Mismatch);
    }

    method FetchFromRelay(relay: Relay) returns (r: Result)
      requires relay.RelaySends?
      modifies this`final, this`part
      ensures var want := FromRelay(artifact, old(Contents()), relay);
              Contents() == want.files && r == want.result
    {
      if !relay.openOk {
        return Failure(FileError);
      }
      part := Some([]);
      var n := Copy(relay.body, artifact.size + 1);
      assert part.value == relay.body[..n];
      var verified := !relay.broken && n == artifact.size && Matches(artifact, part);
      if !verified || !relay.renameOk {
        if relay.cleanOk {
          part := None;
        }
        return Failure(if verified then FileError else Mismatch);
      }
      final, part := part, None;
      r := Done(n, false);
    }

    method Receive(s: Source, reply: Response) returns (r: Result)
      requires part.Some? && |part.value| < artifact.size
      modifies this`part, this`final
      ensures var want := Received(artifact, old(Contents()), s, reply);
              Contents() == want.files && r == want.result
    {
      var offset := |part.value|;
      var resumed := offset > 0;
      if reply.status == 200 {
        if !s.truncateOk {
          return Failure(FileError);
        }
        part, offset, resumed := Some([]), 0, false;
      } else if reply.status == 206 {
        if reply.range != Some(ContentRange(offset, artifact.size - 1, artifact.size)) {
          return Failure(BadRange);
        }
      } else {
        return Failure(BadStatus);
      }
      if !reply.identity {
        return Failure(BadEncoding);
      }
      if reply.length.Some? && reply.length.value >= 0 && reply.length.value != artifact.size - offset {
        return Failure(BadLength);
      }
      var n := Copy(reply.body, artifact.size - offset + 1);
      if n > artifact.size - offset {
        if s.cleanOk {
          part := Some([]);
        }
        return Failure(TooLong);
      }
      if reply.broken {
        return Failure(Interrupted);
      }
      if !s.syncOk {
        return Failure(FileError);
      }
      if n != artifact.size - offset {
        return Failure(Truncated);
      }
      if !Matches(artifact, part) {
        if s.cleanOk {
          part := Some([]);
        }
        return Failure(Mismatch);
      }
      var ok := FinishDownload(s.finish);
      r := if ok then Done(n, resumed) else Failure(FileError);
    }

    /** The part of `fetch` that uses the server. */
    method Resume(s: Source) returns (r: Result)
      requires part.Some? && artifact.size > 0
      modifies this`part, this`final
      ensures var want := Resumed(artifact, old(Contents()), s);
              Contents() == want.files && r == want.result
    {
      var offset := |part.value|;
      if offset > artifact.size {
        if !s.truncateOk {
          return Failure(FileError);
        }
        part, offset := Some([]), 0;
      }
      if offset == artifact.size {
        if Matches(artifact, part) {
          var ok := FinishDownload(s.finish);
          return if ok then Done(artifact.size, true) else Failure(FileError);
        }
        if !s.truncateOk {
          return Failure(FileError);
        }
        part, offset := Some([]), 0;
      }
      if !s.spaceOk {
        return Failure(FileError);
      }
      var response := s.server(offset);
      if response.None? {
        return Failure(RequestFailed);
      }
      r := Receive(s, response.value);
    }

    method Fetch(s: Source) returns (r: Result)
      modifies this
      ensures var want := Fetched(artifact, maxBytes, old(Contents()), s);
              Contents() == want.files && r == want.result
      ensures r.Done? ==> Matches(artifact, final)
    {
      if s.media.MediaError? {
        return Failure(FileError);
      }
      if s.media.MediaFile? {
        if !Matches(artifact, Some(s.media.found)) {
          return Failure(Mismatch);
        }
        r := StageLocal(s.media.copied, s.media.copyOk);
        return;
      }
      if s.url.LocalFile? {
        if !s.url.inside {
          return Failure(Invalid);
        }
        if !Matches(artifact, s.url.found) {
          return Failure(Mismatch);
        }
        r := StageLocal(s.url.copied, s.url.copyOk);
        return;
      }
      if !s.url.allowed || artifact.size == 0 || artifact.size > maxBytes {
        return Failure(Invalid);
      }
      if Matches(artifact, final) {
        return Done(artifact.size, false);
      }
      if s.relay.RelayError? {
        return Failure(Unauthorized);
      }
      if s.relay.RelaySends? {
        r := FetchFromRelay(s.relay);
        return;
      }
      if !s.removeOk {
        return Failure(FileError);
      }
      final := None;
      if !s.openOk {
        return Failure(FileError);
      }
      if part.None? {
        part := Some([]);
      }
      r := Resume(s);
    }
  }
}
