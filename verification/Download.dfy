/**
 The resumable download of a signed artefact, and the same contract for an offline bundle
 (installer/updater.py: `_download_verified`, `_bundle_fetcher`). What the server answers is arbitrary.
 */
module Download {
  import opened Prelude
  import opened Decimal

  type Byte = x: int | 0 <= x < 256
  type Bytes = seq<Byte>

  /** The hexadecimal SHA-256 of some bytes, as a function. */
  type Sha = Bytes -> string

  const MAX_ARTIFACT_BYTES: nat := 400 * 1024 * 1024
  const HTTP_MAX_ATTEMPTS: nat := 3

  datatype Artifact = Artifact(source: string, sha256: string, size: nat)

  /** How the stream of a response ends: closed, or an exception that is transient or not. */
  datatype Ending = Eof | Failure(transient: bool)

  datatype Response =
    | HttpError(code: nat)
    | NoResponse(transient: bool)
    | Body(status: nat, contentRange: string, chunks: seq<Bytes>, end: Ending)

  /** What attempt n gets when it asks from an offset; 0 asks for everything. */
  type Server = (nat, nat) -> Response

  // ---------------------------------------------------------------- one attempt

  function Resumable(part: Option<Bytes>, size: nat): (offset: nat)
    ensures offset > 0 ==> part.Some? && offset == |part.value| <= MAX_ARTIFACT_BYTES
  {
    if part.Some? && 0 < |part.value| <= MAX_ARTIFACT_BYTES && !(size > 0 && |part.value| >= size) then |part.value| else 0
  }

  /** How far a stream got, written after `start`. */
  datatype Received = Whole(bytes: Bytes) | Broken(bytes: Bytes, transient: bool)

  function Receive(start: Bytes, chunks: seq<Bytes>, end: Ending): (r: Received)
    ensures start <= r.bytes
    ensures |start| <= MAX_ARTIFACT_BYTES ==> |r.bytes| <= MAX_ARTIFACT_BYTES
    decreases |chunks|
  {
    if |chunks| == 0 then (if end.Eof? then Whole(start) else Broken(start, end.transient))
    else if |start| + |chunks[0]| > MAX_ARTIFACT_BYTES then Broken(start, false)
    else Receive(start + chunks[0], chunks[1..], end)
  }

  datatype Outcome = Done(bytes: Bytes) | Retry(part: Option<Bytes>) | Failed(part: Option<Bytes>)

  /** After an exception: what was received is kept for a later attempt only if it was transient. */
  function Interrupted(part: Option<Bytes>, transient: bool, last: bool): Outcome {
    var kept := if transient && part.Some? && |part.value| > 0 then part else None;
    if transient && !last then Retry(kept) else Failed(kept)
  }

  function Finished(sha: Sha, a: Artifact, r: Received, resumed: bool, last: bool): Outcome {
    match r
    case Broken(bytes, transient) => Interrupted(Some(bytes), transient, last)
    case Whole(bytes) =>
      if sha(bytes) == a.sha256 then Done(bytes) else if resumed && !last then Retry(None) else Failed(None)
  }

  predicate RangeMatches(contentRange: string, offset: nat) {
    contentRange == "" || "bytes " + Numeral(offset) + "-" <= contentRange
  }

  function Attempt(sha: Sha, a: Artifact, part: Option<Bytes>, server: Server, n: nat): (o: Outcome)
    ensures o.Done? ==> sha(o.bytes) == a.sha256 && |o.bytes| <= MAX_ARTIFACT_BYTES
  {
    var last := n >= HTTP_MAX_ATTEMPTS;
    var offset := Resumable(part, a.size);
    var kept := if offset > 0 then part else None;
    match server(n, offset)
    case HttpError(code) => if code == 416 && !last then Retry(None) else Failed(None)
    case NoResponse(transient) => Interrupted(kept, transient, last)
    case Body(status, contentRange, chunks, end) =>
      if offset > 0 && status == 206 then
        if !RangeMatches(contentRange, offset) then Interrupted(kept, false, last)
        else Finished(sha, a, Receive(kept.value, chunks, end), true, last)
      else Finished(sha, a, Receive([], chunks, end), false, last)
  }

  function Attempts(sha: Sha, a: Artifact, part: Option<Bytes>, server: Server, n: nat): (o: Outcome)
    requires 1 <= n <= HTTP_MAX_ATTEMPTS
    ensures o.Done? ==> sha(o.bytes) == a.sha256 && |o.bytes| <= MAX_ARTIFACT_BYTES
    decreases HTTP_MAX_ATTEMPTS - n
  {
    match Attempt(sha, a, part, server, n)
    case Retry(next) => if n < HTTP_MAX_ATTEMPTS then Attempts(sha, a, next, server, n + 1) else Failed(next)
    case o => o
  }

  // ---------------------------------------------------------------- the updater's files

  /** hashlib's running digest: what it was fed, hashed when asked. */
  datatype Hasher = Hasher(fed: Bytes)

  class Files {
    var part: Option<Bytes>
    var dest: Option<Bytes>

    constructor (part: Option<Bytes>, dest: Option<Bytes>)
      ensures this.part == part && this.dest == dest
    {
      this.part, this.dest := part, dest;
    }

    /** Writes a stream chunk by chunk; the digest follows the bytes of the .part file. */
    method Stream(start: Bytes, chunks: seq<Bytes>, end: Ending) returns (r: Received, digest: Hasher)
      requires |start| <= MAX_ARTIFACT_BYTES
      modifies this`part
      ensures r == Receive(start, chunks, end)
      ensures part == Some(r.bytes) && digest.fed == r.bytes
    {
      part, digest := Some(start), Hasher(start);
      var received := |start|;
      var i := 0;
      while i < |chunks|
        invariant i <= |chunks| && part == Some(digest.fed) && received == |digest.fed| <= MAX_ARTIFACT_BYTES
        invariant Receive(digest.fed, chunks[i..], end) == Receive(start, chunks, end)
      {
        received := received + |chunks[i]|;
        if received > MAX_ARTIFACT_BYTES {
          return Broken(digest.fed, false), digest;
        }
        part, digest := Some(part.value + chunks[i]), Hasher(digest.fed + chunks[i]);
        i := i + 1;
      }
      r := if end.Eof? then Whole(digest.fed) else Broken(digest.fed, end.transient);
    }

    /** The exception handler: removes the .part file unless it can serve a later attempt. */
    method Interrupt(transient: bool, last: bool) returns (o: Outcome)
      modifies this`part
      ensures o == Interrupted(old(part), transient, last)
      ensures part == (if o.Retry? || o.Failed? then o.part else old(part))
    {
      if !(transient && part.Some? && |part.value| > 0) {
        part := None;
      }
      o := if transient && !last then Retry(part) else Failed(part);
    }

    /** One attempt; whatever it answers, the .part file is what it says. */
    method TryOnce(sha: Sha, a: Artifact, server: Server, n: nat) returns (o: Outcome)
      modifies this`part
      ensures o == Attempt(sha, a, old(part), server, n)
      ensures part == if o.Done? then Some(o.bytes) else o.part
    {
      var last := n >= HTTP_MAX_ATTEMPTS;
      var offset := 0;
      if part.Some? {
        offset := |part.value|;
        if offset == 0 || offset > MAX_ARTIFACT_BYTES || (a.size > 0 && offset >= a.size) {
          part, offset := None, 0;
        }
      }
      match server(n, offset)
      case HttpError(code) =>
        part := None;
        return if code == 416 && !last then Retry(None) else Failed(None);
      case NoResponse(transient) =>
        o := Interrupt(transient, last);
      case Body(status, contentRange, chunks, end) =>
        var resumed := false;
        var start: Bytes := [];
        if offset > 0 && status == 206 {
          if contentRange != "" && !("bytes " + Numeral(offset) + "-" <= contentRange) {
            o := Interrupt(false, last);
            return;
          }
          resumed, start := true, part.value;
        }
        var r, digest := Stream(start, chunks, end);
        if r.Broken? {
          o := Interrupt(r.transient, last);
        } else if sha(digest.fed) != a.sha256 {
          part := None;
          o := if resumed && !last then Retry(None) else Failed(None);
        } else {
          o := Done(part.value);
        }
    }

    /** True exactly when an attempt succeeded; the destination then holds the signed content within
        the size cap, and otherwise it is untouched. */
    method DownloadVerified(sha: Sha, a: Artifact, server: Server) returns (ok: bool)
      modifies this
      ensures ok <==> a.source != "" && a.sha256 != "" && Attempts(sha, a, old(part), server, 1).Done?
      ensures ok ==> part == None && dest == Some(Attempts(sha, a, old(part), server, 1).bytes)
                     && sha(dest.value) == a.sha256 && |dest.value| <= MAX_ARTIFACT_BYTES
      ensures !ok ==> dest == old(dest)
    {
      if a.source == "" || a.sha256 == "" {
        return false;
      }
      var n := 1;
      var done := false;
      while n <= HTTP_MAX_ATTEMPTS && !done
        invariant 1 <= n <= HTTP_MAX_ATTEMPTS + 1 && dest == old(dest)
        invariant !done && n <= HTTP_MAX_ATTEMPTS ==>
                    Attempts(sha, a, part, server, n) == Attempts(sha, a, old(part), server, 1)
        invariant !done && n > HTTP_MAX_ATTEMPTS ==> !Attempts(sha, a, old(part), server, 1).Done?
        invariant done ==> Attempts(sha, a, old(part), server, 1) == Done(if part.Some? then part.value else []) && part.Some?
        decreases HTTP_MAX_ATTEMPTS - n + 1, !done
      {
        var o := TryOnce(sha, a, server, n);
        match o
        case Done(_) => done := true;
        case Failed(_) => return false;
        case Retry(_) => n := n + 1;
      }
      if !done {
        return false;
      }
      dest, part := part, None;
      ok := true;
    }

    /** An artefact read from an offline bundle: the same contract, without attempts. */
    method FetchFromBundle(sha: Sha, a: Artifact, bundle: map<string, Entry>) returns (ok: bool)
      requires forall name :: name in bundle ==> |Concat(bundle[name].blocks)| <= bundle[name].fileSize
      modifies this
      ensures ok <==> BundleHolds(sha, a, bundle)
      ensures ok ==> part == None && dest == Some(Concat(bundle[a.source].blocks))
                     && sha(dest.value) == a.sha256 && |dest.value| <= MAX_ARTIFACT_BYTES
      ensures !ok ==> dest == old(dest)
    {
      if a.source == "" || a.sha256 == "" || a.source !in bundle {
        return false;
      }
      var entry := bundle[a.source];
      if entry.fileSize > MAX_ARTIFACT_BYTES || (a.size > 0 && entry.fileSize != a.size) {
        return false;
      }
      var digest := CopyBlocks(entry.blocks);
      if entry.corrupt || sha(digest.fed) != a.sha256 {
        part := None;
        return false;
      }
      dest, part := part, None;
      ok := true;
    }

    method CopyBlocks(blocks: seq<Bytes>) returns (digest: Hasher)
      modifies this`part
      ensures part == Some(Concat(blocks)) && digest.fed == Concat(blocks)
    {
      part, digest := Some([]), Hasher([]);
      var i := 0;
      while i < |blocks|
        invariant i <= |blocks| && part == Some(digest.fed) && digest.fed + Concat(blocks[i..]) == Concat(blocks)
      {
        part, digest := Some(part.value + blocks[i]), Hasher(digest.fed + blocks[i]);
        i := i + 1;
      }
      assert blocks[i..] == [] && digest.fed == Concat(blocks);
    }
  }

  /** A zip member: the size its directory states, and what reading it gives before an error, if any. */
  datatype Entry = Entry(fileSize: nat, blocks: seq<Bytes>, corrupt: bool)

  function Concat(blocks: seq<Bytes>): (b: Bytes) {
    if |blocks| == 0 then [] else blocks[0] + Concat(blocks[1..])
  }

  predicate BundleHolds(sha: Sha, a: Artifact, bundle: map<string, Entry>) {
    && a.source != "" && a.sha256 != "" && a.source in bundle && !bundle[a.source].corrupt
    && bundle[a.source].fileSize <= MAX_ARTIFACT_BYTES && (a.size == 0 || bundle[a.source].fileSize == a.size)
    && sha(Concat(bundle[a.source].blocks)) == a.sha256
  }

  // ---------------------------------------------------------------- honest servers

  /** What a stream writes when it fits: everything, after what was there. */
  lemma {:induction false} ReceiveAll(start: Bytes, chunks: seq<Bytes>, end: Ending)
    requires |start| + |Concat(chunks)| <= MAX_ARTIFACT_BYTES
    ensures Receive(start, chunks, end)
            == if end.Eof? then Whole(start + Concat(chunks)) else Broken(start + Concat(chunks), end.transient)
    decreases |chunks|
  {
    if |chunks| == 0 {
      assert start + Concat(chunks) == start;
    } else {
      assert start + Concat(chunks) == (start + chunks[0]) + Concat(chunks[1..]);
      ReceiveAll(start + chunks[0], chunks[1..], end);
    }
  }

  /** A server that has `content`: the rest with 206, everything with 200, or 416 past the end; a cut
      answer stops transiently before the end. */
  predicate Serves(r: Response, content: Bytes, offset: nat, cut: bool) {
    match r
    case HttpError(code) => !cut && code == 416 && offset > 0 && offset >= |content|
    case NoResponse(transient) => cut && transient
    case Body(status, contentRange, chunks, end) =>
      && end == (if cut then Failure(true) else Eof)
      && (status == 206 ==> offset < |content| && RangeMatches(contentRange, offset))
      && var rest := if offset > 0 && status == 206 then content[offset..] else content;
         if cut then Concat(chunks) <= rest && |Concat(chunks)| < |rest| else Concat(chunks) == rest
  }

  predicate ProperPrefix(p: Bytes, content: Bytes) {
    |p| < |content| && p == content[..|p|]
  }

  /** A .part file from which an honest server leads to the content. */
  predicate GoodPart(part: Option<Bytes>, size: nat, content: Bytes) {
    Resumable(part, size) == 0 || ProperPrefix(part.value, content)
  }

  lemma HonestAttempt(sha: Sha, a: Artifact, part: Option<Bytes>, server: Server, n: nat, content: Bytes)
    requires sha(content) == a.sha256 && |content| <= MAX_ARTIFACT_BYTES
    requires Serves(server(n, Resumable(part, a.size)), content, Resumable(part, a.size), false)
    ensures GoodPart(part, a.size, content) ==> Attempt(sha, a, part, server, n) == Done(content)
    ensures n < HTTP_MAX_ATTEMPTS ==>
              Attempt(sha, a, part, server, n).Done? || Attempt(sha, a, part, server, n) == Retry(None)
  {
    var offset, r := Resumable(part, a.size), server(n, Resumable(part, a.size));
    if r.Body? {
      var start := StartOf(part, a.size, r);
      ReceiveAll(start, r.chunks, r.end);
      WholeAttempt(sha, a, part, server, n, start + Concat(r.chunks));
      if start == [] {
        assert [] + content == content;
      } else if GoodPart(part, a.size, content) {
        assert part.value + content[offset..] == content;
      }
    }
  }

  lemma WholeAttempt(sha: Sha, a: Artifact, part: Option<Bytes>, server: Server, n: nat, bytes: Bytes)
    requires var r := server(n, Resumable(part, a.size));
             r.Body? && (r.status == 206 ==> RangeMatches(r.contentRange, Resumable(part, a.size)))
             && Receive(StartOf(part, a.size, r), r.chunks, r.end) == Whole(bytes)
    ensures var r, o := server(n, Resumable(part, a.size)), Attempt(sha, a, part, server, n);
            if sha(bytes) == a.sha256 then o == Done(bytes)
            else o == if r.status == 206 && Resumable(part, a.size) > 0 && n < HTTP_MAX_ATTEMPTS then Retry(None) else Failed(None)
  {
  }

  lemma CutAttempt(sha: Sha, a: Artifact, part: Option<Bytes>, server: Server, n: nat, content: Bytes)
    requires |content| <= MAX_ARTIFACT_BYTES && n < HTTP_MAX_ATTEMPTS
    requires Serves(server(n, Resumable(part, a.size)), content, Resumable(part, a.size), true)
    ensures Attempt(sha, a, part, server, n).Retry?
    ensures GoodPart(part, a.size, content) ==> GoodPart(Attempt(sha, a, part, server, n).part, a.size, content)
  {
    var offset, r := Resumable(part, a.size), server(n, Resumable(part, a.size));
    CutKeepsBytes(sha, a, part, server, n);
    if r.Body? && GoodPart(part, a.size, content) {
      GotPrefix(StartOf(part, a.size, r), Concat(r.chunks), content);
    }
  }

  lemma GotPrefix(start: Bytes, more: Bytes, content: Bytes)
    requires |start| <= |content| && start == content[..|start|] && more <= content[|start|..] && |start| + |more| < |content|
    ensures PartOf(start + more).Some? ==> ProperPrefix(PartOf(start + more).value, content)
  {
    var got := start + more;
    assert content[|start|..][..|more|] == content[|start|..|got|];
    assert got == content[..|got|];
  }

  /** With a server that has the content and is cut off at most once, the download succeeds, whatever
      an earlier download left in the .part file. */
  lemma HonestServerSucceeds(sha: Sha, a: Artifact, part: Option<Bytes>, server: Server, content: Bytes, cutAt: nat)
    requires sha(content) == a.sha256 && |content| <= MAX_ARTIFACT_BYTES
    requires forall n, offset :: 1 <= n <= HTTP_MAX_ATTEMPTS ==> Serves(server(n, offset), content, offset, n == cutAt)
    ensures Attempts(sha, a, part, server, 1).Done?
    ensures (forall b :: sha(b) == a.sha256 ==> b == content) ==> Attempts(sha, a, part, server, 1) == Done(content)
  {
    var first := Attempt(sha, a, part, server, 1);
    if cutAt == 1 {
      CutAttempt(sha, a, part, server, 1, content);
      HonestAttempt(sha, a, first.part, server, 2, content);
      HonestAttempt(sha, a, None, server, 3, content);
    } else {
      HonestAttempt(sha, a, part, server, 1, content);
      if cutAt == 2 {
        CutAttempt(sha, a, None, server, 2, content);
        HonestAttempt(sha, a, Attempt(sha, a, None, server, 2).part, server, 3, content);
      } else {
        HonestAttempt(sha, a, None, server, 2, content);
      }
    }
  }


  // ---------------------------------------------------------------- nothing received is lost

  function PartOf(bytes: Bytes): Option<Bytes> {
    if bytes == [] then None else Some(bytes)
  }

  /** The bytes an attempt starts from, given what the server answers it. */
  function StartOf(part: Option<Bytes>, size: nat, r: Response): Bytes {
    if r.Body? && r.status == 206 && Resumable(part, size) > 0 then part.value else []
  }

  /** An attempt cut off transiently keeps every byte it had and got, on the last attempt as well; one that
      got no answer keeps the part it would have resumed. */
  lemma CutKeepsBytes(sha: Sha, a: Artifact, part: Option<Bytes>, server: Server, n: nat)
    requires var r := server(n, Resumable(part, a.size));
             || r == NoResponse(true)
             || (r.Body? && r.end == Failure(true) && (r.status == 206 ==> RangeMatches(r.contentRange, Resumable(part, a.size)))
                 && |StartOf(part, a.size, r)| + |Concat(r.chunks)| <= MAX_ARTIFACT_BYTES)
    ensures var r, o := server(n, Resumable(part, a.size)), Attempt(sha, a, part, server, n);
            && (if n < HTTP_MAX_ATTEMPTS then o.Retry? else o.Failed?)
            && o.part == if r.Body? then PartOf(StartOf(part, a.size, r) + Concat(r.chunks))
                         else if Resumable(part, a.size) > 0 then part else None
  {
    var r := server(n, Resumable(part, a.size));
    if r.Body? {
      ReceiveAll(StartOf(part, a.size, r), r.chunks, r.end);
    }
  }

  /** The answer from `from` on, cut at `to`. */
  predicate CutAnswer(r: Response, content: Bytes, from: nat, to: nat) {
    && r.Body? && r.end == Failure(true) && from <= to <= |content| && Concat(r.chunks) == content[from..to]
    && (if from > 0 then r.status == 206 && RangeMatches(r.contentRange, from) else r.status == 200)
  }

  predicate RestAnswer(r: Response, content: Bytes, from: nat) {
    && r.Body? && r.end == Eof && from <= |content| && Concat(r.chunks) == content[from..]
    && (if from > 0 then r.status == 206 && RangeMatches(r.contentRange, from) else r.status == 200)
  }

  predicate Fitting(a: Artifact, content: Bytes) {
    |content| <= MAX_ARTIFACT_BYTES && (a.size == 0 || a.size == |content|)
  }

  lemma CutMakesProgress(sha: Sha, a: Artifact, server: Server, n: nat, content: Bytes, from: nat, to: nat)
    requires Fitting(a, content) && from < |content| && to < |content| && CutAnswer(server(n, from), content, from, to)
    ensures var o := Attempt(sha, a, PartOf(content[..from]), server, n);
            o == if n < HTTP_MAX_ATTEMPTS then Retry(PartOf(content[..to])) else Failed(PartOf(content[..to]))
  {
    assert content[..from] + content[from..to] == content[..to];
    assert Resumable(PartOf(content[..from]), a.size) == from;
    CutKeepsBytes(sha, a, PartOf(content[..from]), server, n);
  }

  lemma RestFinishes(sha: Sha, a: Artifact, server: Server, n: nat, content: Bytes, from: nat)
    requires Fitting(a, content) && from < |content| && RestAnswer(server(n, from), content, from) && sha(content) == a.sha256
    ensures Attempt(sha, a, PartOf(content[..from]), server, n) == Done(content)
  {
    assert content[..from] + content[from..] == content;
    assert Resumable(PartOf(content[..from]), a.size) == from;
    var r := server(n, from);
    ReceiveAll(content[..from], r.chunks, r.end);
  }

  /** Each attempt asks from exactly where the one before was cut: nothing is asked of the server at any
      other offset. Two cuts are made up for, and the third attempt brings the rest. */
  lemma TwoCutsResumed(sha: Sha, a: Artifact, server: Server, content: Bytes, from: nat, first: nat, second: nat)
    requires Fitting(a, content) && sha(content) == a.sha256 && from <= first <= second < |content|
    requires CutAnswer(server(1, from), content, from, first) && CutAnswer(server(2, first), content, first, second)
    requires RestAnswer(server(3, second), content, second)
    ensures Attempts(sha, a, PartOf(content[..from]), server, 1) == Done(content)
  {
    CutMakesProgress(sha, a, server, 1, content, from, first);
    CutMakesProgress(sha, a, server, 2, content, first, second);
    RestFinishes(sha, a, server, 3, content, second);
  }

  /** A third cut makes the download fail, with everything received kept; the next download goes on from there. */
  lemma ThirdCutKept(sha: Sha, a: Artifact, server: Server, later: Server, content: Bytes, first: nat, second: nat, third: nat)
    requires Fitting(a, content) && sha(content) == a.sha256 && first <= second <= third < |content|
    requires CutAnswer(server(1, 0), content, 0, first) && CutAnswer(server(2, first), content, first, second)
    requires CutAnswer(server(3, second), content, second, third) && RestAnswer(later(1, third), content, third)
    ensures Attempts(sha, a, None, server, 1) == Failed(PartOf(content[..third]))
    ensures Attempts(sha, a, Attempts(sha, a, None, server, 1).part, later, 1) == Done(content)
  {
    assert PartOf(content[..0]) == None;
    CutMakesProgress(sha, a, server, 1, content, 0, first);
    CutMakesProgress(sha, a, server, 2, content, first, second);
    CutMakesProgress(sha, a, server, 3, content, second, third);
    RestFinishes(sha, a, later, 1, content, third);
  }
}
