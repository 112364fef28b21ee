/**
 * The two ways a large document goes up from a DocumentReader: one streamed multipart
 * request (uploadFileStreamed, desktop/src/openwith-io.ts) and the staged upload in parts
 * (uploadStaged, desktop/src/transfer.ts). What the network and the file system answer at
 * every step is a parameter.
 */
module DocumentUpload {
  import opened Content
  import opened DocumentReading

  const STREAM_WRITE_BYTES: nat := 1024 * 1024

  const CR: Byte := 13
  const LF: Byte := 10
  const DASH: Byte := 45

  /** What stands between the document and whatever follows it in the form. */
  function Delimiter(boundary: Bytes): Bytes {
    [CR, LF, DASH, DASH] + boundary
  }

  /** The closing boundary (section 5.1.1 of RFC 2046). */
  function Closing(boundary: Bytes): Bytes {
    Delimiter(boundary) + [DASH, DASH, CR, LF]
  }

  function Joined(pieces: seq<Piece>): Bytes {
    if pieces == [] then [] else Joined(pieces[..|pieces| - 1]) + pieces[|pieces| - 1].bytes
  }

  // ── the server's reading of the form ─────────────────────────────────

  predicate OccursAt(d: Bytes, s: Bytes, i: nat) {
    i + |d| <= |s| && s[i..i + |d|] == d
  }

  ghost predicate Occurs(d: Bytes, s: Bytes) {
    exists i: nat :: OccursAt(d, s, i)
  }

  /** The file part of a form, from where its bytes begin: all before the first delimiter,
      and nothing at all when none comes. */
  function FilePart(body: Bytes, d: Bytes, from: nat := 0): Option<Bytes>
    decreases |body| - from
  {
    if from + |d| > |body| then None
    else if OccursAt(d, body, from) then Some(body[..from])
    else FilePart(body, d, from + 1)
  }

  lemma {:induction false} FilePartFindsFirst(body: Bytes, d: Bytes, from: nat, at: nat)
    requires from <= at && OccursAt(d, body, at)
    requires forall i: nat :: from <= i < at ==> !OccursAt(d, body, i)
    ensures FilePart(body, d, from) == Some(body[..at])
    decreases at - from
  {
    if from < at {
      assert !OccursAt(d, body, from);
      FilePartFindsFirst(body, d, from + 1, at);
    }
  }

  lemma {:induction false} FilePartFindsNone(body: Bytes, d: Bytes, from: nat)
    requires !Occurs(d, body)
    ensures FilePart(body, d, from) == None
    decreases |body| - from
  {
    if from + |d| <= |body| {
      assert !OccursAt(d, body, from);
      FilePartFindsNone(body, d, from + 1);
    }
  }

  /** A boundary is letters and digits, so the delimiter's CR stands only at its head: an
      occurrence cannot straddle the end of bytes that hold none. */
  lemma FilePartOfClosed(document: Bytes, boundary: Bytes, rest: Bytes)
    requires CR !in boundary && !Occurs(Delimiter(boundary), document)
    ensures FilePart(document + Delimiter(boundary) + rest, Delimiter(boundary)) == Some(document)
  {
    var d := Delimiter(boundary);
    var body := document + d + rest;
    assert body[|document|..|document| + |d|] == d;
    forall i: nat | i < |document| ensures !OccursAt(d, body, i) {
      if i + |d| <= |document| {
        assert document[i..i + |d|] == body[i..i + |d|];
        assert !OccursAt(d, document, i);
      } else if i + |d| <= |body| {
        var k := |document| - i;
        assert body[i..i + |d|][k] == CR && d[k] != CR;
      }
    }
    FilePartFindsFirst(body, d, 0, |document|);
    assert body[..|document|] == document;
  }

  // ── the streamed upload ──────────────────────────────────────────────

  /** What comes back while one part is read and written: `early` is an answer before the
      body is done, which stops the writing after the bytes were handed over. */
  datatype PartIo = PartIo(stat: Answer<Stat>, got: Answer<Bytes>, fed: Fed, early: bool)

  datatype StreamIo = StreamIo(
    headEarly: bool,
    part: nat -> PartIo,
    verifyStat: Answer<Stat>,
    verifyFed: Fed,
    tailEarly: bool,
    status: Answer<nat>)

  datatype Ending = Accepted | SourceRefused(problem: Problem) | ServerRefused

  method UploadFileStreamed(src: DocumentReader, head: Bytes, boundary: Bytes, io: StreamIo)
    returns (wire: Bytes, closed: bool, ending: Ending)
    requires src.State() == Fresh(src.expected) && src.sent == [] && src.expected.Whole()
    modifies src
    // Closed: the head, the whole expected version in order, the closing boundary.
    ensures closed ==> wire == head + src.expected.sha256.of + Closing(boundary)
    // Not closed: the head and the parts read so far, and no boundary after them.
    ensures !closed ==> wire == head + Joined(src.sent)
    ensures ending.Accepted? ==> closed
    ensures ending.SourceRefused? ==> !closed
    // What the server makes of it: the expected version, or nothing.
    ensures CR !in boundary && !Occurs(Delimiter(boundary), Joined(src.sent)) ==>
              FilePart(wire[|head|..], Delimiter(boundary))
              == if closed then Some(src.expected.sha256.of) else None
  {
    closed := false;
    var stopped;
    wire, stopped := SendParts(src, head, io);
    FilePartOfSent(wire, head, src.sent, boundary);
    if stopped.Some? { return wire, false, stopped.value; }
    var whole := src.Verify(io.verifyStat, io.verifyFed);
    if whole.Refused? { return wire, false, SourceRefused(whole.problem); }
    assert Joined(src.sent) == src.expected.sha256.of;
    wire := wire + Closing(boundary);
    closed := true;
    FilePartOfWhole(wire, head, src.expected.sha256.of, boundary);
    if io.tailEarly || io.status.Threw? { return wire, true, ServerRefused; }
    return wire, true, if 200 <= io.status.value < 300 then Accepted else ServerRefused;
  }

  /** The head and the parts, one after another, until all are written or something stops them. */
  method SendParts(src: DocumentReader, head: Bytes, io: StreamIo) returns (wire: Bytes, stopped: Option<Ending>)
    requires src.State() == Fresh(src.expected) && src.sent == []
    modifies src
    ensures wire == head + Joined(src.sent)
    ensures stopped.None? ==> src.digest.None? && src.running == Joined(src.sent) && src.hashedTo == |src.running| == src.expected.size
    ensures stopped.Some? ==> !stopped.value.Accepted?
  {
    wire := head;
    if io.headEarly {
      assert head + Joined([]) == head;
      return wire, Some(ServerRefused);
    }
    var at, n: nat := 0, 0;
    while at < src.expected.size
      invariant src.digest.None? && at <= src.expected.size
      invariant src.hashedTo == at == |src.running|
      invariant src.running == Joined(src.sent)
      invariant wire == head + Joined(src.sent)
      decreases src.expected.size - at
    {
      var end := if at + STREAM_WRITE_BYTES < src.expected.size then at + STREAM_WRITE_BYTES else src.expected.size;
      var p := io.part(n);
      ghost var s, sent := src.State(), src.sent;
      NextPart(s, at, end, p.stat, p.got, p.fed);
      var part := src.Read(at, end, p.stat, p.got, p.fed);
      if part.Refused? {
        assert src.sent == sent;
        return wire, Some(SourceRefused(part.problem));
      }
      OnePartMore(head, sent, Piece(at, part.value));
      wire := wire + part.value;
      if p.early { return wire, Some(ServerRefused); }
      at, n := end, n + 1;
    }
    stopped := None;
  }

  /** Reading the next part, from where the running hash stands. */
  lemma NextPart(s: Reader, at: nat, end: nat, stat: Answer<Stat>, got: Answer<Bytes>, fed: Fed)
    requires s.digest.None? && s.hashedTo == at == |s.running| && at <= end <= s.expected.size
    ensures var (t, r) := ReadStep(s, at, end, stat, got, fed);
            && t.expected == s.expected && t.digest.None?
            && HandedOut(s, Call.Read(at, end, stat, got, fed)) == (if r.Done? then [Piece(at, r.value)] else [])
            && (r.Done? ==> t.running == s.running + r.value && t.hashedTo == end == |t.running|)
  {
  }

  lemma OnePartMore(head: Bytes, sent: seq<Piece>, piece: Piece)
    ensures Joined(sent + [piece]) == Joined(sent) + piece.bytes
    ensures head + Joined(sent + [piece]) == (head + Joined(sent)) + piece.bytes
  {
    assert (sent + [piece])[..|sent|] == sent;
  }

  lemma FilePartOfWhole(wire: Bytes, head: Bytes, document: Bytes, boundary: Bytes)
    requires wire == head + document + Closing(boundary)
    ensures wire == head + (document + Closing(boundary))
    ensures CR !in boundary && !Occurs(Delimiter(boundary), document) ==> FilePart(wire[|head|..], Delimiter(boundary)) == Some(document)
  {
    if CR !in boundary && !Occurs(Delimiter(boundary), document) {
      FilePartOfClosed(document, boundary, [DASH, DASH, CR, LF]);
      assert wire[|head|..] == document + Delimiter(boundary) + [DASH, DASH, CR, LF];
    }
  }

  lemma FilePartOfSent(wire: Bytes, head: Bytes, sent: seq<Piece>, boundary: Bytes)
    requires wire == head + Joined(sent)
    ensures !Occurs(Delimiter(boundary), Joined(sent)) ==>
              FilePart(wire[|head|..], Delimiter(boundary)) == None
  {
    assert wire[|head|..] == Joined(sent);
    if !Occurs(Delimiter(boundary), Joined(sent)) {
      FilePartFindsNone(Joined(sent), Delimiter(boundary), 0);
    }
  }

  // ── the staged upload ────────────────────────────────────────────────

  /** The answer to one PUT: stored, with where the server says to go on; a refusal no
      retry changes; or nothing that moved. */
  datatype PutAnswer = Stored(next: int) | NoRetry | Nothing

  /** Where the server says it got to, when it was asked after a failure. */
  datatype StatusAnswer = At(offset: int) | Gone | NotAsked

  datatype Round = Round(stat: Answer<Stat>, got: Answer<Bytes>, fed: Fed, put: PutAnswer, status: StatusAnswer)

  datatype StagedEnding = Commit | GaveUp | Cut

  /**
   * The loop of parts and the verify before the commit. `rounds` is what comes back, one
   * entry per turn of the loop; when it runs out the process ended there (Cut). The offset
   * is the server's after every answer, so parts may be skipped and sent again.
   */
  method UploadStaged(src: DocumentReader, chunk: nat, begin: int, maxFailures: nat, rounds: seq<Round>,
                      verifyStat: Answer<Stat>, verifyFed: Fed)
    returns (puts: seq<Piece>, ending: StagedEnding)
    requires src.State() == Fresh(src.expected) && src.sent == [] && src.expected.Whole()
    requires 0 < chunk
    modifies src
    // Whatever the server holds of this upload by the commit came from these parts.
    ensures ending.Commit? ==> forall piece :: piece in puts ==> SliceOf(piece, src.expected.sha256.of)
    ensures puts == src.sent
  {
    puts := [];
    var offset, failures, n := begin, 0, 0;
    var total := src.expected.size;
    while offset < total
      invariant Inv(src.State(), src.sent) && puts == src.sent && 0 <= n <= |rounds|
      decreases |rounds| - n
    {
      if n == |rounds| { return puts, Cut; }
      var round := rounds[n];
      n := n + 1;
      var end := if offset + chunk < total then offset + chunk else total;
      ghost var s, sent := src.State(), src.sent;
      var body := src.Read(offset, end, round.stat, round.got, round.fed);
      ReadKeepsInv(s, sent, Call.Read(offset, end, round.stat, round.got, round.fed));
      if body.Refused? { return puts, GaveUp; }
      puts := puts + [Piece(offset, body.value)];
      match round.put {
        case Stored(next) =>
          if next > offset {
            offset, failures := next, 0;
            continue;
          }
        case NoRetry => return puts, GaveUp;
        case Nothing =>
      }
      failures := failures + 1;
      if failures >= maxFailures { return puts, GaveUp; }
      match round.status {
        case At(now) =>
          if now > offset { failures := 0; }
          offset := now;
        case Gone => return puts, GaveUp;
        case NotAsked =>
      }
    }
    ghost var s := src.State();
    var whole := src.Verify(verifyStat, verifyFed);
    if whole.Refused? { return puts, GaveUp; }
    VerifyKeepsInv(s, src.sent, verifyStat, verifyFed);
    VerifiedIsExpected(s, src.sent, verifyStat, verifyFed);
    return puts, Commit;
  }
}
