/**
 * The person's document, read a part at a time on its way to the server and held to ONE
 * version of it (DocumentReader, desktop/src/openwith.ts).
 *
 * Everything another program can do to the file between two steps shows only in what the
 * file system answers, so every answer is a parameter, and every theorem is for all answers.
 */
module DocumentReading {
  import opened Content

  datatype Stat = Stat(isFile: bool, size: nat, mtime: real)

  /** What a call into the file system gave, or that it threw. */
  datatype Answer<+T> = Gave(value: T) | Threw

  /** What was fed into the running hash from the file, and whether the feeding threw:
      the bytes fed before that stay in the hash. */
  datatype Fed = Fed(bytes: Bytes, threw: bool)

  datatype Problem = OutOfRange | SourceChanged | IoFailed | AlreadyVerified

  datatype Outcome<+T> = Done(value: T) | Refused(problem: Problem)

  datatype Part = Part(end: nat, digest: Digest)

  /** The reader's fields. `running` is what the running hash has been fed. */
  datatype Reader = Reader(
    expected: LocalVersion,
    running: Bytes,
    hashedTo: nat,
    parts: map<nat, Part>,
    digest: Option<Digest>)

  function Fresh(expected: LocalVersion): Reader {
    Reader(expected, [], 0, map[], None)
  }

  /** The look at the file before and after its bytes are read. */
  function Same(expected: LocalVersion, stat: Answer<Stat>): Option<Problem> {
    match stat
    case Threw => Some(IoFailed)
    case Gave(st) =>
      if !st.isFile || st.size != expected.size then Some(SourceChanged)
      else if st.mtime != expected.mtime then Some(SourceChanged)
      else None
  }

  /** hashInto up to `to`: the running hash keeps whatever it was fed, `hashedTo` moves
      only when exactly the missing bytes came. */
  function CatchUp(s: Reader, to: nat, fed: Fed): (Reader, Option<Problem>)
    requires s.hashedTo <= to
  {
    var grown := s.(running := s.running + fed.bytes);
    if fed.threw then (grown, Some(IoFailed))
    else if |fed.bytes| != to - s.hashedTo then (grown, Some(SourceChanged))
    else (grown.(hashedTo := to), None)
  }

  /** The part `buf` at `start`: hashed when it is the next one, compared with what it
      was the first time when it was asked for again. */
  function Take(s: Reader, start: nat, end: nat, buf: Bytes): (Reader, Outcome<Bytes>) {
    if s.digest.Some? then (s, Refused(AlreadyVerified))
    else if start == s.hashedTo then
      (s.(running := s.running + buf, parts := s.parts[start := Part(end, Sha256(buf))], hashedTo := end), Done(buf))
    else if start !in s.parts || s.parts[start].end != end then (s, Refused(SourceChanged))
    else if s.parts[start].digest != Sha256(buf) then (s, Refused(SourceChanged))
    else (s, Done(buf))
  }

  /** One `read(start, end)` against everything the file system answers during it. */
  function ReadStep(s: Reader, start: int, end: int, stat: Answer<Stat>, got: Answer<Bytes>, fed: Fed)
    : (Reader, Outcome<Bytes>)
  {
    if !(0 <= start <= end <= s.expected.size) then (s, Refused(OutOfRange))
    else if Same(s.expected, stat).Some? then (s, Refused(Same(s.expected, stat).value))
    else if got.Threw? then (s, Refused(IoFailed))
    else if |got.value| != end - start then (s, Refused(SourceChanged))
    else if start > s.hashedTo then
      var (t, problem) := CatchUp(s, start, fed);
      if problem.Some? then (t, Refused(problem.value)) else Take(t, start, end, got.value)
    else Take(s, start, end, got.value)
  }

  /** One `verify()`. */
  function VerifyStep(s: Reader, stat: Answer<Stat>, fed: Fed): (Reader, Outcome<()>) {
    var (t, problem) := if s.hashedTo < s.expected.size then CatchUp(s, s.expected.size, fed) else (s, None);
    if problem.Some? then (t, Refused(problem.value))
    else if Same(s.expected, stat).Some? then (t, Refused(Same(s.expected, stat).value))
    else
      var digest := if t.digest.Some? then t.digest.value else Sha256(t.running);
      (t.(digest := Some(digest)), if digest == s.expected.sha256 then Done(()) else Refused(SourceChanged))
  }

  // ── runs of a reader ─────────────────────────────────────────────────

  datatype Call =
    | Read(start: int, end: int, stat: Answer<Stat>, got: Answer<Bytes>, fed: Fed)
    | Verify(stat: Answer<Stat>, fed: Fed)

  /** A buffer that `read` returned, and where in the document it was asked for. */
  datatype Piece = Piece(start: nat, bytes: Bytes)

  function After(expected: LocalVersion, calls: seq<Call>): Reader {
    if calls == [] then Fresh(expected)
    else
      var s := After(expected, calls[..|calls| - 1]);
      match calls[|calls| - 1]
      case Read(start, end, stat, got, fed) => ReadStep(s, start, end, stat, got, fed).0
      case Verify(stat, fed) => VerifyStep(s, stat, fed).0
  }

  /** What a call adds to the buffers handed out. */
  function HandedOut(s: Reader, call: Call): seq<Piece> {
    match call
    case Verify(_, _) => []
    case Read(start, end, stat, got, fed) =>
      var r := ReadStep(s, start, end, stat, got, fed).1;
      if r.Done? && start >= 0 then [Piece(start, r.value)] else []
  }

  /** Every buffer handed out, in order. */
  function Pieces(expected: LocalVersion, calls: seq<Call>): seq<Piece> {
    if calls == [] then []
    else
      var before := calls[..|calls| - 1];
      Pieces(expected, before) + HandedOut(After(expected, before), calls[|calls| - 1])
  }

  /** `calls[i]` is a verify() that came back without an error. */
  predicate VerifiedAt(expected: LocalVersion, calls: seq<Call>, i: nat) {
    && i < |calls|
    && calls[i].Verify?
    && VerifyStep(After(expected, calls[..i]), calls[i].stat, calls[i].fed).1.Done?
  }

  predicate SliceOf(piece: Piece, document: Bytes) {
    && piece.start + |piece.bytes| <= |document|
    && document[piece.start..piece.start + |piece.bytes|] == piece.bytes
  }

  /** What every call keeps. A feeding that failed leaves `running` longer than `hashedTo`
      for good, and then nothing is claimed of it: such a hash can never be `expected`'s. */
  ghost predicate Inv(s: Reader, sent: seq<Piece>) {
    && s.hashedTo <= s.expected.size
    && s.hashedTo <= |s.running|
    && (s.digest.Some? ==> s.hashedTo == s.expected.size && s.digest.value == Sha256(s.running))
    && (|s.running| == s.hashedTo ==>
          && (forall k :: k in s.parts ==> KeptPart(s, k))
          && (forall i :: 0 <= i < |sent| ==> SliceOf(sent[i], s.running)))
  }

  ghost predicate KeptPart(s: Reader, k: nat)
    requires k in s.parts
  {
    && k <= s.parts[k].end <= |s.running|
    && s.parts[k].digest == Sha256(s.running[k..s.parts[k].end])
  }

  lemma SliceOfLonger(piece: Piece, document: Bytes, more: Bytes)
    requires SliceOf(piece, document)
    ensures SliceOf(piece, document + more)
  {
    assert (document + more)[piece.start..piece.start + |piece.bytes|]
        == document[piece.start..piece.start + |piece.bytes|];
  }

  /** Feeding the running hash keeps the invariant, also when it stops half way. */
  lemma CatchUpKeepsInv(s: Reader, sent: seq<Piece>, to: nat, fed: Fed)
    requires Inv(s, sent) && s.digest.None? && s.hashedTo < to <= s.expected.size
    ensures Inv(CatchUp(s, to, fed).0, sent)
  {
    var t := CatchUp(s, to, fed).0;
    if |t.running| == t.hashedTo {
      assert |s.running| == s.hashedTo;
      forall k | k in t.parts ensures KeptPart(t, k) {
        assert KeptPart(s, k);
        assert t.running[k..t.parts[k].end] == s.running[k..s.parts[k].end];
      }
      forall i | 0 <= i < |sent| ensures SliceOf(sent[i], t.running) {
        SliceOfLonger(sent[i], s.running, fed.bytes);
      }
    }
  }

  lemma TakeKeepsInv(s: Reader, sent: seq<Piece>, start: nat, end: nat, buf: Bytes)
    requires Inv(s, sent) && start <= end <= s.expected.size && |buf| == end - start
    ensures var (t, r) := Take(s, start, end, buf);
            Inv(t, if r.Done? then sent + [Piece(start, buf)] else sent)
  {
    var (t, r) := Take(s, start, end, buf);
    if r.Done? && |t.running| == t.hashedTo {
      assert |s.running| == s.hashedTo;
      if start == s.hashedTo {
        assert t.running[start..end] == buf;
        forall k | k in t.parts ensures KeptPart(t, k) {
          if k != start {
            assert KeptPart(s, k);
            assert t.running[k..t.parts[k].end] == s.running[k..s.parts[k].end];
          }
        }
        forall i | 0 <= i < |sent| ensures SliceOf(sent[i], t.running) {
          SliceOfLonger(sent[i], s.running, buf);
        }
      } else {
        assert KeptPart(s, start);
      }
    }
  }

  lemma ReadKeepsInv(s: Reader, sent: seq<Piece>, call: Call)
    requires Inv(s, sent) && call.Read?
    ensures Inv(ReadStep(s, call.start, call.end, call.stat, call.got, call.fed).0, sent + HandedOut(s, call))
  {
    var start, end := call.start, call.end;
    assert sent + [] == sent;
    if 0 <= start <= end <= s.expected.size && Same(s.expected, call.stat).None?
       && call.got.Gave? && |call.got.value| == end - start
    {
      if start > s.hashedTo {
        CatchUpKeepsInv(s, sent, start, call.fed);
        var (t, problem) := CatchUp(s, start, call.fed);
        if problem.None? { TakeKeepsInv(t, sent, start, end, call.got.value); }
      } else {
        TakeKeepsInv(s, sent, start, end, call.got.value);
      }
    }
  }

  lemma VerifyKeepsInv(s: Reader, sent: seq<Piece>, stat: Answer<Stat>, fed: Fed)
    requires Inv(s, sent)
    ensures Inv(VerifyStep(s, stat, fed).0, sent)
  {
    if s.hashedTo < s.expected.size {
      CatchUpKeepsInv(s, sent, s.expected.size, fed);
    }
    var (t, problem) := if s.hashedTo < s.expected.size then CatchUp(s, s.expected.size, fed) else (s, None);
    var u := VerifyStep(s, stat, fed).0;
    assert u.running == t.running && u.parts == t.parts && u.hashedTo == t.hashedTo;
    if |u.running| == u.hashedTo {
      forall k | k in u.parts ensures KeptPart(u, k) { assert KeptPart(t, k); }
    }
  }

  lemma {:induction false} RunKeepsInv(expected: LocalVersion, calls: seq<Call>)
    ensures After(expected, calls).expected == expected
    ensures Inv(After(expected, calls), Pieces(expected, calls))
  {
    if calls != [] {
      var before, last := calls[..|calls| - 1], calls[|calls| - 1];
      RunKeepsInv(expected, before);
      var s, sent := After(expected, before), Pieces(expected, before);
      match last
      case Read(_, _, _, _, _) => ReadKeepsInv(s, sent, last);
      case Verify(stat, fed) =>
        VerifyKeepsInv(s, sent, stat, fed);
        assert sent + [] == sent;
    }
  }

  /** A verify() that succeeds pins the running hash: it was fed the whole expected
      version and not one byte more. */
  lemma VerifiedIsExpected(s: Reader, sent: seq<Piece>, stat: Answer<Stat>, fed: Fed)
    requires Inv(s, sent) && s.expected.Whole()
    requires VerifyStep(s, stat, fed).1.Done?
    ensures var t := VerifyStep(s, stat, fed).0;
            t.running == s.expected.sha256.of && |t.running| == t.hashedTo && t.digest.Some?
  {
    VerifyKeepsInv(s, sent, stat, fed);
  }

  lemma VerifiedHandsOutNothing(s: Reader, sent: seq<Piece>, call: Call)
    requires Inv(s, sent) && s.digest.Some?
    ensures HandedOut(s, call) == []
    ensures call.Read? ==> ReadStep(s, call.start, call.end, call.stat, call.got, call.fed).0.digest.Some?
    ensures call.Verify? ==> VerifyStep(s, call.stat, call.fed).0.digest.Some?
  {
  }

  /** Once verified, no call hands out another byte. */
  lemma {:induction false} NothingAfterVerify(expected: LocalVersion, calls: seq<Call>, i: nat)
    requires VerifiedAt(expected, calls, i)
    ensures After(expected, calls).digest.Some?
    ensures Pieces(expected, calls) == Pieces(expected, calls[..i])
    decreases |calls|
  {
    var before := calls[..|calls| - 1];
    if i == |calls| - 1 {
      assert calls[..i] == before;
    } else {
      assert before[..i] == calls[..i] && before[i] == calls[i];
      NothingAfterVerify(expected, before, i);
      RunKeepsInv(expected, before);
      VerifiedHandsOutNothing(After(expected, before), Pieces(expected, before), calls[|calls| - 1]);
    }
  }

  /**
   * The promise of the class: when verify() succeeds, every buffer any read() returned is
   * the expected version's bytes at that range, whatever the file system answered in
   * between, whichever parts were skipped or asked for again, and after any failed call.
   */
  lemma VerifiedMeansOneVersion(expected: LocalVersion, calls: seq<Call>, i: nat)
    requires expected.Whole() && VerifiedAt(expected, calls, i)
    ensures forall piece :: piece in Pieces(expected, calls) ==> SliceOf(piece, expected.sha256.of)
  {
    NothingAfterVerify(expected, calls, i);
    var before := calls[..i];
    var s, sent := After(expected, before), Pieces(expected, before);
    RunKeepsInv(expected, before);
    VerifiedIsExpected(s, sent, calls[i].stat, calls[i].fed);
    VerifyKeepsInv(s, sent, calls[i].stat, calls[i].fed);
  }

  // ── no false alarm ───────────────────────────────────────────────────

  /** The file held still from the start: the state its bytes lead to. */
  ghost predicate Still(s: Reader) {
    && s.expected.Whole()
    && s.hashedTo <= s.expected.size
    && s.digest.None?
    && s.running == s.expected.sha256.of[..s.hashedTo]
    && forall k :: k in s.parts ==>
         && k <= s.parts[k].end <= s.hashedTo
         && s.parts[k].digest == Sha256(s.expected.sha256.of[k..s.parts[k].end])
  }

  function StillStat(v: LocalVersion): Answer<Stat> {
    Gave(Stat(true, v.size, v.mtime))
  }

  /** What a still file feeds the running hash on the way to `to`. */
  function StillFed(s: Reader, to: nat): Fed {
    Fed(if s.hashedTo <= to <= |s.expected.sha256.of| then s.expected.sha256.of[s.hashedTo..to] else [], false)
  }

  /** A file that holds still is read without an error: a part from where the hash stands
      on, or one asked for again as it was the first time; and from then on it can be asked for
      again. */
  lemma StillFileIsRead(s: Reader, start: nat, end: nat)
    requires Still(s) && start <= end <= s.expected.size
    requires start >= s.hashedTo || (start in s.parts && s.parts[start].end == end)
    ensures var document := s.expected.sha256.of;
            var (t, r) := ReadStep(s, start, end, StillStat(s.expected), Gave(document[start..end]), StillFed(s, start));
            && r == Done(document[start..end]) && Still(t) && t.hashedTo == (if start >= s.hashedTo then end else s.hashedTo)
            && StillNow(t) && |t.running| == t.hashedTo
            && start in t.parts && t.parts[start].end == end
            && forall k :: k in s.parts && k != start ==> k in t.parts && t.parts[k] == s.parts[k]
  {
    var document := s.expected.sha256.of;
    if start >= s.hashedTo {
      assert document[..s.hashedTo] + document[s.hashedTo..start] == document[..start];
      assert document[..start] + document[start..end] == document[..end];
    }
  }

  /** The file holds still now, whatever failed before: as long as no feeding of the running hash
      broke off half way, the hash is of the document so far. */
  ghost predicate StillNow(s: Reader) {
    && s.expected.Whole()
    && s.hashedTo <= s.expected.size && s.hashedTo <= |s.running|
    && s.digest.None?
    && (|s.running| == s.hashedTo ==> s.running == s.expected.sha256.of[..s.hashedTo])
  }

  /** And its verify() succeeds - exactly when no feeding broke off. A hash that was fed too much
      never becomes the expected one: then verify() refuses, now and whenever it is asked again. */
  lemma StillFileVerifies(s: Reader)
    requires StillNow(s)
    ensures var (t, r) := VerifyStep(s, StillStat(s.expected), StillFed(s, s.expected.size));
            && (r.Done? <==> |s.running| == s.hashedTo)
            && (|s.running| > s.hashedTo ==>
                  r == Refused(SourceChanged)
                  && forall stat, fed :: VerifyStep(t, stat, fed).1.Refused?)
  {
    var document := s.expected.sha256.of;
    assert document[s.hashedTo..s.expected.size] == document[s.hashedTo..];
    if |s.running| == s.hashedTo {
      assert document[..s.hashedTo] + document[s.hashedTo..] == document;
    } else {
      assert |s.running + document[s.hashedTo..]| > |document|;
    }
  }

  /** For good: however the file is fed from here on, a reader whose hash was fed too much never
      verifies, in any continuation. */
  lemma FedTooMuchNeverVerifies(expected: LocalVersion, calls: seq<Call>, n: nat, i: nat)
    requires expected.Whole() && n <= i < |calls| && calls[i].Verify?
    requires |After(expected, calls[..n]).running| > After(expected, calls[..n]).hashedTo
    ensures !VerifiedAt(expected, calls, i)
  {
    FedTooMuchStays(expected, calls, n, i);
    RunKeepsInv(expected, calls[..i]);
    var s, sent := After(expected, calls[..i]), Pieces(expected, calls[..i]);
    if VerifiedAt(expected, calls, i) {
      VerifiedIsExpected(s, sent, calls[i].stat, calls[i].fed);
      TooMuchStaysTooMuch(s, calls[i]);
    }
  }

  lemma {:induction false} FedTooMuchStays(expected: LocalVersion, calls: seq<Call>, n: nat, i: nat)
    requires n <= i <= |calls|
    requires |After(expected, calls[..n]).running| > After(expected, calls[..n]).hashedTo
    ensures |After(expected, calls[..i]).running| > After(expected, calls[..i]).hashedTo
    decreases i
  {
    if n < i {
      FedTooMuchStays(expected, calls, n, i - 1);
      assert calls[..i][..i - 1] == calls[..i - 1];
      TooMuchStaysTooMuch(After(expected, calls[..i - 1]), calls[i - 1]);
    }
  }

  lemma TooMuchStaysTooMuch(s: Reader, call: Call)
    requires |s.running| > s.hashedTo
    ensures call.Read? ==>
              var t := ReadStep(s, call.start, call.end, call.stat, call.got, call.fed).0; |t.running| > t.hashedTo
    ensures call.Verify? ==> var t := VerifyStep(s, call.stat, call.fed).0; |t.running| > t.hashedTo
  {
  }

  // ── the class ────────────────────────────────────────────────────────

  class DocumentReader {
    const expected: LocalVersion
    var running: Bytes
    var hashedTo: nat
    var parts: map<nat, Part>
    var digest: Option<Digest>
    /** Every buffer handed out so far. */
    ghost var sent: seq<Piece>

    ghost function State(): Reader
      reads this
    {
      Reader(expected, running, hashedTo, parts, digest)
    }

    constructor (expected: LocalVersion)
      ensures State() == Fresh(expected) && sent == [] && this.expected == expected
    {
      this.expected := expected;
      running, hashedTo, parts, digest, sent := [], 0, map[], None, [];
    }

    method Feed(to: nat, fed: Fed) returns (problem: Option<Problem>)
      requires hashedTo <= to
      modifies this`running, this`hashedTo
      ensures (State(), problem) == CatchUp(old(State()), to, fed)
    {
      running := running + fed.bytes;
      if fed.threw { return Some(IoFailed); }
      if |fed.bytes| != to - hashedTo { return Some(SourceChanged); }
      hashedTo := to;
      problem := None;
    }

    method Read(start: int, end: int, stat: Answer<Stat>, got: Answer<Bytes>, fed: Fed)
      returns (r: Outcome<Bytes>)
      modifies this
      ensures (State(), r) == ReadStep(old(State()), start, end, stat, got, fed)
      ensures sent == old(sent) + HandedOut(old(State()), Call.Read(start, end, stat, got, fed))
    {
      if !(start >= 0 && end >= start && end <= expected.size) { return Refused(OutOfRange); }
      var moved := Same(expected, stat);
      if moved.Some? { return Refused(moved.value); }
      if got.Threw? { return Refused(IoFailed); }
      var buf := got.value;
      if |buf| != end - start { return Refused(SourceChanged); }
      // Bytes the server already held are hashed, not sent.
      if start > hashedTo {
        var problem := Feed(start, fed);
        if problem.Some? { return Refused(problem.value); }
      }
      if digest.Some? { return Refused(AlreadyVerified); }
      if start == hashedTo {
        running := running + buf;
        parts := parts[start := Part(end, Sha256(buf))];
        hashedTo := end;
      } else {
        if start !in parts || parts[start].end != end { return Refused(SourceChanged); }
        if parts[start].digest != Sha256(buf) { return Refused(SourceChanged); }
      }
      sent := sent + [Piece(start, buf)];
      return Done(buf);
    }

    method Verify(stat: Answer<Stat>, fed: Fed) returns (r: Outcome<()>)
      modifies this`running, this`hashedTo, this`digest
      ensures (State(), r) == VerifyStep(old(State()), stat, fed)
    {
      if hashedTo < expected.size {
        var problem := Feed(expected.size, fed);
        if problem.Some? { return Refused(problem.value); }
      }
      var moved := Same(expected, stat);
      if moved.Some? { return Refused(moved.value); }
      if digest.None? { digest := Some(Sha256(running)); }
      if digest.value != expected.sha256 { return Refused(SourceChanged); }
      return Done(());
    }
  }
}
