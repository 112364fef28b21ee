/**
 * The local file system as the desktop client meets it: every call is one atomic step, and
 * before each of them any other program may have done anything. The steps of both sides are
 * kept in `trace`, so that what happened between two of ours can be talked about.
 */
module FileSystem {
  import opened Content

  datatype Path = Path(dir: string, base: string)

  /** A file has an identity, which a write in place keeps: for one that filex creates, the step
      that created it. */
  datatype File = File(regular: bool, bytes: Bytes, mtime: real, id: nat)

  type Files = map<Path, File>

  datatype Actor = Filex | Outside

  /** One step of one side: the files before and after it, and the clock. */
  datatype Move = Move(actor: Actor, before: Files, after: Files, from: real, to: real)

  type Trace = seq<Move>

  /** A call that the file system refused. */
  datatype Fault = Unread(p: Path) | Unwritten(p: Path) | Unremoved(p: Path) | Unrenamed(p: Path, q: Path)

  /** Since `had` the call failed. */
  predicate FailedSince(had: seq<Fault>, now: seq<Fault>, f: Fault) {
    |had| <= |now| && f in now[|had|..]
  }

  lemma FailedSinceEarlier(had: seq<Fault>, middle: seq<Fault>, now: seq<Fault>, f: Fault)
    requires had <= middle <= now
    ensures FailedSince(middle, now, f) || FailedSince(had, middle, f) ==> FailedSince(had, now, f)
  {
    if FailedSince(middle, now, f) {
      var k :| 0 <= k < |now[|middle|..]| && now[|middle|..][k] == f;
      assert now[|had|..][|middle| - |had| + k] == f;
    }
    if FailedSince(had, middle, f) {
      var k :| 0 <= k < |middle[|had|..]| && middle[|had|..][k] == f;
      assert now[|had|..][k] == f;
    }
  }

  /** Nothing is left at `p`, or it could not be removed. */
  predicate Cleaned(files: Files, had: seq<Fault>, now: seq<Fault>, p: Path) {
    p !in files || FailedSince(had, now, Unremoved(p))
  }

  datatype Reply<+T> = Ok(value: T) | Missing | Exists | Failed

  /** Timestamps are cut to a granule of at most this much (two seconds on FAT, one on SMB). */
  const RACY_WINDOW_MS: real := 3000.0

  // ── what a trace says ────────────────────────────────────────────────

  /** The two states hold the same at `p`. */
  predicate Same(before: Files, after: Files, p: Path) {
    (p in before) == (p in after) && (p in before ==> before[p] == after[p])
  }

  /** From step `i` up to step `k`, no other program changed `p`. */
  predicate QuietIn(t: Trace, i: nat, k: nat, p: Path) {
    forall j :: i <= j < k && j < |t| && t[j].actor.Outside? ==> Same(t[j].before, t[j].after, p)
  }

  /** Nor at any step after `i`. */
  predicate Quiet(t: Trace, i: nat, p: Path) {
    QuietIn(t, i, |t|, p)
  }

  /** The steps from `i` up to `k` are all other programs'. */
  ghost predicate AllOutside(t: Trace, i: nat, k: nat) {
    forall j :: i <= j < k && j < |t| ==> t[j].actor.Outside?
  }

  /** From step `i` up to step `k`, filex changed nothing outside `ps`. */
  ghost predicate OnlyTouchesIn(t: Trace, i: nat, k: nat, ps: set<Path>) {
    forall j, p :: i <= j < k && j < |t| && t[j].actor.Filex? && p !in ps ==> Same(t[j].before, t[j].after, p)
  }

  /** Nor at any step after `i`. */
  ghost predicate OnlyTouches(t: Trace, i: nat, ps: set<Path>) {
    OnlyTouchesIn(t, i, |t|, ps)
  }

  /** A file written in this step carries the time it was written, cut to the granule. */
  predicate StampedAt(m: Move, p: Path) {
    p in m.after && !Same(m.before, m.after, p) ==> m.from - RACY_WINDOW_MS < m.after[p].mtime
  }

  /** From step `i` on, whatever filex wrote at `p` carries its time. */
  ghost predicate Stamps(t: Trace, i: nat, p: Path) {
    forall j :: i <= j < |t| && t[j].actor.Filex? ==> StampedAt(t[j], p)
  }

  /** From step `i` up to step `k`, whatever another program wrote at `p` carries its time. */
  ghost predicate HonestIn(t: Trace, i: nat, k: nat, p: Path) {
    forall j :: i <= j < k && j < |t| && t[j].actor.Outside? ==> StampedAt(t[j], p)
  }

  ghost predicate Honest(t: Trace, i: nat, p: Path) {
    HonestIn(t, i, |t|, p)
  }

  /** The files just before step `i` (now, when there is no such step), and the clock. */
  function FilesAt(t: Trace, files: Files, i: nat): Files {
    if i < |t| then t[i].before else files
  }

  function ClockAt(t: Trace, clock: real, i: nat): real {
    if i < |t| then t[i].from else clock
  }

  /** Step `j` ends where the next one begins. */
  ghost predicate Linked(t: Trace, files: Files, clock: real, j: nat)
    requires j < |t|
  {
    && t[j].from <= t[j].to == ClockAt(t, clock, j + 1)
    && t[j].after == FilesAt(t, files, j + 1)
  }

  /** The steps follow one another and end in `files` at `clock`. */
  ghost predicate Chained(t: Trace, files: Files, clock: real) {
    forall j: nat :: j < |t| ==> Linked(t, files, clock, j)
  }

  lemma QuietOfPrefix(early: Trace, t: Trace, i: nat, k: nat, p: Path)
    requires early <= t && k <= |early|
    ensures QuietIn(early, i, k, p) == QuietIn(t, i, k, p)
  {
    assert forall j :: 0 <= j < k ==> early[j] == t[j];
  }

  lemma HonestOfPrefix(early: Trace, t: Trace, i: nat, k: nat, p: Path)
    requires early <= t && k <= |early|
    ensures HonestIn(early, i, k, p) == HonestIn(t, i, k, p)
  {
    assert forall j :: 0 <= j < k ==> early[j] == t[j];
  }

  /** What filex touched in two stretches of a trace, together. */
  lemma TouchesOfBoth(early: Trace, t: Trace, i: nat, first: set<Path>, second: set<Path>)
    requires early <= t && i <= |early|
    requires OnlyTouches(early, i, first) && OnlyTouches(t, |early|, second)
    ensures OnlyTouches(t, i, first + second)
  {
    forall j, p | i <= j < |t| && t[j].actor.Filex? && p !in first + second
      ensures Same(t[j].before, t[j].after, p)
    {
      if j < |early| { assert early[j] == t[j]; }
    }
  }

  // ── the timestamp fast path ──────────────────────────────────────────

  predicate Racy(v: LocalVersion) {
    v.mtime >= v.at - RACY_WINDOW_MS
  }

  /** The stat alone says "the same". */
  predicate FastPath(v: LocalVersion, file: File) {
    !Racy(v) && |file.bytes| == v.size && file.mtime == v.mtime
  }

  /** Asked of the file at `p` now, the fast path does not lie. */
  ghost predicate Trusted(v: LocalVersion, files: Files, p: Path) {
    p in files && FastPath(v, files[p]) ==> Sha256(files[p].bytes) == v.sha256
  }

  /** Nobody changed `p` from step `i` on: it is what it was. */
  lemma {:induction false} Unmoved(t: Trace, files: Files, clock: real, i: nat, p: Path, ps: set<Path>)
    requires Chained(t, files, clock) && i <= |t|
    requires Quiet(t, i, p) && OnlyTouches(t, i, ps) && p !in ps
    ensures Same(FilesAt(t, files, i), files, p)
    decreases |t| - i
  {
    if i < |t| {
      assert Linked(t, files, clock, i);
      Unmoved(t, files, clock, i + 1, p, ps);
      assert Same(t[i].before, t[i].after, p);
    }
  }

  /**
   * Why the timestamp may be believed: a version that could be trusted still can after any
   * stamped writes of the file, by other programs and by filex. A write after `at` gets a time past
   * the racy window, which a baseline that is not racy cannot carry.
   */
  lemma {:induction false} TrustSurvives(t: Trace, files: Files, clock: real, i: nat, p: Path, v: LocalVersion)
    requires Chained(t, files, clock) && i <= |t|
    requires Honest(t, i, p) && Stamps(t, i, p)
    requires v.at <= ClockAt(t, clock, i)
    requires Trusted(v, FilesAt(t, files, i), p)
    ensures Trusted(v, files, p) && v.at <= clock
    decreases |t| - i
  {
    if i < |t| {
      assert Linked(t, files, clock, i);
      assert StampedAt(t[i], p);
      TrustSurvives(t, files, clock, i + 1, p, v);
    }
  }

  /** From step `i` on nobody changed `p`, or its timestamp is of a time since. */
  lemma {:induction false} QuietOrLater(t: Trace, files: Files, clock: real, i: nat, p: Path)
    requires Chained(t, files, clock) && i <= |t| && Honest(t, i, p) && AllOutside(t, i, |t|)
    ensures Quiet(t, i, p) || (p in files ==> ClockAt(t, clock, i) - RACY_WINDOW_MS < files[p].mtime)
    decreases |t| - i
  {
    if i < |t| {
      assert Linked(t, files, clock, i);
      QuietOrLater(t, files, clock, i + 1, p);
      LaterIsLater(t, files, clock, i);
      if Quiet(t, i + 1, p) && !Same(t[i].before, t[i].after, p) {
        ghost var none := {};
        Unmoved(t, files, clock, i + 1, p, none);
        if p in files { assert StampedAt(t[i], p); }
      }
    }
  }

  lemma LaterIsLater(t: Trace, files: Files, clock: real, i: nat)
    requires Chained(t, files, clock) && i < |t|
    ensures ClockAt(t, clock, i) <= ClockAt(t, clock, i + 1)
  {
    assert Linked(t, files, clock, i);
  }

  /** A second write within the granule of the stat would not have the version's timestamp, or the
      timestamp is not believed anyway. */
  predicate OldEnough(v: LocalVersion, statted: real) {
    Racy(v) || v.mtime <= statted - RACY_WINDOW_MS
  }

  /** A write during the hash: after the stat at `statted`, up to `at`, into a file that had the
      version's bytes and timestamp. */
  ghost predicate WrittenDuring(m: Move, p: Path, v: LocalVersion, statted: real) {
    && m.actor.Outside? && StampedAt(m, p) && statted <= m.from <= v.at
    && p in m.before && Sha256(m.before[p].bytes) == v.sha256 && m.before[p].mtime == v.mtime
  }

  /**
   * When the fast path may be asked of a version although somebody may have written while it was
   * hashed: exactly when it is racy anyway, or its timestamp was a whole window old at the stat.
   * Otherwise a second write within the granule has the same timestamp and is never noticed.
   */
  lemma TrustedWhateverIsWrittenDuring(v: LocalVersion, statted: real)
    requires v.Whole() && v.size > 0 && statted <= v.at
    ensures (forall m, p :: WrittenDuring(m, p, v, statted) ==> Trusted(v, m.after, p))
       <==> OldEnough(v, statted)
  {
    if !OldEnough(v, statted) {
      WriteDuringTheHashFoolsTheFastPath(v, statted);
    } else {
      forall m, p | WrittenDuring(m, p, v, statted) ensures Trusted(v, m.after, p) {}
    }
  }

  /** The write that is never noticed. */
  lemma WriteDuringTheHashFoolsTheFastPath(v: LocalVersion, statted: real)
    requires v.Whole() && v.size > 0 && statted <= v.at
    requires !OldEnough(v, statted)
    ensures exists m, p :: WrittenDuring(m, p, v, statted) && !Trusted(v, m.after, p)
  {
    var p, was := Path("", "a"), v.sha256.of;
    var other := was[0 := if was[0] == 0 then 1 else 0];
    var m := Move(Outside, map[p := File(true, was, v.mtime, 0)], map[p := File(true, other, v.mtime, 0)], statted, statted);
    assert other[0] != was[0];
    assert StampedAt(m, p);
    assert FastPath(v, m.after[p]) && Sha256(m.after[p].bytes) != v.sha256;
    assert WrittenDuring(m, p, v, statted) && !Trusted(v, m.after, p);
  }

  // ── an exclusive write ───────────────────────────────────────────────

  predicate OwnAt(m: Move, p: Path, id: nat) {
    p in m.before && m.before[p].id == id
  }

  /** The step writes into the file `id` that stands at `p`, and it stays that file. */
  predicate Grows(m: Move, p: Path, id: nat) {
    OwnAt(m, p, id) && p in m.after && m.after[p].id == id
  }

  predicate Removes(m: Move, p: Path) {
    p in m.before && p !in m.after
  }

  /** After step `i` filex writes into the file `id` at `p` only, or - when `fails` - removes
      whatever stands there. */
  ghost predicate WritesInto(t: Trace, i: nat, to: nat, p: Path, id: nat, fails: bool) {
    forall j :: i < j < to && j < |t| && t[j].actor.Filex? && !Same(t[j].before, t[j].after, p) ==>
      Grows(t[j], p, id) || (fails && Removes(t[j], p))
  }

  /** The steps from `from` up to `to` are an exclusive write of `p`: it creates a file where
      nothing was, and writes into that file; when it fails, it removes the name. */
  ghost predicate ExclusiveWrite(t: Trace, from: nat, to: nat, p: Path, ok: bool) {
    && from < to <= |t|
    && t[from].actor.Filex? && p !in t[from].before && p in t[from].after && t[from].after[p].id == from
    && WritesInto(t, from, to, p, from, !ok)
  }

  /** After creating it filex changed no file at `p` but the one it created. */
  ghost predicate OnlyItsOwn(t: Trace, from: nat, to: nat, p: Path) {
    forall j :: from < j < to && j < |t| && t[j].actor.Filex? && !Same(t[j].before, t[j].after, p) ==> OwnAt(t[j], p, from)
  }

  /** Step `k` is the last before step `j` at which another program changed `p`. */
  ghost predicate LastOutside(t: Trace, k: nat, j: nat, p: Path) {
    && k < j <= |t| && t[k].actor.Outside? && !Same(t[k].before, t[k].after, p)
    && QuietIn(t, k + 1, j, p)
  }

  /** Other programs left the file `id` at the name: the last of them that changed it before step
      `j` wrote into that file, if there was one. */
  ghost predicate LeftThere(t: Trace, from: nat, j: nat, p: Path, id: nat) {
    forall k :: from < k < j && LastOutside(t, k, j, p) ==> p in t[k].after && t[k].after[p].id == id
  }

  /** An exclusive write changes its own file only - exactly when it succeeds, or other programs had
      left its file at the name when it failed and removed it. */
  lemma OnlyItsOwnUnlessItFails(t: Trace, files: Files, clock: real, from: nat, to: nat, p: Path, ok: bool)
    requires Chained(t, files, clock) && ExclusiveWrite(t, from, to, p, ok)
    ensures OnlyItsOwn(t, from, to, p)
       <==> ok || forall j :: from < j < to && t[j].actor.Filex? && Removes(t[j], p) ==> LeftThere(t, from, j, p, from)
  {
    forall j | from < j < to && t[j].actor.Filex? && Removes(t[j], p)
      ensures OwnAt(t[j], p, from) <==> LeftThere(t, from, j, p, from)
    {
      RemovesWhatWasLeft(t, files, clock, from, to, p, ok, j);
    }
  }

  lemma RemovesWhatWasLeft(t: Trace, files: Files, clock: real, from: nat, to: nat, p: Path, ok: bool, j: nat)
    requires Chained(t, files, clock) && ExclusiveWrite(t, from, to, p, ok)
    requires from < j < to && p in t[j].before
    ensures OwnAt(t[j], p, from) <==> LeftThere(t, from, j, p, from)
  {
    if QuietIn(t, from, j, p) {
      StaysItsOwn(t, files, clock, from, to, p, ok, j);
    } else {
      var k := FindLastOutside(t, from, j, p);
      StaysWhatWasLeft(t, files, clock, from, to, p, ok, k, j);
      forall other | from < other < j && LastOutside(t, other, j, p) ensures other == k {}
    }
  }

  lemma {:induction false} FindLastOutside(t: Trace, from: nat, j: nat, p: Path) returns (k: nat)
    requires from < j <= |t| && t[from].actor.Filex? && !QuietIn(t, from, j, p)
    ensures from < k < j && LastOutside(t, k, j, p)
    decreases j
  {
    k := j - 1;
    if t[k].actor.Filex? || Same(t[k].before, t[k].after, p) { k := FindLastOutside(t, from, j - 1, p); }
  }

  /** After another program's last change of the name filex keeps what stands there, or removes it. */
  lemma {:induction false} StaysWhatWasLeft(t: Trace, files: Files, clock: real, from: nat, to: nat, p: Path, ok: bool, k: nat, j: nat)
    requires Chained(t, files, clock) && ExclusiveWrite(t, from, to, p, ok)
    requires from < k < j < to && QuietIn(t, k + 1, j, p)
    ensures p in t[j].before ==> p in t[k].after && t[j].before[p].id == t[k].after[p].id
    decreases j
  {
    assert Linked(t, files, clock, j - 1);
    if k < j - 1 { StaysWhatWasLeft(t, files, clock, from, to, p, ok, k, j - 1); }
  }

  /** And so it is when no other program was at the name meanwhile. */
  lemma OnlyItsOwnWhenQuiet(t: Trace, files: Files, clock: real, from: nat, to: nat, p: Path, ok: bool)
    requires Chained(t, files, clock) && ExclusiveWrite(t, from, to, p, ok) && QuietIn(t, from, to, p)
    ensures OnlyItsOwn(t, from, to, p)
  {
    forall j | from < j < to && t[j].actor.Filex? && !Same(t[j].before, t[j].after, p) ensures OwnAt(t[j], p, from) {
      StaysItsOwn(t, files, clock, from, to, p, ok, j);
    }
  }

  lemma {:induction false} StaysItsOwn(t: Trace, files: Files, clock: real, from: nat, to: nat, p: Path, ok: bool, k: nat)
    requires Chained(t, files, clock) && ExclusiveWrite(t, from, to, p, ok)
    requires from < k < to && QuietIn(t, from, k, p)
    ensures p in t[k].before ==> t[k].before[p].id == from
    decreases k
  {
    assert Linked(t, files, clock, k - 1);
    if k - 1 > from { StaysItsOwn(t, files, clock, from, to, p, ok, k - 1); }
  }

  /** Otherwise it takes another program's file away: created, replaced by the other program, and
      then the write fails. */
  lemma FailedWriteRemovesAnother(p: Path)
    ensures exists t: Trace, files: Files, clock: real ::
              Chained(t, files, clock) && ExclusiveWrite(t, 0, |t|, p, false) && !OnlyItsOwn(t, 0, |t|, p)
  {
    var mine, others := File(true, [], 0.0, 0), File(true, [1], 0.0, 7);
    var t := [Move(Filex, map[], map[p := mine], 0.0, 0.0),
              Move(Outside, map[p := mine], map[p := others], 0.0, 0.0),
              Move(Filex, map[p := others], map[], 0.0, 0.0)];
    forall j: nat | j < |t| ensures Linked(t, map[], 0.0, j) {}
    assert Chained(t, map[], 0.0) && ExclusiveWrite(t, 0, |t|, p, false);
    assert t[2].actor.Filex? && !OwnAt(t[2], p, 0);
  }

  // ── the calls ────────────────────────────────────────────────────────

  class Disk {
    var files: Files
    var clock: real
    var trace: Trace
    /** The calls that failed so far. */
    var faults: seq<Fault>

    ghost predicate Valid()
      reads this
    {
      Chained(trace, files, clock)
    }

    /** The steps since the old state lead on from it. */
    twostate predicate Continued()
      reads this
    {
      && Valid()
      && old(trace) <= trace
      && old(clock) <= clock
      && old(faults) <= faults
      && FilesAt(trace, files, |old(trace)|) == old(files)
      && ClockAt(trace, clock, |old(trace)|) == old(clock)
    }

    constructor (files: Files, clock: real)
      ensures Valid() && this.files == files && trace == []
    {
      this.files, this.clock, trace, faults := files, clock, [], [];
    }

    method Record(actor: Actor, next: Files, later: real)
      requires Valid() && clock <= later
      modifies `files, `clock, `trace
      ensures Valid() && files == next && clock == later
      ensures trace == old(trace) + [Move(actor, old(files), next, old(clock), later)]
    {
      ghost var t := trace + [Move(actor, files, next, clock, later)];
      forall j: nat | j < |t| ensures Linked(t, next, later, j) {
        if j < |trace| { assert Linked(trace, files, clock, j); }
      }
      trace := trace + [Move(actor, files, next, clock, later)];
      files, clock := next, later;
    }

    /** Any other programs, any number of times, in any way. */
    method Interfere()
      requires Valid()
      modifies `files, `clock, `trace
      ensures Continued() && faults == old(faults)
      ensures AllOutside(trace, |old(trace)|, |trace|)
    {
      var more: bool := *;
      var left: nat := *;
      while more && left > 0
        invariant Continued()
        invariant AllOutside(trace, |old(trace)|, |trace|)
        decreases left
      {
        var next: Files := *;
        var pause: real := *;
        Record(Outside, next, if pause > 0.0 then clock + pause else clock);
        more, left := *, left - 1;
      }
    }

    /** A step of filex's own that leaves the files in `next`. */
    method Act(next: Files)
      requires Valid()
      modifies `files, `clock, `trace
      ensures Valid() && files == next && clock == old(clock)
      ensures trace == old(trace) + [Move(Filex, old(files), next, clock, clock)]
    {
      Record(Filex, next, clock);
    }

    /** Date.now(): the clock, to the millisecond below. */
    method Now() returns (at: real)
      requires Valid()
      ensures clock - 1.0 < at <= clock
    {
      var cut: real := *;
      at := if 0.0 <= cut < 1.0 then clock - cut else clock;
    }

    method Stat(p: Path) returns (r: Reply<File>)
      requires Valid()
      modifies this
      ensures faults == if r.Failed? then old(faults) + [Unread(p)] else old(faults)
      ensures Continued()
      ensures AllOutside(trace, |old(trace)|, |trace|)
      ensures r.Ok? ==> p in files && files[p] == r.value
      ensures r.Missing? ==> p !in files
      ensures !r.Exists?
    {
      Interfere();
      var fails: bool := *;
      if fails {
        faults := faults + [Unread(p)];
        return Failed;
      }
      r := if p in files then Ok(files[p]) else Missing;
    }

    /** Reads the whole file through one handle. While it is read another program may write
        into it, and then the bytes are any mixture. */
    method ReadThrough(p: Path, since: nat) returns (r: Reply<Bytes>)
      requires Valid() && since <= |trace| && p in files
      modifies this
      ensures faults == if r.Failed? then old(faults) + [Unread(p)] else old(faults)
      ensures Continued()
      ensures AllOutside(trace, |old(trace)|, |trace|)
      ensures r.Ok? || r.Failed?
      ensures r.Ok? && Quiet(trace, since, p) ==> p in files && r.value == files[p].bytes
    {
      ghost var n := |trace|;
      Interfere();
      var fails: bool := *;
      if fails {
        faults := faults + [Unread(p)];
        return Failed;
      }
      if Quiet(trace, since, p) {
        ghost var ps: set<Path> := {};
        Unmoved(trace, files, clock, n, p, ps);
        r := Ok(files[p].bytes);
      } else {
        var mixed: Bytes := *;
        r := Ok(mixed);
      }
    }

    /** The time a file written now carries: the clock, cut to the file system's granule. */
    method Timestamp() returns (at: real)
      requires Valid()
      ensures clock - RACY_WINDOW_MS < at <= clock
    {
      var cut: real := *;
      at := if 0.0 <= cut < RACY_WINDOW_MS then clock - cut else clock;
    }

    /** An open for writing, and the bytes in any number of writes. The name holds part of
        them until the last one. Once another program put another file at the name, the writes
        go where nobody can see them by it; once it wrote into this one, the bytes are any
        mixture. */
    method Put(p: Path, bytes: Bytes, exclusive: bool) returns (r: Reply<()>, ghost begun: nat)
      requires Valid()
      modifies this
      ensures Continued()
      ensures OnlyTouches(trace, |old(trace)|, {p}) && Stamps(trace, |old(trace)|, p)
      ensures |old(trace)| <= begun <= |trace|
      // Nothing is changed before the open, nor when there is none; an exclusive one creates.
      ensures AllOutside(trace, |old(trace)|, begun)
      ensures exclusive && begun < |trace| ==> ExclusiveWrite(trace, begun, |trace|, p, r.Ok?)
      ensures begun < |trace| ==> trace[begun].actor.Filex?
      ensures r.Ok? ==> begun < |trace| && faults == old(faults)
      ensures r.Exists? ==> exclusive && begun == |trace| && p in files
      ensures !r.Missing?
      // A failed exclusive write leaves nothing at the name, unless it could not remove it.
      ensures exclusive && r.Failed? && begun < |trace| ==> Cleaned(files, old(faults), faults, p)
      // The whole content, once it came back without an error.
      ensures r.Ok? && Quiet(trace, begun, p) ==> p in files && files[p].regular && files[p].bytes == bytes
    {
      Interfere();
      begun := |trace|;
      var fails: bool := *;
      if fails || (!exclusive && p in files && !files[p].regular) { return Failed, begun; }
      if exclusive && p in files { return Exists, begun; }
      var id := if p in files then files[p].id else |trace|;
      var at := Timestamp();
      var mine := File(true, [], at, id);
      Act(files[p := mine]);
      ghost var created := trace;
      var whole := WriteAll(p, mine, bytes, begun);
      TouchesOfBoth(created, trace, |old(trace)|, {p}, {p});
      if !whole {
        if exclusive { RemoveFailed(p, id, begun, |old(trace)|); }
        return Failed, begun;
      }
      return Ok(()), begun;
    }

    /** Writes until all is written and has reached the disk, or one fails. */
    method WriteAll(p: Path, start: File, bytes: Bytes, ghost begun: nat) returns (whole: bool)
      requires Valid() && begun + 1 == |trace| && p in files && files[p] == start && start.regular && start.bytes == []
      modifies `files, `clock, `trace
      ensures Continued()
      ensures OnlyTouches(trace, |old(trace)|, {p}) && Stamps(trace, |old(trace)|, p)
      ensures WritesInto(trace, begun, |trace|, p, start.id, false) && faults == old(faults)
      ensures whole && Quiet(trace, begun, p) ==> p in files && files[p].regular && files[p].bytes == bytes
    {
      var mine, written: nat := start, 0;
      var fails: bool := *;
      while written < |bytes| && !fails
        invariant Continued() && faults == old(faults)
        invariant OnlyTouches(trace, |old(trace)|, {p}) && Stamps(trace, |old(trace)|, p)
        invariant WritesInto(trace, begun, |trace|, p, start.id, false)
        invariant written <= |bytes| && mine.regular && mine.bytes == bytes[..written] && mine.id == start.id
        invariant Quiet(trace, begun, p) ==> p in files && files[p] == mine
      {
        var chunk: nat := *;
        written := if 0 < chunk <= |bytes| - written then written + chunk else |bytes|;
        mine := WriteMore(p, mine, bytes[..written], begun, |old(trace)|);
        fails := *;
      }
      assert bytes[..|bytes|] == bytes;
      whole := !fails;
    }

    /** The name of a failed exclusive write goes, whatever stands there by now. */
    method RemoveFailed(p: Path, ghost id: nat, ghost begun: nat, ghost since: nat)
      requires Valid() && begun < |trace| && WritesInto(trace, begun, |trace|, p, id, false)
      requires since <= |trace| && OnlyTouches(trace, since, {p}) && Stamps(trace, since, p)
      modifies this
      ensures Continued() && OnlyTouches(trace, since, {p}) && Stamps(trace, since, p)
      ensures WritesInto(trace, begun, |trace|, p, id, true)
      ensures Cleaned(files, old(faults), faults, p) && (faults == old(faults) || faults == old(faults) + [Unremoved(p)])
    {
      Interfere();
      var fails: bool := *;
      if fails {
        faults := faults + [Unremoved(p)];
        return;
      }
      if p in files { Act(files - {p}); }
    }

    /** writeContent (desktop/src/spool.ts), and where it failed. */
    method WriteContent(p: Path, bytes: Bytes, exclusive: bool) returns (r: Reply<()>, ghost begun: nat)
      requires Valid()
      modifies this
      ensures Continued()
      ensures OnlyTouches(trace, |old(trace)|, {p}) && Stamps(trace, |old(trace)|, p)
      ensures |old(trace)| <= begun <= |trace|
      ensures AllOutside(trace, |old(trace)|, begun)
      ensures exclusive && begun < |trace| ==> ExclusiveWrite(trace, begun, |trace|, p, r.Ok?)
      ensures r.Ok? ==> begun < |trace|
      ensures r.Exists? ==> exclusive && begun == |trace| && p in files
      ensures !r.Missing?
      // It is on record when it fails, and so is a name that stays although it failed.
      ensures if r.Ok? then faults == old(faults) else FailedSince(old(faults), faults, Unwritten(p))
      ensures exclusive && r.Failed? && begun < |trace| ==> Cleaned(files, old(faults), faults, p)
      ensures r.Ok? && Quiet(trace, begun, p) ==> p in files && files[p].regular && files[p].bytes == bytes
    {
      r, begun := Put(p, bytes, exclusive);
      if !r.Ok? {
        ghost var before := faults;
        faults := faults + [Unwritten(p)];
        FailedSinceEarlier(old(faults), before, faults, Unremoved(p));
        FailedSinceEarlier(old(faults), before, faults, Unwritten(p));
        assert faults[|before|..] == [Unwritten(p)];
      }
    }

    /** One write through the open file: `mine` becomes what all the writes so far make. */
    method WriteMore(p: Path, mine: File, soFar: Bytes, ghost begun: nat, ghost since: nat) returns (grown: File)
      requires Valid() && begun < |trace| && WritesInto(trace, begun, |trace|, p, mine.id, false)
      requires since <= |trace| && OnlyTouches(trace, since, {p}) && Stamps(trace, since, p)
      requires Quiet(trace, begun, p) ==> p in files && files[p] == mine
      modifies `files, `clock, `trace
      ensures Continued() && faults == old(faults)
      ensures OnlyTouches(trace, since, {p}) && Stamps(trace, since, p)
      ensures WritesInto(trace, begun, |trace|, p, mine.id, false)
      ensures grown.regular && grown.bytes == soFar && grown.id == mine.id
      ensures Quiet(trace, begun, p) ==> p in files && files[p] == grown
    {
      ghost var n := |trace|;
      Interfere();
      if Quiet(trace, begun, p) {
        ghost var ps: set<Path> := {};
        Unmoved(trace, files, clock, n, p, ps);
      }
      var at := Timestamp();
      grown := File(true, soFar, at, mine.id);
      if p in files && files[p].id == mine.id {
        var mixed: Bytes := *;
        ghost var early := trace;
        Act(files[p := if files[p] == mine then grown else grown.(bytes := mixed)]);
        QuietOfPrefix(early, trace, begun, |early|, p);
      }
    }

    /** A rename inside one directory: one step, or none. */
    method Rename(p: Path, q: Path) returns (done: bool)
      requires Valid() && p != q
      modifies this
      ensures Continued()
      ensures done ==>
                && |trace| > |old(trace)|
                && AllOutside(trace, |old(trace)|, |trace| - 1)
                && var m := trace[|trace| - 1];
                   && m.actor.Filex? && p in m.before
                   && files == m.after == (m.before - {p})[q := m.before[p]]
      // What nobody touched on the way is as it was when the rename took place.
      ensures done && QuietIn(trace, |old(trace)|, |trace| - 1, p) ==> Same(old(files), trace[|trace| - 1].before, p)
      ensures done && QuietIn(trace, |old(trace)|, |trace| - 1, q) ==> Same(old(files), trace[|trace| - 1].before, q)
      ensures !done ==> AllOutside(trace, |old(trace)|, |trace|)
      ensures faults == if done then old(faults) else old(faults) + [Unrenamed(p, q)]
    {
      Interfere();
      var fails: bool := *;
      if fails || p !in files || (q in files && !files[q].regular) {
        faults := faults + [Unrenamed(p, q)];
        return false;
      }
      ghost var n, none := |old(trace)|, {};
      if Quiet(trace, n, p) { Unmoved(trace, files, clock, n, p, none); }
      if Quiet(trace, n, q) { Unmoved(trace, files, clock, n, q, none); }
      ghost var early := trace;
      Act((files - {p})[q := files[p]]);
      QuietOfPrefix(early, trace, n, |early|, p);
      QuietOfPrefix(early, trace, n, |early|, q);
      return true;
    }

    /** Removes the name, also when it is already gone. */
    method Rm(p: Path)
      requires Valid()
      modifies this
      ensures Continued()
      ensures OnlyTouches(trace, |old(trace)|, {p})
      ensures Cleaned(files, old(faults), faults, p) && (faults == old(faults) || faults == old(faults) + [Unremoved(p)])
    {
      Interfere();
      var fails: bool := *;
      if fails {
        faults := faults + [Unremoved(p)];
        return;
      }
      if p in files { Act(files - {p}); }
    }
  }
}
