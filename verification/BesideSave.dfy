/**
 * A save that came back in another format: written beside the person's document, never over it
 * while it stands, and over a file only when this session made it and nobody has changed it since
 * (writeBesideSave, writeConflictCopy, writtenVersion - desktop/src/openwith.ts).
 */
module BesideSaving {
  import opened Content
  import opened FileSystem
  import opened LocalDrifting
  import opened WritingBack
  import opened BesideNames

  const MOST_NAMES: nat := 99

  /** At some point since step `i` there was a file at `p`. */
  ghost predicate Met(t: Trace, files: Files, i: nat, p: Path) {
    exists k: nat :: i <= k <= |t| && p in FilesAt(t, files, k)
  }

  /** The first of 99 names that nobody has is created with the whole content; a name that
      exists is passed over. `p` is the last name tried, the k-th, `begun` the step that
      created it. */
  method TakeFreeName(disk: Disk, name: nat -> Path, bytes: Bytes)
    returns (r: Reply<()>, p: Path, k: nat, ghost begun: nat)
    requires disk.Valid()
    modifies disk
    ensures disk.Continued() && |old(disk.trace)| <= begun <= |disk.trace|
    ensures AllOutside(disk.trace, |old(disk.trace)|, begun)
    ensures OnlyTouches(disk.trace, begun, {p}) && Stamps(disk.trace, begun, p)
    ensures begun < |disk.trace| ==> ExclusiveWrite(disk.trace, begun, |disk.trace|, p, r.Ok?)
    ensures r.Ok? ==> begun < |disk.trace|
    ensures r.Ok? && Quiet(disk.trace, begun, p) ==> Holds(disk.files, p, Sha256(bytes))
    ensures 1 <= k <= MOST_NAMES && p == name(k)
    ensures forall m :: 1 <= m < k ==> Met(disk.trace, disk.files, |old(disk.trace)|, name(m))
    ensures r.Exists? ==> k == MOST_NAMES
    ensures !r.Ok? ==> FailedSince(old(disk.faults), disk.faults, Unwritten(p))
  {
    k, begun := 1, |disk.trace|;
    while true
      invariant 1 <= k <= MOST_NAMES
      invariant disk.Continued()
      invariant AllOutside(disk.trace, |old(disk.trace)|, |disk.trace|)
      invariant forall m :: 1 <= m < k ==> Met(disk.trace, disk.files, |old(disk.trace)|, name(m))
      decreases MOST_NAMES - k
    {
      p := name(k);
      ghost var early, there, faults := disk.trace, disk.files, disk.faults;
      r, begun := disk.WriteContent(p, bytes, true);
      forall m | 1 <= m < k ensures Met(disk.trace, disk.files, |old(disk.trace)|, name(m)) {
        MetStays(early, there, disk.trace, disk.files, |old(disk.trace)|, name(m));
      }
      forall j | |old(disk.trace)| <= j < begun ensures disk.trace[j].actor.Outside? {
        if j < |early| { assert early[j] == disk.trace[j]; }
      }
      FailedSinceEarlier(old(disk.faults), faults, disk.faults, Unwritten(p));
      if !r.Exists? || k == MOST_NAMES { return; }
      assert p in FilesAt(disk.trace, disk.files, |disk.trace|);
      k := k + 1;
    }
  }

  lemma MetStays(early: Trace, there: Files, t: Trace, files: Files, i: nat, p: Path)
    requires early <= t && i <= |early| && FilesAt(t, files, |early|) == there
    requires Met(early, there, i, p)
    ensures Met(t, files, i, p)
  {
    var h: nat :| i <= h <= |early| && p in FilesAt(early, there, h);
    if h < |early| { assert early[h] == t[h]; }
    assert p in FilesAt(t, files, h);
  }

  /** The version of a file filex just created: its own size and hash. */
  method WrittenVersion(disk: Disk, p: Path, bytes: Bytes) returns (v: LocalVersion)
    requires disk.Valid()
    modifies disk
    ensures disk.Continued() && AllOutside(disk.trace, |old(disk.trace)|, |disk.trace|)
    ensures v.Whole() && v.sha256 == Sha256(bytes) && v.at <= disk.clock
    ensures Quiet(disk.trace, |old(disk.trace)|, p) ==> Same(old(disk.files), disk.files, p)
  {
    ghost var start, none := |disk.trace|, {};
    var st := disk.Stat(p);
    var at := disk.Now();
    if Quiet(disk.trace, start, p) { Unmoved(disk.trace, disk.files, disk.clock, start, p, none); }
    return LocalVersion(|bytes|, if st.Ok? then st.value.mtime else -1.0, Sha256(bytes), at);
  }

  // ── what a session did ───────────────────────────────────────────────

  /** Where a session's saves in another format go. */
  datatype BesideTarget = BesideTarget(ext: string, path: Path, version: LocalVersion)

  datatype Outcome = Created | Updated | Conflict | WriteBackFailed(keptAt: Option<Path>)

  /** One writing of the target: the temporary file's steps, the step that put the content at
      the name, and where its version was recorded. For a created file all three begin at the
      step that created it. */
  datatype Writing = Writing(path: Path, tmp: Path, tmpFrom: nat, at: nat, end: nat)

  /** No other program was at the file, nor at its temporary name, while filex wrote it and
      recorded its version. */
  ghost predicate Undisturbed(t: Trace, w: Writing) {
    QuietIn(t, w.tmpFrom, w.at, w.tmp) && QuietIn(t, w.at, w.end, w.path)
  }

  /** What the session did to a file that is not an aside: an exclusive write of it, in the steps
      from `from` up to `to`; or it replaced it at the step `swap`, looked at from `look` on, the
      session's last writing of it having left `digest`. */
  datatype Deed =
    | Creation(path: Path, name: Name, from: nat, to: nat, whole: bool)
    | Replacement(last: Writing, digest: Digest, look: nat, swap: nat)
  {
    function File(): Path {
      if Creation? then path else last.path
    }

    function Step(): nat {
      if Creation? then from else swap
    }

    /** A content stood there when it was done. */
    predicate Wrote() {
      Creation? ==> whole
    }

    predicate Covers(j: nat, p: Path) {
      p == File() && if Creation? then from <= j < to else j == swap
    }
  }

  /** A creation is an exclusive write of one of the session's own names. A replacement is of what
      the session last wrote there, unless another program was at the file while it was written, or
      between the look and the rename, or gave it a wrong time before the look. */
  ghost predicate Rightful(t: Trace, start: nat, localPath: Path, d: Deed) {
    match d
    case Creation(path, name, from, to, whole) =>
      ProperName(name) && path == NamePath(localPath, name) && start <= from && ExclusiveWrite(t, from, to, path, whole)
    case Replacement(last, digest, look, swap) =>
      && last.tmpFrom <= last.at <= last.end <= look <= swap < |t|
      && AllOutside(t, look, swap)
      && (Undisturbed(t, last) ==> Holds(t[last.end].before, last.path, digest))
      && (HonestIn(t, last.end, look, last.path) && Undisturbed(t, last) && QuietIn(t, look, swap, last.path) ==>
            Holds(t[swap].before, last.path, digest))
  }

  /** The session created `p`, no later than step `at`. */
  ghost predicate Made(deeds: set<Deed>, p: Path, at: nat) {
    exists d :: d in deeds && d.Creation? && d.path == p && d.from <= at
  }

  /** Step `at` is where the session wrote `p` last, as far as the deeds go. */
  ghost predicate LastWrote(deeds: set<Deed>, p: Path, at: nat) {
    && (exists d :: d in deeds && WroteAt(d, p, at))
    && (forall d :: d in deeds && d.Wrote() && d.File() == p ==> d.Step() <= at)
  }

  predicate WroteAt(d: Deed, p: Path, at: nat) {
    d.Wrote() && d.File() == p && d.Step() == at
  }

  /** What a replacement replaces is the session's own: it made the file, and wrote it last where
      the deed says. */
  ghost predicate OfItsOwn(deeds: set<Deed>, d: Deed) {
    d.Replacement? ==>
      && Made(deeds, d.last.path, d.last.at)
      && (exists e :: e in deeds && WroteAt(e, d.last.path, d.last.at))
      && (forall e :: e in deeds && e.Wrote() && e.File() == d.last.path && e.Step() < d.swap ==> e.Step() <= d.last.at)
  }

  ghost predicate Explained(deeds: set<Deed>, j: nat, p: Path) {
    exists d :: d in deeds && d.Covers(j, p)
  }

  /** Every change filex made since step `start` outside its asides is a rightful deed. */
  ghost predicate Accounted(t: Trace, start: nat, localPath: Path, deeds: set<Deed>, asides: set<Path>) {
    && (forall j, p :: start <= j < |t| && t[j].actor.Filex? && p !in asides && !Same(t[j].before, t[j].after, p) ==>
          Explained(deeds, j, p))
    && (forall d :: d in deeds ==> Rightful(t, start, localPath, d) && OfItsOwn(deeds, d))
  }

  // ── what it did not do ───────────────────────────────────────────────

  /** No file is changed that the session did not itself create, at a step when nothing was
      there. */
  lemma OnlyItsOwnFiles(t: Trace, start: nat, localPath: Path, deeds: set<Deed>, asides: set<Path>, j: nat, p: Path)
    requires Accounted(t, start, localPath, deeds, asides)
    requires start <= j < |t| && t[j].actor.Filex? && p !in asides && !Same(t[j].before, t[j].after, p)
    ensures exists i :: start <= i <= j && t[i].actor.Filex? && p !in t[i].before && p in t[i].after
  {
    assert Explained(deeds, j, p);
    var d :| d in deeds && d.Covers(j, p);
    assert Rightful(t, start, localPath, d) && OfItsOwn(deeds, d);
    if d.Replacement? {
      var c :| c in deeds && c.Creation? && c.path == p && c.from <= d.last.at;
      assert Rightful(t, start, localPath, c);
    }
  }

  /** A creation changes no file of another program's - exactly when it succeeds, or other programs
      had left its file at the name when it failed and removed it. */
  lemma CreationsAreTheirOwn(t: Trace, files: Files, clock: real, start: nat, localPath: Path, deeds: set<Deed>, asides: set<Path>, d: Deed)
    requires Chained(t, files, clock) && Accounted(t, start, localPath, deeds, asides) && d in deeds && d.Creation?
    ensures OnlyItsOwn(t, d.from, d.to, d.path)
       <==> d.whole || forall j :: d.from < j < d.to && t[j].actor.Filex? && Removes(t[j], d.path) ==> LeftThere(t, d.from, j, d.path, d.from)
  {
    assert Rightful(t, start, localPath, d);
    OnlyItsOwnUnlessItFails(t, files, clock, d.from, d.to, d.path, d.whole);
  }

  /** As long as a file stands at `p`, filex does not change it. */
  ghost predicate LeftAlone(t: Trace, files: Files, start: nat, p: Path) {
    (forall k: nat :: start <= k <= |t| ==> p in FilesAt(t, files, k)) ==>
      forall j :: start <= j < |t| && t[j].actor.Filex? ==> Same(t[j].before, t[j].after, p)
  }

  /** So the person's document is never touched while it stands. */
  lemma TheDocumentIsLeftAlone(t: Trace, files: Files, start: nat, localPath: Path, deeds: set<Deed>, asides: set<Aside>)
    requires Accounted(t, start, localPath, deeds, AsidePaths(localPath, asides)) && forall a :: a in asides ==> Proper(a)
    ensures LeftAlone(t, files, start, localPath)
  {
    AsidesAreNotTheDocument(localPath, asides);
    if forall k: nat :: start <= k <= |t| ==> localPath in FilesAt(t, files, k) {
      forall i | start <= i < |t| ensures localPath in t[i].before { assert localPath in FilesAt(t, files, i); }
      forall j | start <= j < |t| && t[j].actor.Filex? ensures Same(t[j].before, t[j].after, localPath) {
        if !Same(t[j].before, t[j].after, localPath) {
          OnlyItsOwnFiles(t, start, localPath, deeds, AsidePaths(localPath, asides), j, localPath);
        }
      }
    }
  }

  // ── more steps, more deeds ───────────────────────────────────────────

  lemma RightfulStays(early: Trace, t: Trace, start: nat, localPath: Path, d: Deed)
    requires early <= t && Rightful(early, start, localPath, d)
    ensures Rightful(t, start, localPath, d)
  {
    match d {
      case Creation(path, name, from, to, whole) =>
        assert forall j :: 0 <= j < to ==> early[j] == t[j];
      case Replacement(last, digest, look, swap) =>
        assert forall j :: 0 <= j <= swap ==> early[j] == t[j];
        HonestOfPrefix(early, t, last.end, look, last.path);
        QuietOfPrefix(early, t, last.tmpFrom, last.at, last.tmp);
        QuietOfPrefix(early, t, last.at, last.end, last.path);
        QuietOfPrefix(early, t, look, swap, last.path);
    }
  }

  function With(deeds: set<Deed>, d: Option<Deed>): set<Deed> {
    if d.Some? then deeds + {d.value} else deeds
  }

  /** The deed comes after all there are, and if it is a replacement, of the file written last
      where it says. */
  ghost predicate Next(early: Trace, t: Trace, start: nat, localPath: Path, deeds: set<Deed>, d: Deed) {
    && Rightful(t, start, localPath, d) && |early| <= d.Step()
    && (d.Replacement? ==> Made(deeds, d.last.path, d.last.at) && LastWrote(deeds, d.last.path, d.last.at))
  }

  lemma DeedsStayTheirOwn(early: Trace, t: Trace, start: nat, localPath: Path, deeds: set<Deed>, latest: Deed, d: Deed)
    requires forall e :: e in deeds ==> Rightful(early, start, localPath, e) && OfItsOwn(deeds, e)
    requires Next(early, t, start, localPath, deeds, latest) && d in deeds + {latest}
    ensures OfItsOwn(deeds + {latest}, d)
  {
    var more := deeds + {latest};
    if d.Replacement? {
      var p, at := d.last.path, d.last.at;
      assert Made(deeds, p, at) && exists e :: e in deeds && WroteAt(e, p, at) by { if d in deeds { assert OfItsOwn(deeds, d); } }
      var c :| c in deeds && c.Creation? && c.path == p && c.from <= at;
      var w :| w in deeds && WroteAt(w, p, at);
      assert c in more && w in more;
      forall e | e in more && e.Wrote() && e.File() == p && e.Step() < d.swap ensures e.Step() <= at {
        if d in deeds { assert Rightful(early, start, localPath, d) && OfItsOwn(deeds, d); }
      }
    }
  }

  /** More steps, each of them an aside or the new deed. */
  lemma AccountedGrows(early: Trace, t: Trace, start: nat, localPath: Path, deeds: set<Deed>, asides: set<Path>, d: Option<Deed>, others: set<Path>)
    requires early <= t && start <= |early| && Accounted(early, start, localPath, deeds, asides) && asides <= others
    requires d.Some? ==> Next(early, t, start, localPath, deeds, d.value)
    requires forall j, p :: |early| <= j < |t| && t[j].actor.Filex? && p !in others && !Same(t[j].before, t[j].after, p) ==>
               d.Some? && d.value.Covers(j, p)
    ensures Accounted(t, start, localPath, With(deeds, d), others)
  {
    forall j, p | start <= j < |t| && t[j].actor.Filex? && p !in others && !Same(t[j].before, t[j].after, p)
      ensures Explained(With(deeds, d), j, p)
    {
      if j < |early| {
        assert early[j] == t[j];
        assert Explained(deeds, j, p);
        var e :| e in deeds && e.Covers(j, p);
        assert e in With(deeds, d);
      } else {
        assert d.value in With(deeds, d);
      }
    }
    forall e | e in With(deeds, d) ensures Rightful(t, start, localPath, e) && OfItsOwn(With(deeds, d), e) {
      if e in deeds { RightfulStays(early, t, start, localPath, e); }
      if d.Some? { DeedsStayTheirOwn(early, t, start, localPath, deeds, d.value, e); }
    }
  }

  /** What the session knows of its target: the writing that put the version there, and that
      whatever it wrote there since carries its time. */
  ghost predicate Known(t: Trace, files: Files, clock: real, last: Writing, target: BesideTarget) {
    && last.path == target.path && last.tmpFrom <= last.at <= last.end <= |t|
    && Stamps(t, last.end, target.path)
    && target.version.at <= ClockAt(t, clock, last.end)
    && (Undisturbed(t, last) ==> Holds(FilesAt(t, files, last.end), target.path, target.version.sha256))
  }

  lemma StaysKnown(early: Trace, files: Files, clock: real, t: Trace, now: Files, time: real, last: Writing, target: BesideTarget)
    requires early <= t
    requires FilesAt(t, now, |early|) == files && ClockAt(t, time, |early|) == clock
    requires Known(early, files, clock, last, target) && Stamps(t, |early|, target.path)
    ensures Known(t, now, time, last, target)
  {
    forall j | last.end <= j < |t| && t[j].actor.Filex? ensures StampedAt(t[j], target.path) {
      if j < |early| { assert early[j] == t[j]; }
    }
    QuietOfPrefix(early, t, last.tmpFrom, last.at, last.tmp);
    QuietOfPrefix(early, t, last.at, last.end, last.path);
    if last.end < |early| { assert early[last.end] == t[last.end]; }
  }

  /** A file filex does not touch needs no time. */
  lemma UntouchedIsStamped(t: Trace, i: nat, ps: set<Path>, p: Path)
    requires OnlyTouches(t, i, ps) && p !in ps
    ensures Stamps(t, i, p)
  {
  }

  /** A write-back held to the version the session stands on replaces what it last wrote. */
  lemma ReplacesItsOwn(early: Trace, files: Files, clock: real, t: Trace, start: nat, localPath: Path, last: Writing, target: BesideTarget, look: nat, swap: nat)
    requires early <= t && Chained(early, files, clock)
    requires Known(early, files, clock, last, target)
    requires |early| <= look <= swap < |t| && AllOutside(t, look, swap) && t[|early|].before == files
    requires QuietIn(t, look, swap, target.path) && Believed(t, |early|, look, files, clock, target.path, target.version) ==>
               Holds(t[swap].before, target.path, target.version.sha256)
    ensures Rightful(t, start, localPath, Replacement(last, target.version.sha256, look, swap))
  {
    QuietOfPrefix(early, t, last.tmpFrom, last.at, last.tmp);
    QuietOfPrefix(early, t, last.at, last.end, last.path);
    if last.end < |early| { assert early[last.end] == t[last.end]; }
    if HonestIn(t, last.end, look, last.path) && Undisturbed(t, last) {
      HonestOfPrefix(early, t, last.end, |early|, last.path);
      TrustSurvives(early, files, clock, last.end, target.path, target.version);
    }
  }

  // ── the session's account ────────────────────────────────────────────

  /** What the session did so far: its deeds; what was kept aside, recovery and temporary files of
      its own names and no others; the target's name, and where the session wrote it last. */
  datatype Account = Account(deeds: set<Deed>, asides: set<Aside>, target: Name, last: Writing)

  const Nothing: Account := Account({}, {}, Numbered("", 0), Writing(Path("", ""), Path("", ""), 0, 0, 0))

  /** The account answers for every step since `start`, and knows the target. */
  ghost predicate InOrder(t: Trace, files: Files, clock: real, start: nat, localPath: Path, a: Account, beside: Option<BesideTarget>) {
    && start <= |t| && localPath.base != ""
    && (forall x :: x in a.asides ==> Proper(x))
    && Accounted(t, start, localPath, a.deeds, AsidePaths(localPath, a.asides))
    && (beside.Some? ==>
          && ProperName(a.target) && beside.value.path == NamePath(localPath, a.target)
          && Known(t, files, clock, a.last, beside.value)
          && Made(a.deeds, beside.value.path, a.last.at) && LastWrote(a.deeds, beside.value.path, a.last.at))
  }

  /** The steps after `early` go on from where it ended. */
  ghost predicate GoesOn(early: Trace, files: Files, clock: real, t: Trace, now: Files, time: real) {
    early <= t && FilesAt(t, now, |early|) == files && ClockAt(t, time, |early|) == clock
  }

  /** Nothing but more asides was touched. */
  lemma AsidesKeptInOrder(early: Trace, files: Files, clock: real, t: Trace, now: Files, time: real,
                          start: nat, localPath: Path, a: Account, beside: Option<BesideTarget>, more: set<Aside>)
    requires InOrder(early, files, clock, start, localPath, a, beside) && GoesOn(early, files, clock, t, now, time)
    requires (forall x :: x in more ==> Proper(x)) && OnlyTouches(t, |early|, AsidePaths(localPath, more))
    ensures InOrder(t, now, time, start, localPath, a.(asides := a.asides + more), beside)
  {
    AsidePathsOfBoth(localPath, a.asides, more);
    AccountedGrows(early, t, start, localPath, a.deeds, AsidePaths(localPath, a.asides), None, AsidePaths(localPath, a.asides + more));
    if beside.Some? {
      AsidesAreNoTargets(localPath, more, a.target);
      UntouchedIsStamped(t, |early|, AsidePaths(localPath, more), beside.value.path);
      StaysKnown(early, files, clock, t, now, time, a.last, beside.value);
    }
  }

  /** A file was created, or the attempt failed; the target stands on. */
  lemma CreationInOrder(early: Trace, files: Files, clock: real, t: Trace, now: Files, time: real,
                        start: nat, localPath: Path, a: Account, beside: Option<BesideTarget>, begun: nat, name: Name, p: Path, whole: bool)
    requires InOrder(early, files, clock, start, localPath, a, beside) && GoesOn(early, files, clock, t, now, time)
    requires |early| <= begun <= |t| && AllOutside(t, |early|, begun) && OnlyTouches(t, begun, {p}) && Stamps(t, begun, p)
    requires ProperName(name) && p == NamePath(localPath, name)
    requires begun < |t| ==> ExclusiveWrite(t, begun, |t|, p, whole)
    ensures var d := if begun < |t| then Some(Creation(p, name, begun, |t|, whole)) else None;
            InOrder(t, now, time, start, localPath, a.(deeds := With(a.deeds, d)), if whole then None else beside)
  {
    var d := if begun < |t| then Some(Creation(p, name, begun, |t|, whole)) else None;
    var ps := {p};
    forall j, q | |early| <= j < |t| && t[j].actor.Filex? && q !in AsidePaths(localPath, a.asides) && !Same(t[j].before, t[j].after, q)
      ensures d.Some? && d.value.Covers(j, q)
    {
      assert q in ps;
    }
    AccountedGrows(early, t, start, localPath, a.deeds, AsidePaths(localPath, a.asides), d, AsidePaths(localPath, a.asides));
    if beside.Some? && !whole {
      var path, more := beside.value.path, With(a.deeds, d);
      forall j | |early| <= j < |t| && t[j].actor.Filex? ensures StampedAt(t[j], path) {
        if path !in ps { assert Same(t[j].before, t[j].after, path); }
      }
      StaysKnown(early, files, clock, t, now, time, a.last, beside.value);
      FailureChangesNothing(a.deeds, d, path, a.last.at);
    }
  }

  lemma FailureChangesNothing(deeds: set<Deed>, d: Option<Deed>, p: Path, at: nat)
    requires Made(deeds, p, at) && LastWrote(deeds, p, at) && (d.Some? ==> !d.value.Wrote())
    ensures Made(With(deeds, d), p, at) && LastWrote(With(deeds, d), p, at)
  {
    var c :| c in deeds && c.Creation? && c.path == p && c.from <= at;
    var w :| w in deeds && WroteAt(w, p, at);
    assert c in With(deeds, d) && w in With(deeds, d);
  }

  lemma ReplacementAccounted(early: Trace, files: Files, clock: real, t: Trace, now: Files, time: real,
                             start: nat, localPath: Path, a: Account, target: BesideTarget,
                             more: set<Aside>, tmp: Path, look: nat, swap: nat, digest: Digest)
    requires InOrder(early, files, clock, start, localPath, a, Some(target)) && GoesOn(early, files, clock, t, now, time)
    requires Chained(early, files, clock) && tmp in AsidePaths(localPath, more) && |early| <= look <= swap
    requires SwapsWhole(t, |early|, look, swap, tmp, target.path, digest)
    requires QuietIn(t, look, swap, target.path) && Believed(t, |early|, look, files, clock, target.path, target.version) ==>
               Holds(t[swap].before, target.path, target.version.sha256)
    ensures Accounted(t, start, localPath, a.deeds + {Replacement(a.last, target.version.sha256, look, swap)}, AsidePaths(localPath, a.asides + more))
    ensures var deeds := a.deeds + {Replacement(a.last, target.version.sha256, look, swap)};
            Made(deeds, target.path, swap) && LastWrote(deeds, target.path, swap)
  {
    var d := Replacement(a.last, target.version.sha256, look, swap);
    ReplacesItsOwn(early, files, clock, t, start, localPath, a.last, target, look, swap);
    AsidePathsOfBoth(localPath, a.asides, more);
    var others := AsidePaths(localPath, a.asides + more);
    forall j, q | |early| <= j < |t| && t[j].actor.Filex? && q !in others && !Same(t[j].before, t[j].after, q)
      ensures d.Covers(j, q)
    {
      assert q != tmp;
      OnlyTheSwap(t, |early|, look, swap, tmp, target.path, digest, j, q);
    }
    AccountedGrows(early, t, start, localPath, a.deeds, AsidePaths(localPath, a.asides), Some(d), others);
    NewestIsLast(early, start, localPath, a.deeds, d, target.path, a.last.at);
  }

  lemma OnlyTheSwap(t: Trace, start: nat, look: nat, swap: nat, tmp: Path, target: Path, digest: Digest, j: nat, q: Path)
    requires SwapsWhole(t, start, look, swap, tmp, target, digest)
    requires start <= j < |t| && t[j].actor.Filex? && q != tmp && !Same(t[j].before, t[j].after, q)
    ensures j == swap && q == target
  {
    var ps := {tmp};
    assert q !in ps;
  }

  /** The steps since `early` are a write-back of the target that went through. */
  ghost predicate WentThrough(early: Trace, files: Files, clock: real, t: Trace, now: Files, time: real,
                              target: BesideTarget, tmp: Path, look: nat, swap: nat, version: LocalVersion) {
    && Chained(early, files, clock) && GoesOn(early, files, clock, t, now, time)
    && |early| <= look <= swap && version.at <= time
    && SwapsWhole(t, |early|, look, swap, tmp, target.path, version.sha256)
    && (QuietIn(t, look, swap, target.path) && Believed(t, |early|, look, files, clock, target.path, target.version) ==>
          Holds(t[swap].before, target.path, target.version.sha256))
    && (Quiet(t, swap, target.path) ==> Same(t[swap].after, now, target.path))
  }

  lemma ReplacementKnown(early: Trace, files: Files, clock: real, t: Trace, now: Files, time: real,
                          target: BesideTarget, tmp: Path, look: nat, swap: nat, version: LocalVersion)
    requires WentThrough(early, files, clock, t, now, time, target, tmp, look, swap, version)
    ensures Known(t, now, time, Writing(target.path, tmp, |early|, swap, |t|), target.(version := version))
  {
  }

  /** The target was replaced; what was written on the way is aside. */
  lemma ReplacementInOrder(early: Trace, files: Files, clock: real, t: Trace, now: Files, time: real,
                           start: nat, localPath: Path, a: Account, target: BesideTarget,
                           more: set<Aside>, tmp: Path, look: nat, swap: nat, version: LocalVersion)
    requires InOrder(early, files, clock, start, localPath, a, Some(target))
    requires WentThrough(early, files, clock, t, now, time, target, tmp, look, swap, version)
    requires tmp in AsidePaths(localPath, more) && forall x :: x in more ==> Proper(x)
    ensures InOrder(t, now, time, start, localPath, Replaced(a, target, more, tmp, |early|, look, swap, |t|), Some(target.(version := version)))
  {
    ReplacementAccounted(early, files, clock, t, now, time, start, localPath, a, target, more, tmp, look, swap, version.sha256);
    ReplacementKnown(early, files, clock, t, now, time, target, tmp, look, swap, version);
  }

  function Replaced(a: Account, target: BesideTarget, more: set<Aside>, tmp: Path, from: nat, look: nat, swap: nat, end: nat): Account {
    Account(a.deeds + {Replacement(a.last, target.version.sha256, look, swap)}, a.asides + more, a.target,
      Writing(target.path, tmp, from, swap, end))
  }

  /** A failed save says where the edit is, or nowhere once every place refused it: kept by the
      write-back of the target, when there was one of the format, or of the name the save wants. */
  ghost predicate SaveKept(disk: Disk, since: nat, had: seq<Fault>, keptAt: Option<Path>, localPath: Path, was: Option<BesideTarget>,
                           format: string, suffix: string, fallbackDir: Option<string>, stamp: string, bytes: Bytes)
    reads disk
  {
    || Stashed(disk, since, had, keptAt, RecoveryPath(NamePath(localPath, Numbered(format, 1)), stamp), fallbackDir, stamp, bytes)
    || (was.Some? && was.value.ext == format
        && EditKept(disk, since, had, keptAt, was.value.path, suffix, fallbackDir, stamp, bytes))
  }

  lemma StashedEarlier(disk: Disk, early: nat, since: nat, had: seq<Fault>, middle: seq<Fault>, keptAt: Option<Path>, rec: Path,
                       fallbackDir: Option<string>, stamp: string, bytes: Bytes)
    requires early <= since && had <= middle <= disk.faults
    requires Stashed(disk, since, middle, keptAt, rec, fallbackDir, stamp, bytes)
    ensures Stashed(disk, early, had, keptAt, rec, fallbackDir, stamp, bytes)
  {
    if keptAt.None? { AllRefusedEarlier(had, middle, disk.faults, rec, fallbackDir, stamp); }
  }

  /** The write-back of a session's target, in the session's terms. */
  method WriteTarget(disk: Disk, target: BesideTarget, bytes: Bytes, stamp: string, suffix: string, fallbackDir: Option<string>,
                     ghost localPath: Path, ghost of: Name)
    returns (r: WriteBack, ghost look: nat, ghost swap: nat)
    requires disk.Valid() && |stamp| == 15 && |suffix| == 8 && target.path == NamePath(localPath, of)
    modifies disk
    ensures disk.Continued()
    ensures GoesOn(old(disk.trace), old(disk.files), old(disk.clock), disk.trace, disk.files, disk.clock)
    ensures r.Written? ==>
              && r.version.Whole() && r.version.sha256 == Sha256(bytes)
              && |old(disk.trace)| < |disk.trace|
              && WentThrough(old(disk.trace), old(disk.files), old(disk.clock), disk.trace, disk.files, disk.clock, target,
                   TempPath(target.path, suffix), look, swap, r.version)
    ensures !r.Written? ==>
              OnlyTouches(disk.trace, |old(disk.trace)|, AsidePaths(localPath, WriteBackAsides(of, stamp, suffix, fallbackDir)))
    ensures TempPath(target.path, suffix) in AsidePaths(localPath, WriteBackAsides(of, stamp, suffix, fallbackDir))
    ensures r.WriteBackError? ==>
              EditKept(disk, |old(disk.trace)|, old(disk.faults), r.keptAt, target.path, suffix, fallbackDir, stamp, bytes)
    ensures disk.faults == old(disk.faults)
            && LeftInPeace(disk.trace, |old(disk.trace)|, old(disk.files), target.path, Some(target.version)) ==>
              r.Written?
  {
    r, look, swap := WriteBackAtomic(disk, target.path, bytes, stamp, suffix, fallbackDir, Some(target.version));
    WriteBackAsidesArePaths(localPath, of, stamp, suffix, fallbackDir);
  }

  /** What a write-back to `of` may keep aside. */
  function WriteBackAsides(of: Name, stamp: string, suffix: string, fallbackDir: Option<string>): set<Aside> {
    {Temporary(of, suffix)} + StashAsides(of, fallbackDir, stamp)
  }

  lemma WriteBackAsidesArePaths(localPath: Path, of: Name, stamp: string, suffix: string, fallbackDir: Option<string>)
    ensures AsidePaths(localPath, WriteBackAsides(of, stamp, suffix, fallbackDir))
         == {TempPath(NamePath(localPath, of), suffix)} + StashPaths(RecoveryPath(NamePath(localPath, of), stamp), fallbackDir, stamp)
  {
    AsidePathsOfBoth(localPath, {Temporary(of, suffix)}, StashAsides(of, fallbackDir, stamp));
    StashAsidesArePaths(localPath, of, fallbackDir, stamp);
    var one := {Temporary(of, suffix)};
    assert Temporary(of, suffix) in one;
    assert AsidePaths(localPath, one) == {TempPath(NamePath(localPath, of), suffix)};
  }

  /** A deed after all others is where the session wrote its file last. */
  lemma NewestIsLast(early: Trace, start: nat, localPath: Path, deeds: set<Deed>, d: Deed, p: Path, was: nat)
    requires forall e :: e in deeds ==> Rightful(early, start, localPath, e)
    requires |early| <= d.Step() && d.Wrote() && d.File() == p
    requires d.Replacement? ==> Made(deeds, p, was) && was <= d.Step()
    ensures Made(deeds + {d}, p, d.Step()) && LastWrote(deeds + {d}, p, d.Step())
  {
    assert d in deeds + {d} && WroteAt(d, p, d.Step());
    if d.Replacement? {
      var c :| c in deeds && c.Creation? && c.path == p && c.from <= was;
      assert c in deeds + {d};
    }
    forall e | e in deeds + {d} && e.Wrote() && e.File() == p ensures e.Step() <= d.Step() {
      if e in deeds { assert Rightful(early, start, localPath, e); }
    }
  }

  /** A created file becomes the target, once its version was recorded. */
  lemma CreatedInOrder(early: Trace, files: Files, clock: real, made: Trace, there: Files, middle: real,
                       t: Trace, now: Files, time: real, start: nat, localPath: Path, a: Account, beside: Option<BesideTarget>,
                       begun: nat, name: Name, target: BesideTarget)
    requires InOrder(early, files, clock, start, localPath, a, beside) && GoesOn(early, files, clock, made, there, middle)
    requires GoesOn(made, there, middle, t, now, time) && AllOutside(t, |made|, |t|)
    requires |early| <= begun < |made| && AllOutside(made, |early|, begun) && OnlyTouches(made, begun, {target.path}) && Stamps(made, begun, target.path)
    requires ExclusiveWrite(made, begun, |made|, target.path, true)
    requires ProperName(name) && target.path == NamePath(localPath, name) && target.version.at <= time
    requires QuietIn(t, begun, |t|, target.path) ==> Holds(now, target.path, target.version.sha256)
    ensures InOrder(t, now, time, start, localPath, WithTarget(a, begun, |made|, |t|, name, target.path), Some(target))
  {
    CreatedAccounted(early, files, clock, made, there, middle, t, now, time, start, localPath, a, beside, begun, name, target.path);
    NewestIsLast(early, start, localPath, a.deeds, Creation(target.path, name, begun, |made|, true), target.path, begun);
  }

  lemma CreatedAccounted(early: Trace, files: Files, clock: real, made: Trace, there: Files, middle: real,
                         t: Trace, now: Files, time: real, start: nat, localPath: Path, a: Account, beside: Option<BesideTarget>,
                         begun: nat, name: Name, p: Path)
    requires InOrder(early, files, clock, start, localPath, a, beside) && GoesOn(early, files, clock, made, there, middle)
    requires GoesOn(made, there, middle, t, now, time) && AllOutside(t, |made|, |t|)
    requires |early| <= begun < |made| && AllOutside(made, |early|, begun) && OnlyTouches(made, begun, {p}) && Stamps(made, begun, p)
    requires ExclusiveWrite(made, begun, |made|, p, true) && ProperName(name) && p == NamePath(localPath, name)
    ensures Accounted(t, start, localPath, a.deeds + {Creation(p, name, begun, |made|, true)}, AsidePaths(localPath, a.asides))
  {
    CreationInOrder(early, files, clock, made, there, middle, start, localPath, a, beside, begun, name, p, true);
    var b := a.(deeds := a.deeds + {Creation(p, name, begun, |made|, true)});
    AsidesKeptInOrder(made, there, middle, t, now, time, start, localPath, b, None, {});
    assert b.asides + {} == b.asides;
  }

  function WithTarget(a: Account, from: nat, to: nat, end: nat, name: Name, p: Path): Account {
    Account(a.deeds + {Creation(p, name, from, to, true)}, a.asides, name, Writing(p, p, from, from, end))
  }

  /** What is kept aside now is what was, and at most `more`. */
  predicate OnlyMore(was: set<Aside>, now: set<Aside>, more: set<Aside>) {
    was <= now <= was + more
  }

  lemma OnlyMoreOfBoth(was: set<Aside>, middle: set<Aside>, now: set<Aside>, first: set<Aside>, second: set<Aside>)
    requires OnlyMore(was, middle, first) && OnlyMore(middle, now, second)
    ensures OnlyMore(was, now, first + second)
  {
  }

  // ── the session ──────────────────────────────────────────────────────

  class BesideSession {
    const disk: Disk
    /** The person's document. */
    const localPath: Path
    var beside: Option<BesideTarget>
    ghost const start: nat
    ghost var account: Account

    ghost predicate Valid()
      reads this, disk
    {
      disk.Valid() && InOrder(disk.trace, disk.files, disk.clock, start, localPath, account, beside)
    }

    constructor (disk: Disk, localPath: Path)
      requires disk.Valid() && localPath.base != ""
      ensures Valid() && fresh(this) && beside == None && this.disk == disk && this.localPath == localPath
      ensures start == |disk.trace| && account == Nothing
    {
      this.disk, this.localPath, beside := disk, localPath, None;
      start, account := |disk.trace|, Nothing;
    }

    /** Other programs change nothing of what the session stands on. */
    method Meanwhile()
      requires Valid()
      modifies disk
      ensures Valid() && old(disk.trace) <= disk.trace && AllOutside(disk.trace, |old(disk.trace)|, |disk.trace|)
    {
      ghost var early, files, clock := disk.trace, disk.files, disk.clock;
      disk.Interfere();
      AsidesKeptInOrder(early, files, clock, disk.trace, disk.files, disk.clock, start, localPath, account, beside, {});
      assert account.(asides := account.asides + {}) == account;
    }

    /** Over the file this session made, held to the version it wrote there. */
    method Update(bytes: Bytes, stamp: string, suffix: string, fallbackDir: Option<string>) returns (r: WriteBack)
      requires Valid() && beside.Some? && |stamp| == 15 && |suffix| == 8 && '.' !in stamp
      modifies this, disk
      ensures Valid() && disk.Continued()
      ensures account.asides == old(account.asides) + WriteBackAsides(old(account.target), stamp, suffix, fallbackDir)
      ensures account.target == old(account.target)
      ensures r.Written? ==>
                && beside == Some(old(beside.value).(version := r.version))
                && r.version.Whole() && r.version.sha256 == Sha256(bytes)
                && old(|disk.trace|) <= account.last.at < |disk.trace|
      ensures !r.Written? ==> beside == old(beside) && account.deeds == old(account.deeds)
      ensures r.WriteBackError? ==>
                EditKept(disk, |old(disk.trace)|, old(disk.faults), r.keptAt, old(beside.value.path), suffix, fallbackDir, stamp, bytes)
      ensures disk.faults == old(disk.faults)
              && LeftInPeace(disk.trace, |old(disk.trace)|, old(disk.files), old(beside.value.path), Some(old(beside.value.version))) ==>
                r.Written?
    {
      ghost var early, files, clock := disk.trace, disk.files, disk.clock;
      ghost var look, swap;
      var target := beside.value;
      r, look, swap := WriteTarget(disk, target, bytes, stamp, suffix, fallbackDir, localPath, account.target);
      account := AfterUpdate(early, files, clock, disk.trace, disk.files, disk.clock, start, localPath, account, target,
        WriteBackAsides(account.target, stamp, suffix, fallbackDir), TempPath(target.path, suffix), look, swap, r);
      if r.Written? { beside := Some(target.(version := r.version)); }
    }

    /** A new file at the first free name, and the session's saves go there from here on. An
        attempt that fails is a deed too, and the target stays what it was. */
    method Create(kind: nat -> Name, bytes: Bytes, format: string) returns (r: Reply<()>, k: nat)
      requires Valid() && forall n :: ProperName(kind(n))
      modifies this, disk
      ensures Valid() && disk.Continued()
      ensures 1 <= k <= MOST_NAMES
      ensures account.asides == old(account.asides)
      ensures r.Ok? ==>
                && beside.Some? && beside.value.ext == format && beside.value.path == NamePath(localPath, kind(k))
                && beside.value.version.Whole() && beside.value.version.sha256 == Sha256(bytes)
                && old(|disk.trace|) <= account.last.at < |disk.trace| && account.target == kind(k)
                && beside.value.path !in disk.trace[account.last.at].before
      ensures !r.Ok? ==>
                && beside == old(beside) && account.target == old(account.target)
                && FailedSince(old(disk.faults), disk.faults, Unwritten(NamePath(localPath, kind(k))))
    {
      ghost var early, files, clock := disk.trace, disk.files, disk.clock;
      var lp, p := localPath, localPath;
      ghost var begun;
      r, p, k, begun := TakeFreeName(disk, (n: nat) => NamePath(lp, kind(n)), bytes);
      ghost var made, there, time := disk.trace, disk.files, disk.clock;
      if !r.Ok? {
        CreationInOrder(early, files, clock, made, there, time, start, localPath, account, beside, begun, kind(k), p, false);
        account := account.(deeds := With(account.deeds, if begun < |made| then Some(Creation(p, kind(k), begun, |made|, false)) else None));
        return;
      }
      var version := WrittenVersion(disk, p, bytes);
      var target := BesideTarget(format, p, version);
      QuietOfPrefix(made, disk.trace, begun, |made|, p);
      CreatedInOrder(early, files, clock, made, there, time, disk.trace, disk.files, disk.clock, start, localPath,
        account, beside, begun, kind(k), target);
      account := WithTarget(account, begun, |made|, |disk.trace|, kind(k), p);
      beside := Some(target);
    }

    /** The edit is kept in a recovery file of the name, an aside. */
    method KeepAside(bytes: Bytes, of: Name, fallbackDir: Option<string>, stamp: string) returns (kept: Option<Path>)
      requires Valid() && ProperName(of) && '.' !in stamp
      modifies disk, `account
      ensures Valid() && disk.Continued()
      ensures account == old(account).(asides := old(account.asides) + StashAsides(of, fallbackDir, stamp))
      ensures Stashed(disk, |old(disk.trace)|, old(disk.faults), kept, RecoveryPath(NamePath(localPath, of), stamp), fallbackDir, stamp, bytes)
    {
      ghost var early, files, clock := disk.trace, disk.files, disk.clock;
      ghost var more := StashAsides(of, fallbackDir, stamp);
      kept := Stash(disk, bytes, RecoveryPath(NamePath(localPath, of), stamp), fallbackDir, stamp);
      StashAsidesArePaths(localPath, of, fallbackDir, stamp);
      AsidesKeptInOrder(early, files, clock, disk.trace, disk.files, disk.clock, start, localPath, account, beside, more);
      account := account.(asides := account.asides + more);
    }

    /**
     * One save in the format `format`. Other programs go on before each of its steps, the first
     * included.
     * `Valid()` is the promise over the whole run of saves: see Accounted. What is kept aside is
     * of the target's name, when there was one, and of the name the save wants. A new file goes
     * by the k-th name.
     */
    method Save(format: string, bytes: Bytes, stamp: string, suffix: string, fallbackDir: Option<string>)
      returns (outcome: Outcome, k: nat)
      requires Valid() && |stamp| == 15 && |suffix| == 8 && '.' !in stamp && '.' !in format
      modifies this, disk
      ensures Valid() && old(disk.trace) <= disk.trace && old(disk.faults) <= disk.faults
      ensures OnlyMore(old(account.asides), account.asides,
                WriteBackAsides(old(account.target), stamp, suffix, fallbackDir) + StashAsides(Numbered(format, 1), fallbackDir, stamp))
      // As long as the person's document stands, it is not touched.
      ensures LeftAlone(disk.trace, disk.files, start, localPath)
      ensures !outcome.WriteBackFailed? ==> HoldsSave(format, bytes, old(|disk.trace|))
      // With the target as the session left it, left in peace, and no call failing, it is written.
      ensures old(beside).Some? && old(beside).value.ext == format && disk.faults == old(disk.faults)
              && LeftInPeace(disk.trace, |old(disk.trace)|, old(disk.files), old(beside).value.path, Some(old(beside).value.version)) ==>
                outcome.Updated?
      // A save in a new format fails only at the name it would take.
      ensures outcome.WriteBackFailed? && (old(beside).None? || old(beside).value.ext != format) ==>
                FailedSince(old(disk.faults), disk.faults, Unwritten(NamePath(localPath, Numbered(format, k))))
      ensures outcome.Updated? ==>
                old(beside).Some? && old(beside).value.ext == format && beside.value.path == old(beside).value.path
      ensures outcome.Created? ==>
                && (old(beside).None? || old(beside).value.ext != format)
                && 1 <= k <= MOST_NAMES && account.target == Numbered(format, k)
      ensures outcome.Conflict? ==>
                && old(beside).Some? && old(beside).value.ext == format
                && 1 <= k <= MOST_NAMES && account.target == Conflicted(format, stamp, k)
      ensures outcome.WriteBackFailed? ==>
                beside == old(beside)
                && SaveKept(disk, |old(disk.trace)|, old(disk.faults), outcome.keptAt, localPath, old(beside), format, suffix, fallbackDir, stamp, bytes)
    {
      if beside.Some? && beside.value.ext == format {
        outcome, k := SaveAgain(format, bytes, stamp, suffix, fallbackDir);
      } else {
        outcome, k := SaveNew(format, (n: nat) => Numbered(format, n), bytes, stamp, fallbackDir);
      }
      TheDocumentIsLeftAlone(disk.trace, disk.files, start, localPath, account.deeds, account.asides);
    }

    /** The target is of the format: over it, or a conflict copy when somebody changed it. */
    method SaveAgain(format: string, bytes: Bytes, stamp: string, suffix: string, fallbackDir: Option<string>)
      returns (outcome: Outcome, k: nat)
      requires Valid() && |stamp| == 15 && |suffix| == 8 && '.' !in stamp && '.' !in format
      requires beside.Some? && beside.value.ext == format
      modifies this, disk
      ensures Valid() && old(disk.trace) <= disk.trace && old(disk.faults) <= disk.faults
      ensures OnlyMore(old(account.asides), account.asides,
                WriteBackAsides(old(account.target), stamp, suffix, fallbackDir) + StashAsides(Numbered(format, 1), fallbackDir, stamp))
      ensures disk.faults == old(disk.faults)
              && LeftInPeace(disk.trace, |old(disk.trace)|, old(disk.files), old(beside).value.path, Some(old(beside).value.version)) ==>
                outcome.Updated?
      ensures !outcome.Created?
      ensures !outcome.WriteBackFailed? ==> HoldsSave(format, bytes, old(|disk.trace|))
      ensures outcome.Updated? ==> beside.value.path == old(beside).value.path
      ensures outcome.Conflict? ==> 1 <= k <= MOST_NAMES && account.target == Conflicted(format, stamp, k)
      ensures outcome.WriteBackFailed? ==>
                beside == old(beside)
                && SaveKept(disk, |old(disk.trace)|, old(disk.faults), outcome.keptAt, localPath, old(beside), format, suffix, fallbackDir, stamp, bytes)
    {
      ghost var was, update := account.asides, WriteBackAsides(account.target, stamp, suffix, fallbackDir);
      ghost var create := StashAsides(Numbered(format, 1), fallbackDir, stamp);
      k := 0;
      var r := Update(bytes, stamp, suffix, fallbackDir);
      ghost var updated := disk.trace;
      if r.Written? {
        outcome := Updated;
      } else if r.WriteBackError? {
        outcome := WriteBackFailed(r.keptAt);
      } else {
        ghost var later, faults := |disk.trace|, disk.faults;
        outcome, k := SaveNew(format, (n: nat) => Conflicted(format, stamp, n), bytes, stamp, fallbackDir);
        OnlyMoreOfBoth(was, was + update, account.asides, update, create);
        QuietOfPrefix(updated, disk.trace, |old(disk.trace)|, later, old(beside).value.path);
        if outcome.Created? {
          outcome := Conflict;
        } else {
          StashedEarlier(disk, |old(disk.trace)|, later, old(disk.faults), faults, outcome.keptAt,
            RecoveryPath(NamePath(localPath, Numbered(format, 1)), stamp), fallbackDir, stamp, bytes);
        }
      }
    }

    /** A new file; when there can be none, the edit is kept aside of the name the save wants. */
    method SaveNew(format: string, kind: nat -> Name, bytes: Bytes, stamp: string, fallbackDir: Option<string>) returns (outcome: Outcome, k: nat)
      requires Valid() && '.' !in stamp && '.' !in format && forall n :: ProperName(kind(n))
      modifies this, disk
      ensures Valid() && old(disk.trace) <= disk.trace && old(disk.faults) <= disk.faults
      ensures OnlyMore(old(account.asides), account.asides, StashAsides(Numbered(format, 1), fallbackDir, stamp))
      ensures outcome.Created? || outcome.WriteBackFailed?
      ensures outcome.Created? ==>
                HoldsSave(format, bytes, old(|disk.trace|)) && 1 <= k <= MOST_NAMES && account.target == kind(k)
      // It failed at the k-th name.
      ensures outcome.WriteBackFailed? ==>
                && beside == old(beside)
                && FailedSince(old(disk.faults), disk.faults, Unwritten(NamePath(localPath, kind(k))))
                && Stashed(disk, |old(disk.trace)|, old(disk.faults), outcome.keptAt,
                     RecoveryPath(NamePath(localPath, Numbered(format, 1)), stamp), fallbackDir, stamp, bytes)
    {
      var made;
      made, k := Create(kind, bytes, format);
      if made.Ok? { return Created, k; }
      ghost var later, faults := |disk.trace|, disk.faults;
      var kept := KeepAside(bytes, Numbered(format, 1), fallbackDir, stamp);
      StashedEarlier(disk, |old(disk.trace)|, later, old(disk.faults), faults, kept, RecoveryPath(NamePath(localPath, Numbered(format, 1)), stamp),
        fallbackDir, stamp, bytes);
      FailedSinceEarlier(old(disk.faults), faults, disk.faults, Unwritten(NamePath(localPath, kind(k))));
      return WriteBackFailed(kept), k;
    }

    /** The target is of the format, its version is of the bytes, written since the step. */
    ghost predicate HoldsSave(format: string, bytes: Bytes, since: nat)
      reads this, disk
    {
      && beside.Some? && beside.value.ext == format
      && beside.value.version.Whole() && beside.value.version.sha256 == Sha256(bytes)
      && since <= account.last.at < |disk.trace|
    }
  }

  /** The account after a write-back of the target, whatever came of it. */
  lemma AfterUpdate(early: Trace, files: Files, clock: real, t: Trace, now: Files, time: real,
                    start: nat, localPath: Path, a: Account, target: BesideTarget,
                    more: set<Aside>, tmp: Path, look: nat, swap: nat, r: WriteBack)
    returns (b: Account)
    requires InOrder(early, files, clock, start, localPath, a, Some(target)) && GoesOn(early, files, clock, t, now, time)
    requires tmp in AsidePaths(localPath, more) && forall x :: x in more ==> Proper(x)
    requires if r.Written? then WentThrough(early, files, clock, t, now, time, target, tmp, look, swap, r.version)
             else OnlyTouches(t, |early|, AsidePaths(localPath, more))
    ensures InOrder(t, now, time, start, localPath, b, Some(if r.Written? then target.(version := r.version) else target))
    ensures b.asides == a.asides + more && b.target == a.target
    ensures if r.Written? then |early| <= b.last.at < |t| else b.deeds == a.deeds
  {
    if r.Written? {
      ReplacementInOrder(early, files, clock, t, now, time, start, localPath, a, target, more, tmp, look, swap, r.version);
      b := Replaced(a, target, more, tmp, |early|, look, swap, |t|);
    } else {
      AsidesKeptInOrder(early, files, clock, t, now, time, start, localPath, a, Some(target), more);
      b := a.(asides := a.asides + more);
    }
  }
}
