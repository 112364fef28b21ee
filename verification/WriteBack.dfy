/**
 * Putting filex's version of a document on the local disk: over the document (writeBackAtomic),
 * or kept beside it when that cannot be done (stash) - desktop/src/openwith.ts.
 */
module WritingBack {
  import opened Content
  import opened FileSystem
  import opened LocalDrifting
  import opened Text

  // ── names beside the document ────────────────────────────────────────

  function Stem(base: string): string {
    if LastDot(base) > 0 then base[..LastDot(base)] else base
  }

  function Ext(base: string): string {
    if LastDot(base) > 0 then base[LastDot(base)..] else ""
  }

  /** A file named after the document, beside it, its extension last. */
  function BesidePath(target: Path, tag: string): Path {
    Path(target.dir, Stem(target.base) + tag + Ext(target.base))
  }

  function RecoveryPath(target: Path, stamp: string): Path {
    BesidePath(target, ".filex-recovered-" + stamp)
  }

  function TempPath(target: Path, suffix: string): Path {
    Path(target.dir, "." + target.base + ".filex-openwith-" + suffix)
  }

  function FallbackPath(dir: string, stamp: string, preferred: Path): Path {
    Path(dir, stamp + "-" + preferred.base)
  }

  /** The names a write-back makes are none of them the document's, and the temporary name
      is not the recovery name: each is longer than the one before. A stamp is 15 characters
      (20261006T101500), the temporary suffix 8 (four random bytes in hex). */
  lemma NamesApart(target: Path, stamp: string, suffix: string, fallbackDir: string)
    requires |stamp| == 15 && |suffix| == 8
    ensures |RecoveryPath(target, stamp).base| == |target.base| + 32
    ensures |TempPath(target, suffix).base| == |target.base| + 25
    ensures |FallbackPath(fallbackDir, stamp, RecoveryPath(target, stamp)).base| == |target.base| + 48
  {
  }

  // ── the last resort ──────────────────────────────────────────────────

  /** Every name a stash may write to. */
  function StashPaths(preferred: Path, fallbackDir: Option<string>, stamp: string): set<Path> {
    {preferred} + if fallbackDir.Some? then {FallbackPath(fallbackDir.value, stamp, preferred)} else {}
  }

  /** Since `had` every place a stash has was tried, and refused. */
  ghost predicate AllRefused(had: seq<Fault>, now: seq<Fault>, preferred: Path, fallbackDir: Option<string>, stamp: string) {
    forall p :: p in StashPaths(preferred, fallbackDir, stamp) ==> FailedSince(had, now, Unwritten(p))
  }

  lemma AllRefusedEarlier(had: seq<Fault>, middle: seq<Fault>, now: seq<Fault>, preferred: Path, fallbackDir: Option<string>, stamp: string)
    requires had <= middle <= now && AllRefused(middle, now, preferred, fallbackDir, stamp)
    ensures AllRefused(had, now, preferred, fallbackDir, stamp)
  {
    forall p | p in StashPaths(preferred, fallbackDir, stamp) ensures FailedSince(had, now, Unwritten(p)) {
      FailedSinceEarlier(had, middle, now, Unwritten(p));
    }
  }

  /** The edit is where the outcome says it is, or another program was at that file. */
  ghost predicate KeptAt(disk: Disk, since: nat, p: Path, bytes: Bytes)
    reads disk
  {
    Quiet(disk.trace, since, p) ==> Holds(disk.files, p, Sha256(bytes))
  }

  method Stash(disk: Disk, bytes: Bytes, preferred: Path, fallbackDir: Option<string>, stamp: string)
    returns (kept: Option<Path>)
    requires disk.Valid()
    modifies disk
    ensures disk.Continued()
    ensures OnlyTouches(disk.trace, |old(disk.trace)|, StashPaths(preferred, fallbackDir, stamp))
    ensures kept.Some? ==>
              && kept.value in StashPaths(preferred, fallbackDir, stamp)
              && KeptAt(disk, |old(disk.trace)|, kept.value, bytes)
    // Nowhere only after every place there is refused.
    ensures kept.None? ==> AllRefused(old(disk.faults), disk.faults, preferred, fallbackDir, stamp)
  {
    var first, _ := disk.WriteContent(preferred, bytes, false);
    if first.Ok? { return Some(preferred); }
    if fallbackDir.None? { return None; }
    ghost var before := disk.faults;
    var p := FallbackPath(fallbackDir.value, stamp, preferred);
    var second, _ := disk.WriteContent(p, bytes, false);
    FailedSinceEarlier(old(disk.faults), before, disk.faults, Unwritten(preferred));
    FailedSinceEarlier(old(disk.faults), before, disk.faults, Unwritten(p));
    return if second.Ok? then Some(p) else None;
  }

  // ── over the document ────────────────────────────────────────────────

  datatype WriteBack =
    | Written(version: LocalVersion)
    | LocalChanged(current: Option<LocalVersion>)
    | WriteBackError(keptAt: Option<Path>)

  /** Step `swap` gives `target`, in one go, the file that stood at `tmp`. */
  ghost predicate Swapped(t: Trace, swap: nat, tmp: Path, target: Path) {
    && swap < |t|
    && t[swap].actor.Filex?
    && tmp in t[swap].before
    && t[swap].after == (t[swap].before - {tmp})[target := t[swap].before[tmp]]
  }

  /** The temporary file was moved to the recovery name, or could not be. */
  predicate KeptBeside(files: Files, had: seq<Fault>, now: seq<Fault>, tmp: Path, rec: Path, kept: Path) {
    (kept == rec && tmp !in files) || (kept == tmp && FailedSince(had, now, Unrenamed(tmp, rec)))
  }

  /** The rename was refused: the temporary file goes to the recovery name, or stays. */
  method KeepTemp(disk: Disk, tmp: Path, rec: Path, ghost digest: Digest) returns (kept: Path)
    requires disk.Valid() && tmp != rec
    modifies disk
    ensures disk.Continued()
    ensures OnlyTouches(disk.trace, |old(disk.trace)|, {tmp, rec})
    // It stays where it is only when it could not be moved.
    ensures kept == rec || (kept == tmp && FailedSince(old(disk.faults), disk.faults, Unrenamed(tmp, rec)))
    ensures kept == rec ==> tmp !in disk.files
    ensures Holds(old(disk.files), tmp, digest)
            && Quiet(disk.trace, |old(disk.trace)|, tmp) && Quiet(disk.trace, |old(disk.trace)|, kept) ==>
              Holds(disk.files, kept, digest)
  {
    ghost var start, none := |disk.trace|, {};
    var moved := disk.Rename(tmp, rec);
    if moved { return rec; }
    if Quiet(disk.trace, start, tmp) { Unmoved(disk.trace, disk.files, disk.clock, start, tmp, none); }
    return tmp;
  }

  /** The version filex left at `target`: its own size and hash, the file's timestamp. */
  method VersionLeft(disk: Disk, target: Path, bytes: Bytes) returns (v: LocalVersion)
    requires disk.Valid()
    modifies disk
    ensures disk.Continued() && AllOutside(disk.trace, |old(disk.trace)|, |disk.trace|)
    ensures v.Whole() && v.sha256 == Sha256(bytes) && v.at <= disk.clock
    ensures Quiet(disk.trace, |old(disk.trace)|, target) ==> Same(old(disk.files), disk.files, target)
  {
    ghost var start, none := |disk.trace|, {};
    var at := disk.Now();
    var st := disk.Stat(target);
    if Quiet(disk.trace, start, target) { Unmoved(disk.trace, disk.files, disk.clock, start, target, none); }
    return LocalVersion(|bytes|, if st.Ok? then st.value.mtime else -1.0, Sha256(bytes), at);
  }

  /** The rename over the document and the version it left: the last part of a write-back. */
  method Replace(disk: Disk, tmp: Path, target: Path, bytes: Bytes, rec: Path)
    returns (r: WriteBack, ghost swap: nat)
    requires disk.Valid() && tmp != target && tmp != rec && target != rec
    modifies disk
    ensures disk.Continued() && |old(disk.trace)| <= swap <= |disk.trace|
    ensures r.Written? || (r.WriteBackError? && r.keptAt.Some? && FailedSince(old(disk.faults), disk.faults, Unrenamed(tmp, target)))
    // One step of filex's own, and it is the swap; or the target is not touched.
    ensures r.Written? ==>
              && AllOutside(disk.trace, |old(disk.trace)|, swap)
              && AllOutside(disk.trace, swap + 1, |disk.trace|)
              && Swapped(disk.trace, swap, tmp, target)
              && (QuietIn(disk.trace, |old(disk.trace)|, swap, tmp) ==> Same(old(disk.files), disk.trace[swap].before, tmp))
              && (QuietIn(disk.trace, |old(disk.trace)|, swap, target) ==> Same(old(disk.files), disk.trace[swap].before, target))
              && r.version.Whole() && r.version.sha256 == Sha256(bytes) && r.version.at <= disk.clock
              && (Quiet(disk.trace, swap, target) ==> Same(disk.trace[swap].after, disk.files, target))
    ensures r.WriteBackError? ==>
              && swap == |disk.trace|
              && OnlyTouches(disk.trace, |old(disk.trace)|, {tmp, rec})
              && KeptBeside(disk.files, old(disk.faults), disk.faults, tmp, rec, r.keptAt.value)
              && (Holds(old(disk.files), tmp, Sha256(bytes))
                  && Quiet(disk.trace, |old(disk.trace)|, tmp) && Quiet(disk.trace, |old(disk.trace)|, r.keptAt.value) ==>
                    Holds(disk.files, r.keptAt.value, Sha256(bytes)))
  {
    ghost var start, none := |disk.trace|, {};
    var swapped := disk.Rename(tmp, target);
    ghost var early, refused := disk.trace, disk.faults;
    if !swapped {
      if Quiet(disk.trace, start, tmp) { Unmoved(disk.trace, disk.files, disk.clock, start, tmp, none); }
      var kept := KeepTemp(disk, tmp, rec, Sha256(bytes));
      QuietOfPrefix(early, disk.trace, start, |early|, tmp);
      TouchesOfBoth(early, disk.trace, start, {}, {tmp, rec});
      FailedSinceEarlier(old(disk.faults), refused, disk.faults, Unrenamed(tmp, target));
      FailedSinceEarlier(old(disk.faults), refused, disk.faults, Unrenamed(tmp, rec));
      return WriteBackError(Some(kept)), |disk.trace|;
    }
    swap := |disk.trace| - 1;
    var v := VersionLeft(disk, target, bytes);
    QuietOfPrefix(early, disk.trace, start, swap, tmp);
    QuietOfPrefix(early, disk.trace, start, swap, target);
    return Written(v), swap;
  }

  /** The whole content in the temporary file, or the temporary name cleaned up. */
  method MakeTemp(disk: Disk, tmp: Path, bytes: Bytes) returns (made: bool)
    requires disk.Valid()
    modifies disk
    ensures disk.Continued() && OnlyTouches(disk.trace, |old(disk.trace)|, {tmp})
    ensures made ==> disk.faults == old(disk.faults)
    ensures !made ==> Cleaned(disk.files, old(disk.faults), disk.faults, tmp) && FailedSince(old(disk.faults), disk.faults, Unwritten(tmp))
    ensures made && Quiet(disk.trace, |old(disk.trace)|, tmp) ==> Holds(disk.files, tmp, Sha256(bytes))
  {
    var wrote, _ := disk.WriteContent(tmp, bytes, true);
    if wrote.Ok? { return true; }
    ghost var early, refused := disk.trace, disk.faults;
    disk.Rm(tmp);
    TouchesOfBoth(early, disk.trace, |old(disk.trace)|, {tmp}, {tmp});
    FailedSinceEarlier(old(disk.faults), refused, disk.faults, Unwritten(tmp));
    FailedSinceEarlier(old(disk.faults), refused, disk.faults, Unremoved(tmp));
    return false;
  }

  /** The document must still be there; then the temporary file is made. A document that is gone is
      not brought back. */
  method Prepare(disk: Disk, target: Path, tmp: Path, bytes: Bytes) returns (made: bool)
    requires disk.Valid() && tmp != target
    modifies disk
    ensures disk.Continued() && OnlyTouches(disk.trace, |old(disk.trace)|, {tmp})
    ensures made && Quiet(disk.trace, |old(disk.trace)|, tmp) ==> Holds(disk.files, tmp, Sha256(bytes))
    ensures made ==> disk.faults == old(disk.faults)
    ensures made && Quiet(disk.trace, |old(disk.trace)|, target) ==> Stands(old(disk.files), target)
    // Not made: the document was gone, or a call failed; and nothing is left at the temporary name.
    ensures !made && Quiet(disk.trace, |old(disk.trace)|, target) && Stands(old(disk.files), target) ==> disk.faults != old(disk.faults)
    ensures !made && tmp !in old(disk.files) && Quiet(disk.trace, |old(disk.trace)|, tmp) ==>
              Cleaned(disk.files, old(disk.faults), disk.faults, tmp)
  {
    ghost var start, none := |disk.trace|, {};
    var st := disk.Stat(target);
    if Quiet(disk.trace, start, target) { Unmoved(disk.trace, disk.files, disk.clock, start, target, none); }
    if Quiet(disk.trace, start, tmp) { Unmoved(disk.trace, disk.files, disk.clock, start, tmp, none); }
    if !st.Ok? || !st.value.regular { return false; }
    ghost var statted, faults := disk.trace, disk.faults;
    made := MakeTemp(disk, tmp, bytes);
    TouchesOfBoth(statted, disk.trace, start, {}, {tmp});
    QuietOfPrefix(statted, disk.trace, start, |statted|, target);
    FailedSinceEarlier(old(disk.faults), faults, disk.faults, Unremoved(tmp));
    FailedSinceEarlier(old(disk.faults), faults, disk.faults, Unwritten(tmp));
  }

  /** What the look before the rename says. */
  datatype Verdict = GoOn | Stop(current: Option<LocalVersion>) | NoTarget

  /** The look at the document, right before the rename. When the save is not to be written, the
      temporary file goes. */
  method LookFirst(disk: Disk, target: Path, tmp: Path, known: LocalVersion) returns (verdict: Verdict)
    requires disk.Valid() && tmp != target
    modifies disk
    ensures disk.Continued()
    ensures verdict.GoOn? ==> AllOutside(disk.trace, |old(disk.trace)|, |disk.trace|) && disk.faults == old(disk.faults)
    ensures !verdict.GoOn? ==> OnlyTouches(disk.trace, |old(disk.trace)|, {tmp}) && Cleaned(disk.files, old(disk.faults), disk.faults, tmp)
    ensures verdict.GoOn? && Quiet(disk.trace, |old(disk.trace)|, target) ==>
              Stands(old(disk.files), target) && (Trusted(known, old(disk.files), target) ==> Holds(disk.files, target, known.sha256))
    ensures verdict.GoOn? && Quiet(disk.trace, |old(disk.trace)|, tmp) ==> Same(old(disk.files), disk.files, tmp)
    ensures verdict.Stop? && verdict.current.Some? ==> verdict.current.value.sha256 != known.sha256
    // A document found changed is; one found gone is; nothing is known of it only when a call failed.
    ensures verdict.Stop? && verdict.current.Some? && Quiet(disk.trace, |old(disk.trace)|, target) ==>
              Holds(old(disk.files), target, verdict.current.value.sha256) && Holds(disk.files, target, verdict.current.value.sha256)
    ensures verdict.Stop? && verdict.current.None? ==> FailedSince(old(disk.faults), disk.faults, Unread(target))
    ensures verdict.NoTarget? && Quiet(disk.trace, |old(disk.trace)|, target) ==> !Stands(old(disk.files), target)
  {
    ghost var start, none := |disk.trace|, {};
    var drift := LocalDrift(disk, target, known);
    if Quiet(disk.trace, start, target) { Unmoved(disk.trace, disk.files, disk.clock, start, target, none); }
    if drift.Unchanged? {
      if Quiet(disk.trace, start, tmp) { Unmoved(disk.trace, disk.files, disk.clock, start, tmp, none); }
      return GoOn;
    }
    ghost var looked, early, faults := |disk.trace|, disk.trace, disk.faults;
    disk.Rm(tmp);
    TouchesOfBoth(early, disk.trace, start, {}, {tmp});
    FailedSinceEarlier(old(disk.faults), faults, disk.faults, Unremoved(tmp));
    FailedSinceEarlier(old(disk.faults), faults, disk.faults, Unread(target));
    if Quiet(disk.trace, start, target) {
      QuietOfPrefix(early, disk.trace, start, looked, target);
      ghost var ps := {tmp};
      Unmoved(disk.trace, disk.files, disk.clock, looked, target, ps);
    }
    match drift {
      case Changed(v) => return Stop(Some(v));
      case Unreadable => return Stop(None);
      case Gone => return NoTarget;
    }
  }

  /** From the look at the document on: the temporary file is on the disk. None: there is no
      document any more, and the edit is still to be kept somewhere. */
  method ReplaceKnown(disk: Disk, target: Path, tmp: Path, bytes: Bytes, rec: Path, known: Option<LocalVersion>)
    returns (r: Option<WriteBack>, ghost swap: nat)
    requires disk.Valid() && tmp != target && tmp != rec && target != rec
    modifies disk
    ensures disk.Continued() && |old(disk.trace)| <= swap <= |disk.trace|
    ensures r.Some? && r.value.Written? ==>
              && AllOutside(disk.trace, |old(disk.trace)|, swap)
              && AllOutside(disk.trace, swap + 1, |disk.trace|)
              && Swapped(disk.trace, swap, tmp, target)
              && (QuietIn(disk.trace, |old(disk.trace)|, swap, tmp) ==> Same(old(disk.files), disk.trace[swap].before, tmp))
              && r.value.version.Whole() && r.value.version.sha256 == Sha256(bytes) && r.value.version.at <= disk.clock
              && (Quiet(disk.trace, swap, target) ==> Same(disk.trace[swap].after, disk.files, target))
              && (known.Some? && QuietIn(disk.trace, |old(disk.trace)|, swap, target) ==>
                    Stands(old(disk.files), target)
                    && (Trusted(known.value, old(disk.files), target) ==> Holds(disk.trace[swap].before, target, known.value.sha256)))
    ensures r.None? || !r.value.Written? ==>
              OnlyTouches(disk.trace, |old(disk.trace)|, if r.Some? && r.value.WriteBackError? then {tmp, rec} else {tmp})
    ensures r.Some? && r.value.WriteBackError? ==>
              && r.value.keptAt.Some?
              && FailedSince(old(disk.faults), disk.faults, Unrenamed(tmp, target))
              && KeptBeside(disk.files, old(disk.faults), disk.faults, tmp, rec, r.value.keptAt.value)
              && (known.Some? && Quiet(disk.trace, |old(disk.trace)|, target) ==> Stands(old(disk.files), target))
              && (Holds(old(disk.files), tmp, Sha256(bytes))
                  && Quiet(disk.trace, |old(disk.trace)|, tmp) && Quiet(disk.trace, |old(disk.trace)|, r.value.keptAt.value) ==>
                    Holds(disk.files, r.value.keptAt.value, Sha256(bytes)))
    ensures r.Some? && r.value.LocalChanged? ==>
              known.Some? && LeftChanged(disk, old(disk.files), |old(disk.trace)|, old(disk.faults), tmp, target, known.value, r.value.current)
    ensures r.None? ==>
              && known.Some? && Cleaned(disk.files, old(disk.faults), disk.faults, tmp)
              && (Quiet(disk.trace, |old(disk.trace)|, target) ==> !Stands(old(disk.files), target))
  {
    if known.Some? {
      var verdict := LookFirst(disk, target, tmp, known.value);
      match verdict {
        case GoOn =>
        case Stop(current) => return Some(LocalChanged(current)), |disk.trace|;
        case NoTarget => return None, |disk.trace|;
      }
    }
    ghost var start, looked, there := |old(disk.trace)|, disk.trace, disk.files;
    var end;
    end, swap := Replace(disk, tmp, target, bytes, rec);
    QuietOfPrefix(looked, disk.trace, start, |looked|, tmp);
    QuietOfPrefix(looked, disk.trace, start, |looked|, target);
    forall j | start <= j < |looked| ensures disk.trace[j].actor.Outside? { assert looked[j] == disk.trace[j]; }
    return Some(end), swap;
  }

  /** The document was found changed, the look at it beginning at step `look`: the temporary file is
      gone, and what stands there is reported, unless it could not be read. */
  ghost predicate LeftChanged(disk: Disk, seen: Files, look: nat, had: seq<Fault>, tmp: Path, target: Path,
                              known: LocalVersion, current: Option<LocalVersion>)
    reads disk
  {
    && Cleaned(disk.files, had, disk.faults, tmp)
    && (current.None? ==> FailedSince(had, disk.faults, Unread(target)))
    && (current.Some? ==>
          && current.value.sha256 != known.sha256
          && (Quiet(disk.trace, look, target) ==>
                Holds(seen, target, current.value.sha256) && Holds(disk.files, target, current.value.sha256)))
  }

  /** From step `start` on the target is changed by one step of filex's own at the most, `swap`,
      which gives it the whole temporary file: the whole content, unless another program was at
      the temporary name. From the look at the document, at `look`, to it filex does nothing else. */
  ghost predicate SwapsWhole(t: Trace, start: nat, look: nat, swap: nat, tmp: Path, target: Path, digest: Digest) {
    && AllOutside(t, look, swap)
    && OnlyTouchesIn(t, start, swap, {tmp})
    && AllOutside(t, swap + 1, |t|)
    && Swapped(t, swap, tmp, target)
    && (QuietIn(t, start, swap, tmp) ==> Holds(t[swap].after, target, digest))
  }

  /** The fast path could be asked of the version when the write-back began, and up to the look other
      programs gave the document the time they wrote it. */
  ghost predicate Believed(t: Trace, start: nat, look: nat, files: Files, clock: real, target: Path, v: LocalVersion) {
    HonestIn(t, start, look, target) && v.at <= clock && Trusted(v, files, target)
  }

  /** The edit was stashed where it is said to be, or every place refused it. */
  ghost predicate Stashed(disk: Disk, since: nat, had: seq<Fault>, keptAt: Option<Path>, rec: Path, fallbackDir: Option<string>,
                          stamp: string, bytes: Bytes)
    reads disk
  {
    if keptAt.Some? then keptAt.value in StashPaths(rec, fallbackDir, stamp) && KeptAt(disk, since, keptAt.value, bytes)
    else AllRefused(had, disk.faults, rec, fallbackDir, stamp)
  }

  /** The document, and what is known of it, is there and is left in peace. */
  ghost predicate LeftInPeace(t: Trace, start: nat, files: Files, target: Path, known: Option<LocalVersion>) {
    && Quiet(t, start, target) && Stands(files, target)
    && (known.Some? ==> Holds(files, target, known.value.sha256))
  }

  /**
   * Replaces the document with `bytes`, held to the version `known` when there is one.
   * `look` is the step the look at the document began with, `swap` the rename's.
   */
  method WriteBackAtomic(disk: Disk, target: Path, bytes: Bytes, stamp: string, suffix: string,
                         fallbackDir: Option<string>, known: Option<LocalVersion>)
    returns (r: WriteBack, ghost look: nat, ghost swap: nat)
    requires disk.Valid() && |stamp| == 15 && |suffix| == 8
    modifies disk
    ensures disk.Continued() && |old(disk.trace)| <= look <= swap <= |disk.trace|
    ensures r.Written? ==> SwapsWhole(disk.trace, |old(disk.trace)|, look, swap, TempPath(target, suffix), target, Sha256(bytes))
    ensures !r.Written? ==>
              OnlyTouches(disk.trace, |old(disk.trace)|,
                {TempPath(target, suffix)} + StashPaths(RecoveryPath(target, stamp), fallbackDir, stamp))
    // What it replaced was the version filex knew, unless somebody wrote to the target after
    // the look began.
    ensures r.Written? && known.Some? && QuietIn(disk.trace, look, swap, target)
            && Believed(disk.trace, |old(disk.trace)|, look, old(disk.files), old(disk.clock), target, known.value) ==>
              Holds(disk.trace[swap].before, target, known.value.sha256)
    // The version returned is the content's, to be believed when nobody wrote since the swap.
    ensures r.Written? ==>
              && r.version.Whole() && r.version.sha256 == Sha256(bytes) && r.version.at <= disk.clock
              && (Quiet(disk.trace, swap, target) ==> Same(disk.trace[swap].after, disk.files, target))
    // With the document as filex knows it, left in peace, and no call failing, it is written.
    ensures disk.faults == old(disk.faults) && LeftInPeace(disk.trace, |old(disk.trace)|, old(disk.files), target, known) ==> r.Written?
    // A document that is gone is not brought back, and the edit is stashed: gone from the start ...
    ensures r.Written? && QuietIn(disk.trace, |old(disk.trace)|, swap, target) ==> Stands(old(disk.files), target)
    ensures Quiet(disk.trace, |old(disk.trace)|, target) && !Stands(old(disk.files), target) ==>
              r.WriteBackError?
              && Stashed(disk, |old(disk.trace)|, old(disk.faults), r.keptAt, RecoveryPath(target, stamp), fallbackDir, stamp, bytes)
    // ... or at the look.
    ensures known.Some? && Quiet(disk.trace, look, target) && !Stands(FilesAt(disk.trace, disk.files, look), target)
            && !FailedSince(old(disk.faults), disk.faults, Unread(target)) ==>
              r.WriteBackError?
              && Stashed(disk, |old(disk.trace)|, old(disk.faults), r.keptAt, RecoveryPath(target, stamp), fallbackDir, stamp, bytes)
    // An error says where the edit is, or nowhere once every place refused it.
    ensures r.WriteBackError? ==>
              EditKept(disk, |old(disk.trace)|, old(disk.faults), r.keptAt, target, suffix, fallbackDir, stamp, bytes)
    // A changed document is left as it was, and every other file.
    ensures r.LocalChanged? ==>
              && known.Some?
              && OnlyTouches(disk.trace, |old(disk.trace)|, {TempPath(target, suffix)})
              && LeftChanged(disk, FilesAt(disk.trace, disk.files, look), look, old(disk.faults), TempPath(target, suffix), target, known.value, r.current)
    // No temporary file is left behind, unless it is where the edit is kept or could not be removed.
    ensures !r.Written? && r != WriteBackError(Some(TempPath(target, suffix)))
            && TempPath(target, suffix) !in old(disk.files) && Quiet(disk.trace, |old(disk.trace)|, TempPath(target, suffix)) ==>
              Cleaned(disk.files, old(disk.faults), disk.faults, TempPath(target, suffix))
  {
    ghost var start := |disk.trace|;
    var rec, tmp := RecoveryPath(target, stamp), TempPath(target, suffix);
    NamesApart(target, stamp, suffix, "");
    var made := Prepare(disk, target, tmp, bytes);
    look, swap := |disk.trace|, |disk.trace|;
    if made {
      var end;
      end, swap := Over(disk, target, tmp, bytes, rec, known, start, old(disk.files), old(disk.clock));
      if end.Some? { return end.value, look, swap; }
    }
    r := GiveUp(disk, bytes, tmp, rec, fallbackDir, stamp, start, old(disk.files), old(disk.faults));
    swap := |disk.trace|;
  }

  /** The edit is at the place named, unless another program was there or at the temporary file; the
      place is one of the stash's, or the temporary file itself when it could not be moved; none is
      named only after every place refused it. */
  ghost predicate EditKept(disk: Disk, since: nat, had: seq<Fault>, keptAt: Option<Path>, target: Path, suffix: string,
                           fallbackDir: Option<string>, stamp: string, bytes: Bytes)
    reads disk
  {
    var rec, tmp := RecoveryPath(target, stamp), TempPath(target, suffix);
    if keptAt.None? then AllRefused(had, disk.faults, rec, fallbackDir, stamp)
    else
      && (keptAt.value in StashPaths(rec, fallbackDir, stamp)
          || (keptAt.value == tmp && FailedSince(had, disk.faults, Unrenamed(tmp, rec))))
      && (Quiet(disk.trace, since, tmp) ==> KeptAt(disk, since, keptAt.value, bytes))
  }

  /** From the look at the document on, in a write-back that began at step `start`. */
  method Over(disk: Disk, target: Path, tmp: Path, bytes: Bytes, rec: Path, known: Option<LocalVersion>,
              ghost start: nat, ghost files: Files, ghost clock: real)
    returns (r: Option<WriteBack>, ghost swap: nat)
    requires disk.Valid() && tmp != target && tmp != rec && target != rec
    requires start <= |disk.trace| && OnlyTouches(disk.trace, start, {tmp})
    requires FilesAt(disk.trace, disk.files, start) == files && ClockAt(disk.trace, disk.clock, start) == clock
    requires Quiet(disk.trace, start, tmp) ==> Holds(disk.files, tmp, Sha256(bytes))
    requires Quiet(disk.trace, start, target) ==> Stands(files, target)
    modifies disk
    ensures disk.Continued() && |old(disk.trace)| <= swap <= |disk.trace|
    ensures r.None? || !r.value.Written? ==>
              OnlyTouches(disk.trace, start, if r.Some? && r.value.WriteBackError? then {tmp, rec} else {tmp})
    ensures r.Some? && r.value.Written? ==>
              && SwapsWhole(disk.trace, start, |old(disk.trace)|, swap, tmp, target, Sha256(bytes))
              && r.value.version.Whole() && r.value.version.sha256 == Sha256(bytes) && r.value.version.at <= disk.clock
              && (Quiet(disk.trace, swap, target) ==> Same(disk.trace[swap].after, disk.files, target))
              && (QuietIn(disk.trace, start, swap, target) ==> Stands(files, target))
              && (known.Some? && QuietIn(disk.trace, |old(disk.trace)|, swap, target) ==> Stands(old(disk.files), target))
              && (known.Some? && QuietIn(disk.trace, |old(disk.trace)|, swap, target)
                  && Believed(disk.trace, start, |old(disk.trace)|, files, clock, target, known.value) ==>
                    Holds(disk.trace[swap].before, target, known.value.sha256))
    ensures disk.faults == old(disk.faults) && LeftInPeace(disk.trace, start, files, target, known) ==> r.Some? && r.value.Written?
    ensures Quiet(disk.trace, start, target) ==> Stands(files, target)
    ensures (known.Some? && Quiet(disk.trace, |old(disk.trace)|, target) && !Stands(old(disk.files), target)
             && !FailedSince(old(disk.faults), disk.faults, Unread(target))) ==> r.None?
    ensures r.Some? && r.value.WriteBackError? ==>
              && r.value.keptAt.Some?
              && KeptBeside(disk.files, old(disk.faults), disk.faults, tmp, rec, r.value.keptAt.value)
              && (Quiet(disk.trace, start, tmp) && Quiet(disk.trace, start, r.value.keptAt.value) ==>
                    Holds(disk.files, r.value.keptAt.value, Sha256(bytes)))
    ensures r.Some? && r.value.LocalChanged? ==>
              known.Some? && LeftChanged(disk, old(disk.files), |old(disk.trace)|, old(disk.faults), tmp, target, known.value, r.value.current)
    ensures r.None? ==> Cleaned(disk.files, old(disk.faults), disk.faults, tmp)
  {
    ghost var prepared, there, before := disk.trace, disk.files, disk.clock;
    r, swap := ReplaceKnown(disk, target, tmp, bytes, rec, known);
    AfterPreparation(prepared, disk.trace, there, before, start, swap, tmp, target, known);
    if r.None? || !r.value.Written? {
      TouchesOfBoth(prepared, disk.trace, start, {tmp}, if r.Some? && r.value.WriteBackError? then {tmp, rec} else {tmp});
    }
  }

  /** The edit is kept somewhere else, or nowhere. */
  method GiveUp(disk: Disk, bytes: Bytes, tmp: Path, rec: Path, fallbackDir: Option<string>, stamp: string,
                ghost start: nat, ghost files: Files, ghost had: seq<Fault>)
    returns (r: WriteBack)
    requires disk.Valid() && start <= |disk.trace| && OnlyTouches(disk.trace, start, {tmp}) && had <= disk.faults
    requires tmp !in StashPaths(rec, fallbackDir, stamp)
    requires tmp !in files && Quiet(disk.trace, start, tmp) ==> Cleaned(disk.files, had, disk.faults, tmp)
    modifies disk
    ensures disk.Continued()
    ensures OnlyTouches(disk.trace, start, {tmp} + StashPaths(rec, fallbackDir, stamp))
    ensures r.WriteBackError? && Stashed(disk, start, had, r.keptAt, rec, fallbackDir, stamp, bytes)
    ensures tmp !in files && Quiet(disk.trace, start, tmp) ==> Cleaned(disk.files, had, disk.faults, tmp)
    ensures disk.faults == old(disk.faults) ==> r.keptAt.Some?
  {
    ghost var early, there, before, faults, since := disk.trace, disk.files, disk.clock, disk.faults, |disk.trace|;
    ghost var ps := StashPaths(rec, fallbackDir, stamp);
    var kept := Stash(disk, bytes, rec, fallbackDir, stamp);
    TouchesOfBoth(early, disk.trace, start, {tmp}, ps);
    if kept.None? { AllRefusedEarlier(had, faults, disk.faults, rec, fallbackDir, stamp); }
    if Quiet(disk.trace, start, tmp) {
      QuietOfPrefix(early, disk.trace, start, since, tmp);
      Unmoved(disk.trace, disk.files, disk.clock, since, tmp, ps);
      FailedSinceEarlier(had, faults, disk.faults, Unremoved(tmp));
    }
    r := WriteBackError(kept);
  }

  /** What holds of the whole trace once it holds of the part up to the look and of the part
      from there on. */
  lemma AfterPreparation(prepared: Trace, t: Trace, files: Files, clock: real, start: nat, swap: nat,
                         tmp: Path, target: Path, known: Option<LocalVersion>)
    requires prepared <= t && start <= |prepared| <= swap <= |t| && tmp != target
    requires Chained(prepared, files, clock) && OnlyTouches(prepared, start, {tmp})
    ensures AllOutside(t, |prepared|, swap) ==> OnlyTouchesIn(t, start, swap, {tmp})
    ensures QuietIn(t, start, swap, tmp) ==> Quiet(prepared, start, tmp) && QuietIn(t, |prepared|, swap, tmp)
    ensures Quiet(t, start, tmp) ==> Quiet(prepared, start, tmp) && Quiet(t, |prepared|, tmp)
    ensures QuietIn(t, start, swap, target) ==> Quiet(prepared, start, target)
    ensures Quiet(t, start, target) ==> Quiet(prepared, start, target) && Same(FilesAt(prepared, files, start), files, target)
    ensures known.Some?
            && Believed(t, start, |prepared|, FilesAt(prepared, files, start), ClockAt(prepared, clock, start), target, known.value) ==>
              Trusted(known.value, files, target)
  {
    QuietOfPrefix(prepared, t, start, |prepared|, tmp);
    QuietOfPrefix(prepared, t, start, |prepared|, target);
    var ps := {tmp};
    if Quiet(t, start, target) { Unmoved(prepared, files, clock, start, target, ps); }
    if AllOutside(t, |prepared|, swap) {
      forall j, p | start <= j < swap && t[j].actor.Filex? && p !in ps ensures Same(t[j].before, t[j].after, p) {
        assert prepared[j] == t[j];
      }
    }
    if known.Some? && Believed(t, start, |prepared|, FilesAt(prepared, files, start), ClockAt(prepared, clock, start), target, known.value) {
      HonestOfPrefix(prepared, t, start, |prepared|, target);
      assert target !in ps;
      TrustSurvives(prepared, files, clock, start, target, known.value);
    }
  }
}
