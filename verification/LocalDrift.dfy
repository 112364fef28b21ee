/**
 * Has the local document changed since filex last read or wrote it? (hashLocalVersion and
 * localDrift, desktop/src/openwith.ts)
 */
module LocalDrifting {
  import opened Content
  import opened FileSystem

  datatype Drift = Unchanged(version: LocalVersion) | Changed(version: LocalVersion) | Gone | Unreadable

  /** The file at `p` is the regular file a version says it is. */
  ghost predicate Holds(files: Files, p: Path, digest: Digest) {
    p in files && files[p].regular && Sha256(files[p].bytes) == digest
  }

  /** There is a document at `p`. */
  predicate Stands(files: Files, p: Path) {
    p in files && files[p].regular
  }

  /** The version of the file at `p`, its stat and its bytes through one handle. `statted` is the
      clock at the stat. */
  method HashLocalVersion(disk: Disk, p: Path) returns (r: Reply<LocalVersion>, ghost statted: real)
    requires disk.Valid()
    modifies disk
    ensures disk.Continued() && AllOutside(disk.trace, |old(disk.trace)|, |disk.trace|)
    ensures r.Ok? ==> r.value.Whole() && r.value.at <= disk.clock && old(disk.clock) <= statted <= disk.clock
    ensures !r.Exists? && (if r.Failed? then FailedSince(old(disk.faults), disk.faults, Unread(p)) else disk.faults == old(disk.faults))
    // Nobody wrote between the open and `at`: the version is the file's, and the fast path
    // may be asked of it from here on.
    ensures Quiet(disk.trace, |old(disk.trace)|, p) ==>
              && (r.Ok? ==> Holds(disk.files, p, r.value.sha256) && Trusted(r.value, disk.files, p))
              && (r.Missing? ==> p !in disk.files || !disk.files[p].regular)
    // And whoever wrote meanwhile, it may be asked of a version that was old enough at the stat.
    ensures r.Ok? && Honest(disk.trace, |old(disk.trace)|, p) && OldEnough(r.value, statted) ==> Trusted(r.value, disk.files, p)
  {
    ghost var n, none := |disk.trace|, {};
    statted := disk.clock;
    var st := disk.Stat(p);
    statted := disk.clock;
    if st.Failed? { return Failed, statted; }
    if st.Missing? || !st.value.regular { return Missing, statted; }
    var read := |disk.trace|;
    var bytes := disk.ReadThrough(p, read);
    if bytes.Failed? { return Failed, statted; }
    if Quiet(disk.trace, n, p) { Unmoved(disk.trace, disk.files, disk.clock, read, p, none); }
    var at := disk.Now();
    r := Ok(LocalVersion(|bytes.value|, st.value.mtime, Sha256(bytes.value), at));
    if Honest(disk.trace, n, p) { QuietOrLater(disk.trace, disk.files, disk.clock, read, p); }
  }

  /**
   * The timestamp fast path, and the content when it cannot tell. The answers are right of the
   * file as it stands, as long as nobody wrote to it during the look - "unchanged" also needs that
   * the fast path could be asked of the baseline.
   */
  method LocalDrift(disk: Disk, p: Path, baseline: LocalVersion) returns (drift: Drift)
    requires disk.Valid()
    modifies disk
    ensures disk.Continued() && AllOutside(disk.trace, |old(disk.trace)|, |disk.trace|)
    ensures drift.Unchanged? && drift.version != baseline ==>
              drift.version.Whole() && drift.version.sha256 == baseline.sha256 && drift.version.at <= disk.clock
    ensures drift.Changed? ==> drift.version.sha256 != baseline.sha256
    // Unreadable only when a call failed.
    ensures if drift.Unreadable? then FailedSince(old(disk.faults), disk.faults, Unread(p)) else disk.faults == old(disk.faults)
    ensures Quiet(disk.trace, |old(disk.trace)|, p) ==>
              && (drift.Unchanged? ==> Stands(disk.files, p))
              && (drift.Changed? ==> Holds(disk.files, p, drift.version.sha256) && Trusted(drift.version, disk.files, p))
              && (drift.Gone? ==> !Stands(disk.files, p))
    ensures Quiet(disk.trace, |old(disk.trace)|, p) && Trusted(baseline, old(disk.files), p) && drift.Unchanged? ==>
              Holds(disk.files, p, baseline.sha256) && Trusted(drift.version, disk.files, p)
  {
    ghost var n, none := |disk.trace|, {};
    var st := disk.Stat(p);
    if st.Failed? { return Unreadable; }
    if st.Missing? || !st.value.regular { return Gone; }
    var file := st.value;
    if Quiet(disk.trace, n, p) { Unmoved(disk.trace, disk.files, disk.clock, n, p, none); }
    var racy := baseline.mtime >= baseline.at - RACY_WINDOW_MS;
    if !racy && |file.bytes| == baseline.size && file.mtime == baseline.mtime {
      return Unchanged(baseline);
    }
    ghost var between := |disk.trace|;
    var version, _ := HashLocalVersion(disk, p);
    match version {
      case Failed => return Unreadable;
      case Missing => return Gone;
      case Ok(v) =>
        if v.sha256 == baseline.sha256 { return Unchanged(v); }
        return Changed(v);
    }
  }

  /**
   * The whole of the rule: a version recorded while nobody wrote - or one that was old enough -
   * any stamped writes of the file by others after it, and a look during which nobody writes. "Unchanged"
   * then means the content is still the recorded one, also when no byte was read.
   */
  method RecordThenLook(disk: Disk, p: Path)
    returns (recorded: Reply<LocalVersion>, drift: Drift, ghost statted: real, ghost at: nat, ghost look: nat)
    requires disk.Valid()
    modifies disk
    ensures |old(disk.trace)| <= at <= look <= |disk.trace|
    ensures recorded.Ok? && drift.Unchanged? && Quiet(disk.trace, look, p) && HonestIn(disk.trace, at, look, p)
            && (if OldEnough(recorded.value, statted) then HonestIn(disk.trace, |old(disk.trace)|, at, p)
                else QuietIn(disk.trace, |old(disk.trace)|, at, p)) ==>
              Holds(disk.files, p, recorded.value.sha256)
  {
    ghost var n := |disk.trace|;
    recorded, statted := HashLocalVersion(disk, p);
    at := |disk.trace|;
    ghost var early := disk.trace;
    disk.Interfere();
    look := |disk.trace|;
    drift := Unreadable;
    if recorded.Ok? {
      ghost var t, files, clock := disk.trace, disk.files, disk.clock;
      drift := LocalDrift(disk, p, recorded.value);
      QuietOfPrefix(early, disk.trace, n, at, p);
      HonestOfPrefix(early, disk.trace, n, at, p);
      HonestOfPrefix(t, disk.trace, at, look, p);
      if HonestIn(disk.trace, at, look, p) && Trusted(recorded.value, FilesAt(t, files, at), p) {
        TrustSurvives(t, files, clock, at, p, recorded.value);
      }
    }
  }
}
