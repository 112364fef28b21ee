/**
 * The watch over one local document (LocalDocMonitor, desktop/src/openwith.ts): a folder
 * watch, a debounce timer, a look that takes two awaits, filex's own writes and the poll, in
 * any order. Between two awaits the code runs alone, so every stretch of it is one step.
 */
module DocMonitoring {
  import opened Content
  import opened LocalDrifting

  /** A version as the code holds it: an object, compared by identity. */
  datatype Version = Version(record: LocalVersion, id: nat)

  /** Where the look in flight stands. */
  datatype Look =
    /** localDrift has been asked, against this baseline. */
    | Looking(base: Version)
    /** A changed version passed the check against the baseline `against`, and the second
        stat has been asked. */
    | Settling(version: LocalVersion, against: Version)
    /** look() has returned; the check() that began it has not gone on yet. */
    | Answered

  datatype Monitor = Monitor(
    base: Version,
    timer: bool,
    writing: nat,
    heardWhileWriting: bool,
    inFlight: Option<Look>,
    again: bool,
    reported: Option<Digest>,
    stopped: bool)

  function Watching(baseline: Version): Monitor {
    Monitor(baseline, false, 0, false, None, false, None, false)
  }

  function Scheduled(m: Monitor): Monitor {
    if m.stopped then m else m.(timer := true)
  }

  function AfterCheck(m: Monitor): Monitor {
    if m.stopped then m
    else if m.writing > 0 then m.(heardWhileWriting := true)
    else if m.inFlight.Some? then m.(again := true)
    else m.(inFlight := Some(Looking(m.base)))
  }

  function AfterAdopt(m: Monitor, v: Version): Monitor {
    m.(base := v, reported := None)
  }

  function AfterMarkSeen(m: Monitor, v: Option<LocalVersion>): Monitor {
    if v.Some? then m.(reported := Some(v.value.sha256)) else m
  }

  function AfterOwnBegin(m: Monitor): Monitor {
    m.(writing := m.writing + 1)
  }

  function AfterOwnEnd(m: Monitor, wrote: Option<Version>): Monitor
    requires m.writing > 0
  {
    var n := if wrote.Some? then AfterAdopt(m, wrote.value) else m;
    var w := n.(writing := n.writing - 1);
    if w.writing == 0 && w.heardWhileWriting then Scheduled(w.(heardWhileWriting := false)) else w
  }

  /** localDrift's answer, up to the next await. `minted` names a record it made anew. */
  function AfterDrift(m: Monitor, drift: Drift, minted: nat): Monitor
    requires m.inFlight.Some? && m.inFlight.value.Looking?
  {
    var base := m.inFlight.value.base;
    if drift.Unreadable? then m.(inFlight := Some(Answered))
    else if m.base.id != base.id || m.writing > 0 then Scheduled(m.(inFlight := Some(Answered)))
    else if drift.Unchanged? then
      m.(base := if drift.version == base.record then base else Version(drift.version, minted), inFlight := Some(Answered))
    else if !drift.Changed? then m.(inFlight := Some(Answered))
    else m.(inFlight := Some(Settling(drift.version, m.base)))
  }

  /** The second stat: `still` says the file has the size and the timestamp of the version. */
  function AfterSettle(m: Monitor, still: bool): (Monitor, Option<LocalVersion>)
    requires m.inFlight.Some? && m.inFlight.value.Settling?
  {
    var v := m.inFlight.value.version;
    var n := m.(inFlight := Some(Answered));
    if !still then (Scheduled(n), None)
    else if m.reported == Some(v.sha256) then (n, None)
    else (n.(reported := Some(v.sha256)), Some(v))
  }

  /** The check() that began the look goes on. */
  function AfterLook(m: Monitor): Monitor {
    var n := m.(inFlight := None);
    if n.again then Scheduled(n.(again := false)) else n
  }

  function AfterTimer(m: Monitor): Monitor {
    AfterCheck(m.(timer := false))
  }

  function AfterStop(m: Monitor): Monitor {
    m.(stopped := true, timer := false)
  }

  // ── runs: the monitor, the file, and everybody who touches either ────

  /** What stands in the file: its digest, and whether filex wrote it last. `standing` says
      that no adopt() has moved the baseline elsewhere since filex wrote it. */
  datatype OnDisk = OnDisk(digest: Digest, own: bool, standing: bool)

  /** The monitor, the file, filex's writes that reached the file and have not been adopted
      yet (in order), what the look in flight read, and what is owed: an event came since
      which no look began, or the look that began could not judge. `ordered` says that filex's
      writes were adopted in the order they reached the file. */
  datatype World = World(
    m: Monitor,
    file: OnDisk,
    landed: seq<Digest>,
    read: Option<OnDisk>,
    owed: bool,
    minted: nat,
    ordered: bool)

  datatype Event =
    | FolderEvent
    | Poll
    | TimerDue
    | OutsideWrite(digest: Digest)
    | OwnBegins
    | OwnLands(digest: Digest)
    /** ownWrite() settles: the `which`-th of the writes that reached the file, or one that failed. */
    | OwnEnds(wrote: Option<LocalVersion>, which: nat)
    | Adopted(v: Version)
    | Seen(version: Option<LocalVersion>)
    | LookReads
    | DriftAnswers(drift: Drift)
    | SettleAnswers(still: bool)
    | LookReturns
    | Stopped

  function Begin(baseline: LocalVersion, own: bool): World {
    World(Watching(Version(baseline, 0)), OnDisk(baseline.sha256, own, own), [], None, false, 1, true)
  }

  /** Two versions with one identity are one object. */
  predicate OneObject(v: Version, w: Version) {
    v.id == w.id ==> v == w
  }

  function LookBase(m: Monitor): Version {
    if m.inFlight.Some? && m.inFlight.value.Looking? then m.inFlight.value.base else m.base
  }

  /** When an event can happen. An own write that fails left the file alone, one that succeeds
      reached it (writeBackAtomic); several may be under way, and settle in any order. A drift judged by
      content is of bytes read since the look began (localDrift). */
  predicate Enabled(w: World, e: Event) {
    match e
    case TimerDue => w.m.timer
    case OwnLands(_) => |w.landed| < w.m.writing
    case OwnEnds(None, _) => |w.landed| < w.m.writing
    case OwnEnds(Some(v), i) => i < |w.landed| && w.m.writing > 0 && v.sha256 == w.landed[i]
    case Adopted(v) => OneObject(v, w.m.base) && OneObject(v, LookBase(w.m))
    case LookReads => w.m.inFlight.Some? && w.m.inFlight.value.Looking?
    case DriftAnswers(drift) =>
      && w.m.inFlight.Some? && w.m.inFlight.value.Looking?
      && (drift.Unchanged? ==> drift.version.sha256 == w.m.inFlight.value.base.record.sha256)
      && (drift.Changed? ==>
            && drift.version.sha256 != w.m.inFlight.value.base.record.sha256
            && w.read.Some? && w.read.value.digest == drift.version.sha256)
    case SettleAnswers(_) => w.m.inFlight.Some? && w.m.inFlight.value.Settling?
    case LookReturns => w.m.inFlight == Some(Answered)
    case _ => true
  }

  /** A look begins: nothing is owed, nothing read yet. Otherwise the check is owed. */
  function Checked(w: World, m: Monitor): World {
    if m.inFlight.None? && !m.stopped && m.writing == 0
    then w.(m := AfterCheck(m), owed := false, read := None)
    else w.(m := AfterCheck(m), owed := true)
  }

  /** An adopt() of other content moves the baseline away from what filex wrote. */
  function Unless(file: OnDisk, v: Version): OnDisk {
    file.(standing := file.standing && v.record.sha256 == file.digest)
  }

  function Next(w: World, e: Event): World
    requires Enabled(w, e)
  {
    match e
    case FolderEvent => w.(m := Scheduled(w.m), owed := true)
    case Poll => Checked(w, w.m)
    case TimerDue => Checked(w, w.m.(timer := false))
    case OutsideWrite(digest) => w.(file := OnDisk(digest, false, false))
    case OwnBegins => w.(m := AfterOwnBegin(w.m))
    case OwnLands(digest) => w.(file := OnDisk(digest, true, true), landed := w.landed + [digest])
    case OwnEnds(None, _) => w.(m := AfterOwnEnd(w.m, None))
    case OwnEnds(Some(v), i) =>
      w.(m := AfterOwnEnd(w.m, Some(Version(v, w.minted))), landed := w.landed[..i] + w.landed[i + 1..], minted := w.minted + 1,
         ordered := w.ordered && i == 0)
    case Adopted(v) =>
      w.(m := AfterAdopt(w.m, v), file := Unless(w.file, v), read := if w.read.Some? then Some(Unless(w.read.value, v)) else None,
         minted := if v.id < w.minted then w.minted else v.id + 1)
    case Seen(v) => w.(m := AfterMarkSeen(w.m, v))
    case LookReads => w.(read := Some(w.file))
    case DriftAnswers(drift) =>
      w.(m := AfterDrift(w.m, drift, w.minted), minted := w.minted + 1,
         owed := w.owed || (!drift.Unreadable? && (w.m.base.id != w.m.inFlight.value.base.id || w.m.writing > 0)))
    case SettleAnswers(still) => w.(m := AfterSettle(w.m, still).0, owed := w.owed || !still)
    case LookReturns => w.(m := AfterLook(w.m))
    case Stopped => w.(m := AfterStop(w.m))
  }

  /** What onChange is called with at this step. */
  function Report(w: World, e: Event): Option<LocalVersion>
    requires Enabled(w, e)
  {
    if e.SettleAnswers? then AfterSettle(w.m, e.still).1 else None
  }

  ghost predicate Run(w: World, events: seq<Event>)
    decreases |events|, 0
  {
    events == [] ||
    (Run(w, events[..|events| - 1]) && Enabled(State(w, events[..|events| - 1]), events[|events| - 1]))
  }

  /** The world after the events. */
  ghost function State(w: World, events: seq<Event>): World
    requires Run(w, events)
    decreases |events|, 1
  {
    if events == [] then w
    else Next(State(w, events[..|events| - 1]), events[|events| - 1])
  }

  // ── what every step keeps ────────────────────────────────────────────

  /** An event that no look has answered yet will be: see NoLookIsLost. */
  predicate Remembered(m: Monitor) {
    || m.stopped
    || m.timer
    || (m.again && m.inFlight.Some?)
    || (m.heardWhileWriting && m.writing > 0)
  }

  ghost predicate Inv(w: World) {
    && (w.owed ==> Remembered(w.m))
    && (w.m.stopped ==> !w.m.timer)
    && |w.landed| <= w.m.writing
    && w.m.base.id < w.minted
    && LookBase(w.m).id < w.minted
    && OneObject(w.m.base, LookBase(w.m))
    // The baseline is filex's own last write, as long as it stands in the file and no adopt()
    // moved the baseline; a write that is not adopted yet is still to come.
    && (w.ordered && w.file.own && w.file.standing ==>
          w.file.digest == if w.landed == [] then w.m.base.record.sha256 else w.landed[|w.landed| - 1])
    // And a look that read it is against it, or will be thrown away.
    && (w.ordered && w.m.inFlight.Some? && w.m.inFlight.value.Looking? && w.m.inFlight.value.base.id == w.m.base.id
        && w.read.Some? && w.read.value.own && w.read.value.standing ==>
          w.landed != [] || w.read.value.digest == w.m.base.record.sha256)
  }

  lemma NextKeepsInv(w: World, e: Event)
    requires Inv(w) && Enabled(w, e)
    ensures Inv(Next(w, e))
  {
    match e
    case OutsideWrite(_) => WriteKeepsInv(w, e);
    case OwnBegins => WriteKeepsInv(w, e);
    case OwnLands(_) => WriteKeepsInv(w, e);
    case OwnEnds(wrote, which) => WriteEndKeepsInv(w, wrote, which);
    case Adopted(v) => AdoptKeepsInv(w, v);
    case LookReads => LookKeepsInv(w, e);
    case DriftAnswers(drift) => DriftKeepsInv(w, drift);
    case SettleAnswers(_) => LookKeepsInv(w, e);
    case LookReturns => LookKeepsInv(w, e);
    case _ => CheckKeepsInv(w, e);
  }

  lemma CheckKeepsInv(w: World, e: Event)
    requires Inv(w) && Enabled(w, e) && (e.FolderEvent? || e.Poll? || e.TimerDue? || e.Seen? || e.Stopped?)
    ensures Inv(Next(w, e))
  {
  }

  lemma WriteKeepsInv(w: World, e: Event)
    requires Inv(w) && Enabled(w, e) && (e.OutsideWrite? || e.OwnBegins? || e.OwnLands?)
    ensures Inv(Next(w, e))
  {
  }

  lemma WriteEndKeepsInv(w: World, wrote: Option<LocalVersion>, which: nat)
    requires Inv(w) && Enabled(w, OwnEnds(wrote, which))
    ensures Inv(Next(w, OwnEnds(wrote, which)))
  {
    if wrote.Some? { WriteAdopted(w, wrote.value, which); } else { WriteFailed(w, which); }
  }

  lemma WriteFailed(w: World, which: nat)
    requires Inv(w) && Enabled(w, OwnEnds(None, which))
    ensures Inv(Next(w, OwnEnds(None, which)))
  {
  }

  lemma WriteAdopted(w: World, v: LocalVersion, which: nat)
    requires Inv(w) && Enabled(w, OwnEnds(Some(v), which))
    ensures Inv(Next(w, OwnEnds(Some(v), which)))
  {
    var t := Next(w, OwnEnds(Some(v), which));
    assert t.m.base == Version(v, w.minted);
    assert w.owed ==> Remembered(t.m);
    assert t.ordered ==> t.landed == w.landed[1..];
  }

  lemma AdoptKeepsInv(w: World, v: Version)
    requires Inv(w) && Enabled(w, Adopted(v))
    ensures Inv(Next(w, Adopted(v)))
  {
  }

  lemma LookKeepsInv(w: World, e: Event)
    requires Inv(w) && Enabled(w, e) && (e.LookReads? || e.SettleAnswers? || e.LookReturns?)
    ensures Inv(Next(w, e))
  {
  }

  lemma DriftKeepsInv(w: World, drift: Drift)
    requires Inv(w) && Enabled(w, DriftAnswers(drift))
    ensures Inv(Next(w, DriftAnswers(drift)))
  {
  }

  lemma {:induction false} RunKeepsInv(w: World, events: seq<Event>)
    requires Inv(w) && Run(w, events)
    ensures Inv(State(w, events))
  {
    if events != [] {
      var before := events[..|events| - 1];
      RunKeepsInv(w, before);
      NextKeepsInv(State(w, before), events[|events| - 1]);
    }
  }

  // ── the theorems ─────────────────────────────────────────────────────

  /** No look is lost: whenever an event came that no look has answered, one is on its way -
      a timer, the look in flight's second round, the end of the write in progress - or the
      monitor was stopped. */
  lemma NoLookIsLost(baseline: LocalVersion, own: bool, events: seq<Event>)
    requires Run(Begin(baseline, own), events)
    ensures var w := State(Begin(baseline, own), events);
            w.owed ==> Remembered(w.m)
  {
    RunKeepsInv(Begin(baseline, own), events);
  }

  /** localDrift's answer `v` passes the check: against the baseline the look began with,
      which is still the one, and with no write of filex's in progress. */
  predicate Passes(s: World, e: Event, v: LocalVersion) {
    && e == DriftAnswers(Changed(v))
    && s.m.writing == 0
    && s.m.inFlight == Some(Looking(s.m.base))
    && v.sha256 != s.m.base.record.sha256
    && s.read.Some? && s.read.value.digest == v.sha256
    && (s.ordered ==> !(s.read.value.own && s.read.value.standing))
  }

  ghost predicate PassedAt(w: World, events: seq<Event>, i: nat, v: LocalVersion)
    requires Run(w, events)
  {
    i < |events| && Run(w, events[..i]) && Passes(State(w, events[..i]), events[i], v)
  }

  predicate IsSettling(m: Monitor) {
    m.inFlight.Some? && m.inFlight.value.Settling?
  }

  /** No other event has the second stat asked, nor asks it of anything else. */
  lemma OthersSettleNothing(s: World, e: Event)
    requires Enabled(s, e) && !e.DriftAnswers?
    ensures IsSettling(Next(s, e).m) ==> Next(s, e).m.inFlight == s.m.inFlight
  {
    match e
    case Poll => CheckSettlesNothing(s.m);
    case TimerDue => CheckSettlesNothing(s.m.(timer := false));
    case OwnEnds(wrote, which) => WriteEndSettlesNothing(s, wrote, which);
    case _ =>
  }

  lemma CheckSettlesNothing(m: Monitor)
    ensures IsSettling(AfterCheck(m)) ==> AfterCheck(m).inFlight == m.inFlight
  {
  }

  lemma WriteEndSettlesNothing(s: World, wrote: Option<LocalVersion>, which: nat)
    requires Enabled(s, OwnEnds(wrote, which))
    ensures Next(s, OwnEnds(wrote, which)).m.inFlight == s.m.inFlight
  {
  }

  /** Only an answer that passes the check has the second stat asked. */
  lemma OnlyPassingSettles(s: World, e: Event, v: LocalVersion, against: Version)
    requires Inv(s) && Enabled(s, e)
    requires s.m.inFlight != Some(Settling(v, against)) && Next(s, e).m.inFlight == Some(Settling(v, against))
    ensures Passes(s, e, v)
  {
    if e.DriftAnswers? { PassingSettles(s, e.drift, v, against); } else { OthersSettleNothing(s, e); }
  }

  lemma PassingSettles(s: World, drift: Drift, v: LocalVersion, against: Version)
    requires Inv(s) && Enabled(s, DriftAnswers(drift))
    requires AfterDrift(s.m, drift, s.minted).inFlight == Some(Settling(v, against))
    ensures Passes(s, DriftAnswers(drift), v)
  {
    assert drift == Changed(v) && s.m.writing == 0 && s.m.base.id == s.m.inFlight.value.base.id;
    assert OneObject(s.m.base, LookBase(s.m));
  }

  lemma PassedStays(w: World, events: seq<Event>, n: nat, v: LocalVersion)
    requires Run(w, events) && n <= |events| && Run(w, events[..n])
    requires exists i: nat :: PassedAt(w, events[..n], i, v)
    ensures exists i: nat :: PassedAt(w, events, i, v)
  {
    var i: nat :| PassedAt(w, events[..n], i, v);
    assert events[..n][..i] == events[..i];
    assert PassedAt(w, events, i, v);
  }

  lemma {:induction false} SettlingHasPassed(w: World, events: seq<Event>, v: LocalVersion, against: Version)
    requires Inv(w) && w.m.inFlight.None? && Run(w, events)
    requires State(w, events).m.inFlight == Some(Settling(v, against))
    ensures exists i: nat :: PassedAt(w, events, i, v)
    decreases |events|
  {
    if events != [] {
      var n := |events| - 1;
      var s := State(w, events[..n]);
      RunKeepsInv(w, events[..n]);
      if s.m.inFlight == Some(Settling(v, against)) {
        SettlingHasPassed(w, events[..n], v, against);
        PassedStays(w, events, n, v);
      } else {
        OnlyPassingSettles(s, events[n], v, against);
        assert PassedAt(w, events, n, v);
      }
    }
  }

  /** Each own write that succeeds settles before the ones that reached the file after it. */
  predicate SettlesInOrder(e: Event) {
    e.OwnEnds? && e.wrote.Some? ==> e.which == 0
  }

  predicate InLandingOrder(events: seq<Event>) {
    forall i :: 0 <= i < |events| ==> SettlesInOrder(events[i])
  }

  /** No own write begins before the one before it has settled. */
  ghost predicate OneAtATime(w: World, events: seq<Event>)
    requires Run(w, events)
    decreases |events|
  {
    events == [] ||
    (OneAtATime(w, events[..|events| - 1]) && (events[|events| - 1].OwnBegins? ==> State(w, events[..|events| - 1]).m.writing == 0))
  }

  /** One at a time, they settle in the order they reached the file. */
  lemma {:induction false} OneAtATimeIsInOrder(baseline: LocalVersion, own: bool, events: seq<Event>)
    requires Run(Begin(baseline, own), events) && OneAtATime(Begin(baseline, own), events)
    ensures InLandingOrder(events) && State(Begin(baseline, own), events).m.writing <= 1
  {
    if events != [] {
      var before, last := events[..|events| - 1], events[|events| - 1];
      OneAtATimeIsInOrder(baseline, own, before);
      RunKeepsInv(Begin(baseline, own), before);
      OneMoreWrite(State(Begin(baseline, own), before), last);
      forall i | 0 <= i < |events| ensures SettlesInOrder(events[i]) {
        if i < |before| { assert before[i] == events[i]; }
      }
    }
  }

  lemma OneMoreWrite(w: World, e: Event)
    requires Inv(w) && Enabled(w, e) && w.m.writing <= 1 && (e.OwnBegins? ==> w.m.writing == 0)
    ensures SettlesInOrder(e) && Next(w, e).m.writing <= 1
  {
    match e
    case Poll => CheckWritesNothing(w.m);
    case TimerDue => CheckWritesNothing(w.m.(timer := false));
    case DriftAnswers(drift) => DriftWritesNothing(w.m, drift, w.minted);
    case _ =>
  }

  lemma CheckWritesNothing(m: Monitor)
    ensures AfterCheck(m).writing == m.writing
  {
  }

  lemma DriftWritesNothing(m: Monitor, drift: Drift, minted: nat)
    requires m.inFlight.Some? && m.inFlight.value.Looking?
    ensures AfterDrift(m, drift, minted).writing == m.writing
  {
  }

  lemma {:induction false} InOrderIsOrdered(w: World, events: seq<Event>)
    requires w.ordered && Run(w, events) && InLandingOrder(events)
    ensures State(w, events).ordered
  {
    if events != [] {
      var before, last := events[..|events| - 1], events[|events| - 1];
      forall i | 0 <= i < |before| ensures SettlesInOrder(before[i]) { assert before[i] == events[i]; }
      InOrderIsOrdered(w, before);
      assert SettlesInOrder(last);
      OrderedStays(State(w, before), last);
    }
  }

  lemma OrderedStays(w: World, e: Event)
    requires Enabled(w, e) && w.ordered && SettlesInOrder(e)
    ensures Next(w, e).ordered
  {
  }

  /**
   * What onChange is told. The version passed the check against a baseline that was still
   * current, with no write in progress, and is not that baseline's content; and the second stat
   * met its size and timestamp.
   */
  lemma ReportsPassedTheCheck(baseline: LocalVersion, own: bool, events: seq<Event>, e: Event)
    requires Run(Begin(baseline, own), events) && Enabled(State(Begin(baseline, own), events), e)
    requires Report(State(Begin(baseline, own), events), e).Some?
    ensures e.SettleAnswers? && e.still
    ensures exists i: nat :: PassedAt(Begin(baseline, own), events, i, Report(State(Begin(baseline, own), events), e).value)
  {
    var m := State(Begin(baseline, own), events).m;
    SettlingHasPassed(Begin(baseline, own), events, m.inFlight.value.version, m.inFlight.value.against);
  }

  /** What the look that passed at step `i` had read is not what filex itself wrote and still
      stands on. */
  ghost predicate OutsideAt(w: World, events: seq<Event>, i: nat)
    requires Run(w, events)
  {
    && i < |events| && Run(w, events[..i])
    && State(w, events[..i]).read.Some?
    && !(State(w, events[..i]).read.value.own && State(w, events[..i]).read.value.standing)
  }

  /** And as long as own writes settle in the order they reached the file - one at a time, say -
      what it carries was put there by another program, or by filex before an adopt() of other
      content moved the baseline away from it. */
  lemma ReportsAreOutside(baseline: LocalVersion, own: bool, events: seq<Event>, e: Event)
    requires Run(Begin(baseline, own), events) && Enabled(State(Begin(baseline, own), events), e)
    requires InLandingOrder(events)
    requires Report(State(Begin(baseline, own), events), e).Some?
    ensures exists i: nat :: PassedAt(Begin(baseline, own), events, i, Report(State(Begin(baseline, own), events), e).value)
                             && OutsideAt(Begin(baseline, own), events, i)
  {
    var w := Begin(baseline, own);
    ReportsPassedTheCheck(baseline, own, events, e);
    var i: nat :| PassedAt(w, events, i, Report(State(w, events), e).value);
    forall k | 0 <= k < i ensures SettlesInOrder(events[..i][k]) { assert events[..i][k] == events[k]; }
    InOrderIsOrdered(w, events[..i]);
    assert OutsideAt(w, events, i);
  }

  // ── own writes that settle out of order ──────────────────────────────

  /** A look that begins now, with nothing else going on: its answer, and what onChange is told. */
  function LookAnswer(w: World, v: LocalVersion): Event {
    DriftAnswers(if w.file.digest == w.m.base.record.sha256 then Unchanged(w.m.base.record) else Changed(v))
  }

  ghost predicate LookReports(w: World, v: LocalVersion)
    requires AtRest(w)
  {
    var looking := Next(Next(w, Poll), LookReads);
    && Enabled(looking, LookAnswer(w, v))
    && var answered := Next(looking, LookAnswer(w, v));
       Enabled(answered, SettleAnswers(true)) && Report(answered, SettleAnswers(true)) == Some(v)
  }

  ghost predicate AtRest(w: World) {
    !w.m.stopped && w.m.writing == 0 && w.m.inFlight.None?
  }

  /** A look at rest reports what stands in the file exactly when the baseline is other content
      and it was not reported before. */
  lemma WhatALookReports(w: World, v: LocalVersion)
    requires AtRest(w) && v.sha256 == w.file.digest
    ensures LookReports(w, v) <==> w.file.digest != w.m.base.record.sha256 && w.m.reported != Some(w.file.digest)
  {
  }

  /** Two own writes reached the file, `first` before `second`; they settle in that order or in
      the other one. */
  function Settled(w: World, first: LocalVersion, second: LocalVersion, reversed: bool): World
    requires BothLanded(w, first, second)
  {
    if reversed then Next(Next(w, OwnEnds(Some(second), 1)), OwnEnds(Some(first), 0))
    else Next(Next(w, OwnEnds(Some(first), 0)), OwnEnds(Some(second), 0))
  }

  predicate BothLanded(w: World, first: LocalVersion, second: LocalVersion) {
    && w.m.writing == 2 && w.landed == [first.sha256, second.sha256] && !w.m.stopped && w.m.inFlight.None?
    && w.file == OnDisk(second.sha256, true, true)
  }

  /**
   * The order decides. The next look reports filex's own write, which still stands in the file, as
   * an outside one - exactly when the two settled in the other order than they reached the file
   * and their contents differ.
   */
  lemma OrderDecides(w: World, first: LocalVersion, second: LocalVersion, reversed: bool)
    requires BothLanded(w, first, second)
    ensures var t := Settled(w, first, second, reversed);
            && t.file.own && t.file.standing && AtRest(t)
            && (LookReports(t, second) <==> reversed && first.sha256 != second.sha256)
  {
    var t := Settled(w, first, second, reversed);
    assert [first.sha256, second.sha256][..1] + [first.sha256, second.sha256][2..] == [first.sha256];
    assert [first.sha256, second.sha256][1..] == [second.sha256];
    WhatALookReports(t, second);
  }

  /** And two such writes do come about. */
  lemma OwnWritesMayOverlap(baseline: LocalVersion, own: bool, first: LocalVersion, second: LocalVersion)
    ensures var events := [OwnBegins, OwnBegins, OwnLands(first.sha256), OwnLands(second.sha256)];
            Run(Begin(baseline, own), events) && BothLanded(State(Begin(baseline, own), events), first, second)
  {
    var w := Begin(baseline, own);
    var e1 := [OwnBegins];
    var e2 := e1 + [OwnBegins];
    var e3 := e2 + [OwnLands(first.sha256)];
    var e4 := e3 + [OwnLands(second.sha256)];
    OneMoreEvent(w, [], OwnBegins);
    OneMoreEvent(w, e1, OwnBegins);
    OneMoreEvent(w, e2, OwnLands(first.sha256));
    OneMoreEvent(w, e3, OwnLands(second.sha256));
    assert e4 == [OwnBegins, OwnBegins, OwnLands(first.sha256), OwnLands(second.sha256)];
  }

  lemma OneMoreEvent(w: World, events: seq<Event>, e: Event)
    requires Run(w, events) && Enabled(State(w, events), e)
    ensures Run(w, events + [e]) && State(w, events + [e]) == Next(State(w, events), e)
  {
    assert (events + [e])[..|events|] == events;
  }

  /** The events that let one version be reported again. */
  predicate Forgets(e: Event) {
    e.Adopted? || (e.OwnEnds? && e.wrote.Some?) || (e.Seen? && e.version.Some?)
  }

  /** Reported at step `i`: the digest. */
  ghost predicate ReportedAt(w: World, events: seq<Event>, i: nat, digest: Digest)
    requires Run(w, events)
  {
    && i < |events| && Run(w, events[..i]) && Enabled(State(w, events[..i]), events[i])
    && Report(State(w, events[..i]), events[i]).Some?
    && Report(State(w, events[..i]), events[i]).value.sha256 == digest
  }

  lemma RemembersUnlessForgets(s: World, e: Event, digest: Digest)
    requires Enabled(s, e) && s.m.reported == Some(digest) && !Forgets(e) && Report(s, e).None?
    ensures Next(s, e).m.reported == Some(digest)
  {
    match e
    case Poll => CheckRemembers(s.m);
    case TimerDue => CheckRemembers(s.m.(timer := false));
    case DriftAnswers(drift) => DriftRemembers(s.m, drift, s.minted);
    case _ =>
  }

  lemma CheckRemembers(m: Monitor)
    ensures AfterCheck(m).reported == m.reported
  {
  }

  lemma DriftRemembers(m: Monitor, drift: Drift, minted: nat)
    requires m.inFlight.Some? && m.inFlight.value.Looking?
    ensures AfterDrift(m, drift, minted).reported == m.reported
  {
  }

  /** Nothing forgets, nothing else is reported: the last report is still remembered. */
  lemma {:induction false} StillReported(w: World, events: seq<Event>, i: nat, digest: Digest)
    requires Run(w, events) && ReportedAt(w, events, i, digest)
    requires forall k :: i < k < |events| ==> !Forgets(events[k])
    requires forall k, d :: i < k < |events| ==> !ReportedAt(w, events, k, d)
    ensures State(w, events).m.reported == Some(digest)
    decreases |events|
  {
    var before, last := events[..|events| - 1], events[|events| - 1];
    if i < |before| {
      assert events[..i] == before[..i];
      forall k, d | i < k < |before| ensures !ReportedAt(w, before, k, d) {
        assert events[..k] == before[..k];
        assert !ReportedAt(w, events, k, d);
      }
      StillReported(w, before, i, digest);
      var s := State(w, before);
      if Report(s, last).Some? {
        assert events[..|before|] == before;
        assert ReportedAt(w, events, |before|, Report(s, last).value.sha256);
      }
      RemembersUnlessForgets(s, last, digest);
    } else {
      assert events[..i] == before;
    }
  }

  /** Two reports in a row never carry the same content, unless an adopt(), an own write or a
      markSeen() came between them. */
  lemma NeverTwiceInARow(w: World, events: seq<Event>, i: nat, j: nat, digest: Digest)
    requires Run(w, events) && i < j
    requires ReportedAt(w, events, i, digest) && ReportedAt(w, events, j, digest)
    requires forall k, d :: i < k < j ==> !ReportedAt(w, events, k, d)
    ensures exists k :: i < k < j && Forgets(events[k])
  {
    if forall k :: i < k < j ==> !Forgets(events[k]) {
      var before := events[..j];
      assert before[..i] == events[..i];
      forall k, d | i < k < |before| ensures !ReportedAt(w, before, k, d) {
        assert before[..k] == events[..k];
        assert !ReportedAt(w, events, k, d);
      }
      StillReported(w, before, i, digest);
      assert false;
    }
  }

  // ── stop() ───────────────────────────────────────────────────────────

  /** The look in flight has not answered yet. */
  predicate MayReport(m: Monitor) {
    m.inFlight.Some? && !m.inFlight.value.Answered?
  }

  ghost predicate StoppedBy(w: World, events: seq<Event>, n: nat)
    requires Run(w, events)
  {
    n <= |events| && Run(w, events[..n]) && State(w, events[..n]).m.stopped
  }

  lemma StoppedStep(s: World, e: Event)
    requires Inv(s) && Enabled(s, e) && s.m.stopped
    ensures var m := Next(s, e).m;
            && m.stopped && !e.TimerDue?
            && (s.m.inFlight.None? ==> m.inFlight.None?)
            && (MayReport(m) ==> MayReport(s.m) && Report(s, e).None?)
            && (Report(s, e).Some? ==> MayReport(s.m))
  {
    match e
    case DriftAnswers(drift) => StoppedDrift(s.m, drift, s.minted);
    case _ =>
  }

  lemma StoppedDrift(m: Monitor, drift: Drift, minted: nat)
    requires m.stopped && m.inFlight.Some? && m.inFlight.value.Looking?
    ensures AfterDrift(m, drift, minted).stopped && AfterDrift(m, drift, minted).inFlight.Some?
  {
  }

  /** How often onChange was called from step `n` on. */
  ghost function Reports(w: World, events: seq<Event>, n: nat): nat
    requires Run(w, events)
    decreases |events|
  {
    if |events| <= n then 0
    else
      var before, last := events[..|events| - 1], events[|events| - 1];
      Reports(w, before, n) + if Report(State(w, before), last).Some? then 1 else 0
  }

  function StillToCome(m: Monitor): nat {
    if MayReport(m) then 1 else 0
  }

  /** Reports only come out of the look which stop() found in flight. */
  lemma {:induction false} StoppedRun(w: World, events: seq<Event>, n: nat)
    requires Inv(w) && Run(w, events) && StoppedBy(w, events, n)
    ensures State(w, events).m.stopped
    ensures State(w, events[..n]).m.inFlight.None? ==> State(w, events).m.inFlight.None?
    ensures Reports(w, events, n) + StillToCome(State(w, events).m) <= StillToCome(State(w, events[..n]).m)
    decreases |events|
  {
    if n == |events| {
      assert events[..n] == events;
    } else {
      var before := events[..|events| - 1];
      assert before[..n] == events[..n];
      RunKeepsInv(w, before);
      StoppedRun(w, before, n);
      StoppedStep(State(w, before), events[|events| - 1]);
    }
  }

  /** After stop() no timer is due and no look begins. */
  lemma NothingBeginsAfterStop(baseline: LocalVersion, own: bool, events: seq<Event>, n: nat, e: Event)
    requires Run(Begin(baseline, own), events) && StoppedBy(Begin(baseline, own), events, n)
    requires Enabled(State(Begin(baseline, own), events), e)
    ensures var s := State(Begin(baseline, own), events);
            && !e.TimerDue? && !Next(s, e).m.timer
            && (s.m.inFlight.None? ==> Next(s, e).m.inFlight.None?)
  {
    var s := State(Begin(baseline, own), events);
    RunKeepsInv(Begin(baseline, own), events);
    StoppedRun(Begin(baseline, own), events, n);
    StoppedStep(s, e);
    NextKeepsInv(s, e);
  }

  /** And one report can still come at the most, in any continuation: that of the look which stop()
      found in flight. */
  lemma OneReportAfterStop(baseline: LocalVersion, own: bool, events: seq<Event>, n: nat)
    requires Run(Begin(baseline, own), events) && StoppedBy(Begin(baseline, own), events, n)
    ensures Reports(Begin(baseline, own), events, n) <= if MayReport(State(Begin(baseline, own), events[..n]).m) then 1 else 0
  {
    StoppedRun(Begin(baseline, own), events, n);
  }

  // ── the class ────────────────────────────────────────────────────────

  class LocalDocMonitor {
    var base: Version
    var timer: bool
    var writing: nat
    var heardWhileWriting: bool
    var inFlight: Option<Look>
    var again: bool
    var reported: Option<Digest>
    var stopped: bool

    ghost function State(): Monitor
      reads this
    {
      Monitor(base, timer, writing, heardWhileWriting, inFlight, again, reported, stopped)
    }

    constructor (baseline: Version)
      ensures State() == Watching(baseline)
    {
      base, timer, writing, heardWhileWriting := baseline, false, 0, false;
      inFlight, again, reported, stopped := None, false, None, false;
    }

    method Schedule()
      modifies this`timer
      ensures State() == Scheduled(old(State()))
    {
      if stopped { return; }
      timer := true;
    }

    method Stop()
      modifies this`stopped, this`timer
      ensures State() == AfterStop(old(State()))
    {
      stopped := true;
      timer := false;
    }

    method Adopt(v: Version)
      modifies this`base, this`reported
      ensures State() == AfterAdopt(old(State()), v)
    {
      base := v;
      reported := None;
    }

    method MarkSeen(v: Option<LocalVersion>)
      modifies this`reported
      ensures State() == AfterMarkSeen(old(State()), v)
    {
      if v.Some? { reported := Some(v.value.sha256); }
    }

    /** ownWrite up to its await. */
    method OwnWriteBegins()
      modifies this`writing
      ensures State() == AfterOwnBegin(old(State()))
    {
      writing := writing + 1;
    }

    /** ownWrite after its await: the version written, or none when the write threw. */
    method OwnWriteEnds(wrote: Option<Version>)
      requires writing > 0
      modifies this
      ensures State() == AfterOwnEnd(old(State()), wrote)
    {
      if wrote.Some? { Adopt(wrote.value); }
      writing := writing - 1;
      if writing == 0 && heardWhileWriting {
        heardWhileWriting := false;
        Schedule();
      }
    }

    /** check() up to its await. */
    method Check()
      modifies this`heardWhileWriting, this`again, this`inFlight
      ensures State() == AfterCheck(old(State()))
    {
      if stopped { return; }
      if writing > 0 {
        heardWhileWriting := true;
        return;
      }
      if inFlight.Some? {
        again := true;
        return;
      }
      inFlight := Some(Looking(base));
    }

    method TimerFires()
      modifies this
      ensures State() == AfterTimer(old(State()))
    {
      timer := false;
      Check();
    }

    /** look() from localDrift's answer to its next await, or to its end. */
    method DriftComes(drift: Drift, minted: nat)
      requires inFlight.Some? && inFlight.value.Looking?
      modifies this
      ensures State() == AfterDrift(old(State()), drift, minted)
    {
      var against := inFlight.value.base;
      inFlight := Some(Answered);
      match drift {
        case Unreadable => return;
        case _ =>
      }
      if base.id != against.id || writing > 0 {
        Schedule();
        return;
      }
      match drift {
        case Unchanged(version) => base := if version == against.record then against else Version(version, minted);
        case Changed(version) => inFlight := Some(Settling(version, base));
        case _ =>
      }
    }

    /** look() from the second stat to its end: what onChange is called with. */
    method SettleComes(still: bool) returns (change: Option<LocalVersion>)
      requires inFlight.Some? && inFlight.value.Settling?
      modifies this
      ensures (State(), change) == AfterSettle(old(State()), still)
    {
      var version := inFlight.value.version;
      inFlight := Some(Answered);
      if !still {
        Schedule();
        return None;
      }
      if reported == Some(version.sha256) { return None; }
      reported := Some(version.sha256);
      return Some(version);
    }

    /** check() after its await. */
    method LookEnds()
      modifies this
      ensures State() == AfterLook(old(State()))
    {
      inFlight := None;
      if again {
        again := false;
        Schedule();
      }
    }
  }
}
