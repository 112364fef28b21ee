/**
 * Every drop being filled in, and the explorer's Stop, which stops the one the window heard
 * from last (DragFills, desktop/src/dragfill.ts).
 */
module DragFilling {
  import opened Content
  import T = ReportThrottling

  const REPORT_INTERVAL_MS: nat := 250

  /** One report of a drop's filling-in. */
  datatype FillReport = FillReport(done: nat, total: nat, dropped: string, files: nat, finished: bool, cancelled: bool)

  /** A drop, as the registry keeps it. */
  datatype Fill = Fill(throttle: T.Throttle<FillReport>, latest: Option<FillReport>, aborted: bool)

  /** The registry: the drops in the order they began, numbered from 0, and the keys of the
      insertion-ordered map `shown`, the newest at the end. */
  datatype Fills = Fills(fills: seq<Fill>, shown: seq<nat>)

  /** A report that reaches the window, and whose drop it is of. */
  datatype Said = Said(id: nat, report: FillReport)

  const NoFills: Fills := Fills([], [])

  function Without(shown: seq<nat>, id: nat): seq<nat> {
    if shown == [] then []
    else if shown[|shown| - 1] == id then Without(shown[..|shown| - 1], id)
    else Without(shown[..|shown| - 1], id) + [shown[|shown| - 1]]
  }

  /** What the throttle's `send` does to `shown`. */
  function Heard(shown: seq<nat>, id: nat, p: FillReport): seq<nat> {
    if p.finished then Without(shown, id) else Without(shown, id) + [id]
  }

  /** The outcome of a throttle call of drop `id`. */
  function Spoken(s: Fills, id: nat, f: Fill, out: Option<FillReport>): (Fills, Option<Said>)
    requires id < |s.fills|
  {
    var t := s.(fills := s.fills[id := f]);
    if out.None? then (t, None) else (t.(shown := Heard(s.shown, id, out.value)), Some(Said(id, out.value)))
  }

  function AfterBegin(s: Fills): Fills {
    s.(fills := s.fills + [Fill(T.Fresh(), None, false)])
  }

  function AfterReport(s: Fills, id: nat, p: FillReport, now: int): (Fills, Option<Said>)
    requires id < |s.fills|
  {
    var f := s.fills[id];
    if f.throttle.finished then (s, None)
    else
      var (t, out) := T.AfterPush(f.throttle, p, p.finished, REPORT_INTERVAL_MS, now);
      Spoken(s, id, f.(latest := Some(p), throttle := t), out)
  }

  function AfterTimer(s: Fills, id: nat, now: int): (Fills, Option<Said>)
    requires id < |s.fills|
  {
    var (t, out) := T.AfterFlush(s.fills[id].throttle, now);
    Spoken(s, id, s.fills[id].(throttle := t), out)
  }

  function AfterFillEnd(s: Fills, id: nat): Fills
    requires id < |s.fills|
  {
    Fills(s.fills[id := s.fills[id].(throttle := T.AfterClose(s.fills[id].throttle))], Without(s.shown, id))
  }

  predicate Known(s: Fills) {
    forall id :: id in s.shown ==> id < |s.fills|
  }

  /** What the stopped drop says: its newest report, ended by Stop. */
  function LastWords(f: Fill): FillReport {
    var p := if f.latest.Some? then f.latest.value else FillReport(0, 0, "", 0, false, false);
    p.(finished := true, cancelled := true)
  }

  /** stop(): what it stopped, and what is said at once. */
  function AfterStop(s: Fills, now: int): (Fills, Option<nat>, Option<Said>)
    requires Known(s)
  {
    if s.shown == [] then (s, None, None)
    else
      var id := s.shown[|s.shown| - 1];
      assert id in s.shown;
      var f := s.fills[id];
      var (t, out) := T.AfterPush(f.throttle, LastWords(f), true, REPORT_INTERVAL_MS, now);
      var (u, said) := Spoken(s, id, f.(aborted := true, throttle := t), out);
      (u, Some(id), said)
  }

  // ── runs ─────────────────────────────────────────────────────────────

  datatype Event =
    | Begins
    | Reports(id: nat, report: FillReport)
    | TimerDue(id: nat)
    | Ends(id: nat)
    | StopPressed

  datatype Timed = Timed(e: Event, now: int)

  /** The registry, every report that reached the window, and the clock. */
  datatype World = World(s: Fills, said: seq<Said>, clock: int)

  predicate Enabled(w: World, e: Timed) {
    && w.clock <= e.now
    && match e.e
       case Begins => true
       case Reports(id, _) => id < |w.s.fills|
       case TimerDue(id) => id < |w.s.fills| && w.s.fills[id].throttle.due.Some? && w.s.fills[id].throttle.due.value <= e.now
       case Ends(id) => id < |w.s.fills|
       case StopPressed => Known(w.s)
  }

  function Log(said: seq<Said>, x: Option<Said>): seq<Said> {
    if x.None? then said else said + [x.value]
  }

  function Next(w: World, e: Timed): World
    requires Enabled(w, e)
  {
    match e.e
    case Begins => World(AfterBegin(w.s), w.said, e.now)
    case Reports(id, p) =>
      var (s, x) := AfterReport(w.s, id, p, e.now);
      World(s, Log(w.said, x), e.now)
    case TimerDue(id) =>
      var (s, x) := AfterTimer(w.s, id, e.now);
      World(s, Log(w.said, x), e.now)
    case Ends(id) => World(AfterFillEnd(w.s, id), w.said, e.now)
    case StopPressed =>
      var (s, _, x) := AfterStop(w.s, e.now);
      World(s, Log(w.said, x), e.now)
  }

  ghost predicate Run(events: seq<Timed>)
    decreases |events|, 0
  {
    events == [] || (Run(events[..|events| - 1]) && Enabled(State(events[..|events| - 1]), events[|events| - 1]))
  }

  ghost function State(events: seq<Timed>): World
    requires Run(events)
    decreases |events|, 1
  {
    if events == [] then World(NoFills, [], 0)
    else Next(State(events[..|events| - 1]), events[|events| - 1])
  }

  /** Where the window last heard from a drop, counted from 1; 0 when it never did. */
  function LastHeard(said: seq<Said>, id: nat): (at: nat)
    ensures at <= |said|
    ensures at > 0 ==> said[at - 1].id == id
  {
    if said == [] then 0
    else if said[|said| - 1].id == id then |said|
    else LastHeard(said[..|said| - 1], id)
  }

  /** The drop has said something and neither finished nor ended. */
  predicate Live(w: World, id: nat) {
    id < |w.s.fills| && LastHeard(w.said, id) > 0 && !w.s.fills[id].throttle.finished
  }

  /** No drop's throttle holds anything that would end it, nor what it was not given. */
  predicate Sound(f: Fill) {
    && (f.throttle.held.Some? ==> !f.throttle.held.value.finished)
    && (f.throttle.finished ==> f.throttle.held.None?)
    && (f.aborted ==> f.throttle.finished)
  }

  ghost predicate Inv(w: World) {
    && (forall id :: 0 <= id < |w.s.fills| ==> Sound(w.s.fills[id]))
    && (forall x :: x in w.said ==> x.id < |w.s.fills|)
    // Exactly the live drops are shown, in the order the window last heard from them.
    && (forall id: nat :: id in w.s.shown <==> Live(w, id))
    && Ordered(w.s.shown, w.said)
  }

  // ── what every step keeps ────────────────────────────────────────────

  /** `shown` lists the drops `p` holds of, in the order the window last heard from them. */
  ghost predicate Ordered(shown: seq<nat>, said: seq<Said>) {
    forall i, j {:trigger LastHeard(said, shown[i]), LastHeard(said, shown[j])} ::
      0 <= i < j < |shown| ==> LastHeard(said, shown[i]) < LastHeard(said, shown[j])
  }

  lemma {:induction false} WithoutIs(shown: seq<nat>, said: seq<Said>, id: nat)
    requires Ordered(shown, said)
    ensures forall x :: x in Without(shown, id) <==> x in shown && x != id
    ensures Ordered(Without(shown, id), said)
  {
    if shown != [] {
      var rest, last := shown[..|shown| - 1], shown[|shown| - 1];
      assert shown == rest + [last];
      WithoutIs(rest, said, id);
      var w := Without(rest, id);
      if last != id {
        forall i, j | 0 <= i < j < |w + [last]| ensures LastHeard(said, (w + [last])[i]) < LastHeard(said, (w + [last])[j]) {
          if j == |w| {
            assert w[i] in w && w[i] in rest;
            var k :| 0 <= k < |rest| && rest[k] == w[i];
            assert shown[k] == w[i] && shown[|rest|] == last;
          }
        }
      }
    }
  }

  lemma HeardIsOrdered(shown: seq<nat>, said: seq<Said>, id: nat, p: FillReport)
    requires Ordered(shown, said)
    ensures Ordered(Heard(shown, id, p), said + [Said(id, p)])
    ensures forall x :: x in Heard(shown, id, p) <==> (x in shown && x != id) || (x == id && !p.finished)
  {
    WithoutIs(shown, said, id);
    var w, all := Without(shown, id), said + [Said(id, p)];
    assert all[..|all| - 1] == said;
    forall i | 0 <= i < |w| ensures LastHeard(all, w[i]) == LastHeard(said, w[i]) { assert w[i] in w; }
  }

  /** One throttle call that hands over `out`, finishing the throttle or not. */
  lemma SpokenKeepsInv(w: World, id: nat, f: Fill, out: Option<FillReport>, now: int)
    requires Inv(w) && id < |w.s.fills| && Sound(f) && !w.s.fills[id].throttle.finished
    requires out.Some? ==> (out.value.finished <==> f.throttle.finished)
    requires out.None? ==> !f.throttle.finished
    ensures var (s, x) := Spoken(w.s, id, f, out); Inv(World(s, Log(w.said, x), now))
  {
    var (s, x) := Spoken(w.s, id, f, out);
    var v := World(s, Log(w.said, x), now);
    if out.Some? {
      HeardIsOrdered(w.s.shown, w.said, id, out.value);
      assert v.said[..|v.said| - 1] == w.said;
      forall k: nat ensures k in v.s.shown <==> Live(v, k) {
        assert k in w.s.shown <==> Live(w, k);
      }
    } else {
      forall k: nat ensures k in v.s.shown <==> Live(v, k) {
        assert k in w.s.shown <==> Live(w, k);
      }
    }
  }

  lemma EndKeepsInv(w: World, id: nat, now: int)
    requires Inv(w) && id < |w.s.fills|
    ensures Inv(World(AfterFillEnd(w.s, id), w.said, now))
  {
    WithoutIs(w.s.shown, w.said, id);
    var v := World(AfterFillEnd(w.s, id), w.said, now);
    forall k: nat ensures k in v.s.shown <==> Live(v, k) {
      assert k in w.s.shown <==> Live(w, k);
    }
  }

  lemma {:induction false} UnheardOf(said: seq<Said>, id: nat)
    requires forall x :: x in said ==> x.id < id
    ensures LastHeard(said, id) == 0
  {
    if said != [] {
      assert said[|said| - 1] in said;
      UnheardOf(said[..|said| - 1], id);
    }
  }

  lemma BeginKeepsInv(w: World, now: int)
    requires Inv(w)
    ensures Inv(World(AfterBegin(w.s), w.said, now))
  {
    var v := World(AfterBegin(w.s), w.said, now);
    forall k: nat ensures k in v.s.shown <==> Live(v, k) {
      assert k in w.s.shown <==> Live(w, k);
      if k == |w.s.fills| { UnheardOf(w.said, k); }
    }
  }

  lemma StopKeepsInv(w: World, now: int)
    requires Inv(w) && w.s.shown != []
    ensures var (s, _, x) := AfterStop(w.s, now); Inv(World(s, Log(w.said, x), now))
  {
    var id := w.s.shown[|w.s.shown| - 1];
    assert id in w.s.shown && Live(w, id);
    var f := w.s.fills[id];
    var (t, out) := T.AfterPush(f.throttle, LastWords(f), true, REPORT_INTERVAL_MS, now);
    SpokenKeepsInv(w, id, f.(aborted := true, throttle := t), out, now);
  }

  lemma NextKeepsInv(w: World, e: Timed)
    requires Inv(w) && Enabled(w, e)
    ensures Inv(Next(w, e))
  {
    match e.e
    case Begins => BeginKeepsInv(w, e.now);
    case Reports(id, p) =>
      var f := w.s.fills[id];
      assert Sound(f);
      if !f.throttle.finished {
        var (t, out) := T.AfterPush(f.throttle, p, p.finished, REPORT_INTERVAL_MS, e.now);
        SpokenKeepsInv(w, id, f.(latest := Some(p), throttle := t), out, e.now);
      }
    case TimerDue(id) =>
      var f := w.s.fills[id];
      assert Sound(f);
      var (t, out) := T.AfterFlush(f.throttle, e.now);
      if f.throttle.finished {
        TimerOfFinished(w, id, e.now);
      } else {
        SpokenKeepsInv(w, id, f.(throttle := t), out, e.now);
      }
    case Ends(id) => EndKeepsInv(w, id, e.now);
    case StopPressed => if w.s.shown != [] { StopKeepsInv(w, e.now); }
  }

  lemma TimerOfFinished(w: World, id: nat, now: int)
    requires Inv(w) && id < |w.s.fills| && w.s.fills[id].throttle.finished
    ensures var (s, x) := AfterTimer(w.s, id, now); x.None? && Inv(World(s, Log(w.said, x), now))
  {
    var v := World(AfterTimer(w.s, id, now).0, w.said, now);
    assert Sound(w.s.fills[id]);
    forall k: nat ensures k in v.s.shown <==> Live(v, k) {
      assert k in w.s.shown <==> Live(w, k);
    }
  }

  lemma {:induction false} RunHasInv(events: seq<Timed>)
    requires Run(events)
    ensures Inv(State(events))
  {
    if events != [] {
      RunHasInv(events[..|events| - 1]);
      NextKeepsInv(State(events[..|events| - 1]), events[|events| - 1]);
    }
  }

  // ── the theorems ─────────────────────────────────────────────────────

  /** After any run the shown drops are those that have reported and neither finished nor ended,
      each once, in the order the window last heard from them. */
  lemma ShownIsTheLiveDrops(events: seq<Timed>)
    requires Run(events)
    ensures var w := State(events);
            && (forall id: nat :: id in w.s.shown <==> Live(w, id))
            && (forall i, j :: 0 <= i < j < |w.s.shown| ==>
                  0 < LastHeard(w.said, w.s.shown[i]) < LastHeard(w.said, w.s.shown[j]))
  {
    RunHasInv(events);
    var w := State(events);
    forall i | 0 <= i < |w.s.shown| ensures 0 < LastHeard(w.said, w.s.shown[i]) {
      assert w.s.shown[i] in w.s.shown;
    }
  }

  lemma {:induction false} WithoutAbsent(shown: seq<nat>, id: nat)
    requires id !in shown
    ensures Without(shown, id) == shown
  {
    if shown != [] {
      assert shown == shown[..|shown| - 1] + [shown[|shown| - 1]];
      WithoutAbsent(shown[..|shown| - 1], id);
    }
  }

  lemma WithoutLast(shown: seq<nat>, said: seq<Said>)
    requires Ordered(shown, said) && shown != []
    ensures Without(shown, shown[|shown| - 1]) == shown[..|shown| - 1]
  {
    var rest, last := shown[..|shown| - 1], shown[|shown| - 1];
    forall i | 0 <= i < |rest| ensures rest[i] != last {
      assert LastHeard(said, shown[i]) < LastHeard(said, shown[|rest|]);
    }
    WithoutAbsent(rest, last);
  }

  /** Stop aborts the live drop the window heard from last, says its last words at once, takes
      it off the shown ones and touches no other drop. */
  lemma StopStopsTheLastHeard(w: World, now: int)
    requires Inv(w) && w.s.shown != []
    ensures var (s, stopped, said) := AfterStop(w.s, now);
            && stopped.Some?
            && var id := stopped.value;
            && Live(w, id)
            && (forall other: nat :: Live(w, other) && other != id ==> LastHeard(w.said, other) < LastHeard(w.said, id))
            && said == Some(Said(id, LastWords(w.s.fills[id])))
            && |s.fills| == |w.s.fills|
            && s.fills[id].aborted && s.fills[id].throttle.finished
            && !w.s.fills[id].aborted
            && (forall other :: 0 <= other < |s.fills| && other != id ==> s.fills[other] == w.s.fills[other])
            && s.shown == w.s.shown[..|w.s.shown| - 1]
  {
    var id := w.s.shown[|w.s.shown| - 1];
    assert id in w.s.shown && Live(w, id) && Sound(w.s.fills[id]);
    WithoutLast(w.s.shown, w.said);
    forall other: nat | Live(w, other) && other != id ensures LastHeard(w.said, other) < LastHeard(w.said, id) {
      assert other in w.s.shown;
    }
  }

  /** Once a drop has finished, been stopped or ended, nothing is said of it ever again. */
  lemma {:induction false} NothingMoreIsSaidOfIt(events: seq<Timed>, n: nat, id: nat)
    requires Run(events) && n <= |events| && Run(events[..n])
    requires id < |State(events[..n]).s.fills| && State(events[..n]).s.fills[id].throttle.finished
    ensures id < |State(events).s.fills| && State(events).s.fills[id].throttle.finished
    ensures State(events[..n]).said <= State(events).said
    ensures forall i :: |State(events[..n]).said| <= i < |State(events).said| ==> State(events).said[i].id != id
    decreases |events|
  {
    if n == |events| {
      assert events[..n] == events;
    } else {
      var before := events[..|events| - 1];
      assert before[..n] == events[..n];
      NothingMoreIsSaidOfIt(before, n, id);
      RunHasInv(before);
      SilentOnce(State(before), events[|events| - 1], id);
    }
  }

  lemma SilentOnce(w: World, e: Timed, id: nat)
    requires Inv(w) && Enabled(w, e)
    requires id < |w.s.fills| && w.s.fills[id].throttle.finished
    ensures var v := Next(w, e);
            && id < |v.s.fills| && v.s.fills[id].throttle.finished
            && (v.said == w.said || (|v.said| == |w.said| + 1 && v.said[..|w.said|] == w.said && v.said[|w.said|].id != id))
  {
    if e.e.StopPressed? && w.s.shown != [] {
      var stopped := w.s.shown[|w.s.shown| - 1];
      assert stopped in w.s.shown && Live(w, stopped);
    }
  }

  /** Stop pressed again and again, at these times: the registry and what each press stopped. */
  ghost function Stops(w: World, times: seq<int>): (World, seq<nat>)
    requires Inv(w) && |times| <= |w.s.shown|
    decreases |times|
  {
    if times == [] then (w, [])
    else
      StopStopsTheLastHeard(w, times[0]);
      StopKeepsInv(w, times[0]);
      var (s, id, x) := AfterStop(w.s, times[0]);
      var (v, ids) := Stops(World(s, Log(w.said, x), times[0]), times[1..]);
      (v, [id.value] + ids)
  }

  /** `after` is `before` with the drops of `ids` aborted, none of which was, and no other touched. */
  ghost predicate Aborts(before: seq<Fill>, after: seq<Fill>, ids: seq<nat>) {
    && |after| == |before|
    && (forall id :: id in ids ==> id < |before| && !before[id].aborted && after[id].aborted)
    && (forall id :: 0 <= id < |before| && id !in ids ==> after[id] == before[id])
  }

  lemma AbortsOneMore(before: seq<Fill>, between: seq<Fill>, after: seq<Fill>, id: nat, rest: seq<nat>)
    requires Aborts(before, between, [id]) && Aborts(between, after, rest)
    ensures Aborts(before, after, [id] + rest) && id !in rest
  {
    assert id in [id] && id !in rest;
    forall k ensures k in [id] + rest <==> k == id || k in rest {}
  }

  lemma StopsOnce(w: World, times: seq<int>) returns (u: World)
    requires Inv(w) && 0 < |times| <= |w.s.shown|
    ensures var last := w.s.shown[|w.s.shown| - 1];
            && Inv(u) && u.s.shown == w.s.shown[..|w.s.shown| - 1] && Aborts(w.s.fills, u.s.fills, [last])
            && Stops(w, times) == (Stops(u, times[1..]).0, [last] + Stops(u, times[1..]).1)
  {
    var (s, _, x) := AfterStop(w.s, times[0]);
    u := World(s, Log(w.said, x), times[0]);
    StopStopsTheLastHeard(w, times[0]);
    StopKeepsInv(w, times[0]);
  }

  /** `ids` is the last `k` of `shown`, backwards, and `left` what is before them. */
  ghost predicate TakenOff(shown: seq<nat>, left: seq<nat>, ids: seq<nat>) {
    && |shown| == |left| + |ids| && left == shown[..|left|]
    && (forall i :: 0 <= i < |ids| ==> ids[i] == shown[|shown| - 1 - i])
  }

  lemma TakesOneMore(shown: seq<nat>, left: seq<nat>, ids: seq<nat>)
    requires shown != [] && TakenOff(shown[..|shown| - 1], left, ids)
    ensures TakenOff(shown, left, [shown[|shown| - 1]] + ids)
  {
  }

  lemma OneMoreStop(shown: seq<nat>, left: seq<nat>, before: seq<Fill>, between: seq<Fill>, after: seq<Fill>, rest: seq<nat>)
    requires shown != [] && TakenOff(shown[..|shown| - 1], left, rest)
    requires Aborts(before, between, [shown[|shown| - 1]]) && Aborts(between, after, rest)
    ensures TakenOff(shown, left, [shown[|shown| - 1]] + rest) && Aborts(before, after, [shown[|shown| - 1]] + rest)
  {
    TakesOneMore(shown, left, rest);
    AbortsOneMore(before, between, after, shown[|shown| - 1], rest);
  }

  lemma {:induction false} StopsAre(w: World, times: seq<int>, v: World, ids: seq<nat>)
    requires Inv(w) && |times| <= |w.s.shown| && (v, ids) == Stops(w, times)
    ensures |ids| == |times| && TakenOff(w.s.shown, v.s.shown, ids) && Aborts(w.s.fills, v.s.fills, ids)
    decreases |times|
  {
    if times != [] {
      var u := StopsOnce(w, times);
      var (_, rest) := Stops(u, times[1..]);
      StopsAre(u, times[1..], v, rest);
      OneMoreStop(w.s.shown, v.s.shown, w.s.fills, u.s.fills, v.s.fills, rest);
    }
  }

  /** As many stops as shown drops abort each of them exactly once, the last heard first; fewer
      stops abort the last heard ones. No other drop is touched. */
  lemma StopsAbortEachOnce(w: World, times: seq<int>)
    requires Inv(w) && |times| <= |w.s.shown|
    ensures var (v, ids) := Stops(w, times);
            && v.s.shown == w.s.shown[..|w.s.shown| - |times|]
            && |ids| == |times| && (forall i :: 0 <= i < |ids| ==> ids[i] == w.s.shown[|w.s.shown| - 1 - i])
            && Aborts(w.s.fills, v.s.fills, ids)
  {
    var (v, ids) := Stops(w, times);
    StopsAre(w, times, v, ids);
  }

  // ── the registry ─────────────────────────────────────────────────────

  /** A drop's entry: its throttle, its newest report and whether Stop aborted it. */
  class FillEntry {
    const throttle: T.ReportThrottle<FillReport>
    var latest: Option<FillReport>
    var aborted: bool

    ghost function Value(): Fill
      reads this, throttle
    {
      Fill(throttle.Value(), latest, aborted)
    }

    constructor ()
      ensures Value() == Fill(T.Fresh(), None, false)
      ensures throttle.interval == REPORT_INTERVAL_MS && fresh(throttle)
    {
      throttle := new T.ReportThrottle<FillReport>(REPORT_INTERVAL_MS);
      latest, aborted := None, false;
    }
  }

  class DragFills {
    var entries: seq<FillEntry>
    var shown: seq<nat>

    ghost function Parts(): set<object>
      reads this
    {
      (set i | 0 <= i < |entries| :: entries[i]) + (set i | 0 <= i < |entries| :: entries[i].throttle)
    }

    ghost predicate Valid()
      reads this, Parts()
    {
      && (forall i :: 0 <= i < |entries| ==> entries[i].throttle.interval == REPORT_INTERVAL_MS)
      && (forall i, j :: 0 <= i < j < |entries| ==> entries[i] != entries[j] && entries[i].throttle != entries[j].throttle)
      && (forall id :: id in shown ==> id < |entries|)
    }

    ghost function Value(): Fills
      reads this, Parts()
    {
      Fills(seq(|entries|, i reads this, Parts() requires 0 <= i < |entries| => entries[i].Value()), shown)
    }

    constructor ()
      ensures Valid() && Value() == NoFills && fresh(Parts())
    {
      entries, shown := [], [];
    }

    method Begin() returns (id: nat)
      requires Valid()
      modifies this
      ensures Valid() && fresh(Parts() - old(Parts()))
      ensures Value() == AfterBegin(old(Value())) && id == |old(Value()).fills|
    {
      id := |entries|;
      var entry := new FillEntry();
      entries := entries + [entry];
      assert Value().fills == old(Value()).fills + [Fill(T.Fresh(), None, false)];
    }

    /** The throttle's send: the drop moves to the end of the shown ones, or leaves them. */
    method Send(id: nat, p: FillReport)
      requires Valid() && id < |entries|
      modifies this`shown
      ensures Valid() && Value() == old(Value()).(shown := Heard(old(shown), id, p))
    {
      Remove(id);
      if !p.finished { shown := shown + [id]; }
    }

    method Remove(id: nat)
      requires Valid()
      modifies this`shown
      ensures Valid() && Value() == old(Value()).(shown := Without(old(shown), id))
    {
      WithoutKeeps(shown, id);
      shown := Without(shown, id);
    }

    method Report(id: nat, p: FillReport, now: int) returns (said: Option<Said>)
      requires Valid() && id < |entries|
      modifies this, Parts()
      ensures Valid() && Parts() == old(Parts())
      ensures (Value(), said) == AfterReport(old(Value()), id, p, now)
    {
      var entry := entries[id];
      if entry.throttle.finished {
        assert Value().fills == old(Value()).fills;
        return None;
      }
      entry.latest := Some(p);
      var out := entry.throttle.Push(p, p.finished, now);
      assert Value().fills == old(Value()).fills[id := entry.Value()];
      if out.None? { return None; }
      Send(id, out.value);
      said := Some(Said(id, out.value));
    }

    method TimerFires(id: nat, now: int) returns (said: Option<Said>)
      requires Valid() && id < |entries|
      modifies this, Parts()
      ensures Valid() && Parts() == old(Parts())
      ensures (Value(), said) == AfterTimer(old(Value()), id, now)
    {
      var entry := entries[id];
      var out := entry.throttle.Flush(now);
      assert Value().fills == old(Value()).fills[id := entry.Value()];
      if out.None? { return None; }
      Send(id, out.value);
      said := Some(Said(id, out.value));
    }

    method End(id: nat)
      requires Valid() && id < |entries|
      modifies this, Parts()
      ensures Valid() && Parts() == old(Parts())
      ensures Value() == AfterFillEnd(old(Value()), id)
    {
      var entry := entries[id];
      entry.throttle.Close();
      assert Value().fills == old(Value()).fills[id := entry.Value()];
      Remove(id);
    }

    method Stop(now: int) returns (stopped: Option<nat>, said: Option<Said>)
      requires Valid()
      modifies this, Parts()
      ensures Valid() && Parts() == old(Parts())
      ensures (Value(), stopped, said) == AfterStop(old(Value()), now)
    {
      if shown == [] { return None, None; }
      var id := shown[|shown| - 1];
      assert id in shown;
      var entry := entries[id];
      entry.aborted := true;
      var words := LastWords(Fill(T.Fresh(), entry.latest, true));
      var out := entry.throttle.Push(words, true, now);
      assert Value().fills == old(Value()).fills[id := entry.Value()];
      stopped := Some(id);
      if out.None? { return stopped, None; }
      Send(id, out.value);
      said := Some(Said(id, out.value));
    }
  }

  lemma {:induction false} WithoutKeeps(shown: seq<nat>, id: nat)
    ensures forall x :: x in Without(shown, id) ==> x in shown
  {
    if shown != [] { WithoutKeeps(shown[..|shown| - 1], id); }
  }
}
