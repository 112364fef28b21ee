/**
 * At most one report every interval, the newest one, and always the last one
 * (throttleReports, desktop/src/dragfill.ts). The clock never goes back and a timer never
 * fires early; it may fire as late as it likes.
 */
module ReportThrottling {
  import opened Content

  /** The closure's variables. `due` is when the pending timer may fire. */
  datatype Throttle<T> = Throttle(lastSentAt: Option<int>, held: Option<T>, due: Option<int>, finished: bool)

  function Fresh<T>(): Throttle<T> {
    Throttle(None, None, None, false)
  }

  /** push: the throttle after it, and what it handed to `send`. */
  function AfterPush<T>(t: Throttle<T>, p: T, last: bool, interval: nat, now: int): (Throttle<T>, Option<T>) {
    if t.finished then (t, None)
    else if last then (t.(due := None, held := None, finished := true), Some(p))
    else
      var wait := if t.lastSentAt.None? then 0 else t.lastSentAt.value + interval - now;
      if wait <= 0 && t.due.None? then (t.(lastSentAt := Some(now)), Some(p))
      else (t.(held := Some(p), due := if t.due.None? then Some(now + wait) else t.due), None)
  }

  /** The timer's callback. */
  function AfterFlush<T>(t: Throttle<T>, now: int): (Throttle<T>, Option<T>) {
    if t.held.None? || t.finished then (t.(due := None), None)
    else (t.(due := None, held := None, lastSentAt := Some(now)), t.held)
  }

  function AfterClose<T>(t: Throttle<T>): Throttle<T> {
    t.(due := None, held := None, finished := true)
  }

  // ── runs ─────────────────────────────────────────────────────────────

  datatype Event<T> = Push(p: T, last: bool) | TimerFires | Close

  /** An event and the clock it happens at. */
  datatype Timed<T> = Timed(e: Event<T>, now: int)

  /** One report handed over: which push it is, when, and whether it ended the work. */
  datatype Sent = Sent(push: nat, at: int, final: bool)

  /** The throttle of numbered pushes, what was pushed, what was handed over, and the clock. */
  datatype World<T> = World(t: Throttle<nat>, pushes: seq<T>, sent: seq<Sent>, clock: int)

  predicate Enabled<T>(w: World<T>, e: Timed<T>) {
    w.clock <= e.now && (e.e.TimerFires? ==> w.t.due.Some? && w.t.due.value <= e.now)
  }

  function Next<T>(w: World<T>, e: Timed<T>, interval: nat): World<T>
    requires Enabled(w, e)
  {
    match e.e
    case Push(p, last) =>
      var (t, out) := AfterPush(w.t, |w.pushes|, last, interval, e.now);
      World(t, w.pushes + [p], Handed(w.sent, out, e.now, last), e.now)
    case TimerFires =>
      var (t, out) := AfterFlush(w.t, e.now);
      World(t, w.pushes, Handed(w.sent, out, e.now, false), e.now)
    case Close => World(AfterClose(w.t), w.pushes, w.sent, e.now)
  }

  function Handed(sent: seq<Sent>, out: Option<nat>, now: int, final: bool): seq<Sent> {
    if out.None? then sent else sent + [Sent(out.value, now, final)]
  }

  function Begin<T>(clock: int): World<T> {
    World(Fresh(), [], [], clock)
  }

  ghost predicate Run<T>(clock: int, interval: nat, events: seq<Timed<T>>)
    decreases |events|, 0
  {
    events == [] ||
    (Run(clock, interval, events[..|events| - 1])
     && Enabled(State(clock, interval, events[..|events| - 1]), events[|events| - 1]))
  }

  ghost function State<T>(clock: int, interval: nat, events: seq<Timed<T>>): World<T>
    requires Run(clock, interval, events)
    decreases |events|, 1
  {
    if events == [] then Begin(clock)
    else Next(State(clock, interval, events[..|events| - 1]), events[|events| - 1], interval)
  }

  /** What was sent, out of `pushes` pushes: in order, none twice, apart unless final, and a
      final one is the end. */
  ghost predicate InOrder(sent: seq<Sent>, pushes: nat, clock: int, interval: nat) {
    && (forall i :: 0 <= i < |sent| ==> sent[i].push < pushes && sent[i].at <= clock)
    && (forall i, j :: 0 <= i < j < |sent| ==> Follows(sent[i], sent[j], interval))
  }

  predicate Follows(s: Sent, t: Sent, interval: nat) {
    !s.final && s.push < t.push && s.at <= t.at && (!t.final ==> s.at + interval <= t.at)
  }

  lemma OneMore(sent: seq<Sent>, pushes: nat, more: nat, clock: int, now: int, interval: nat, s: Sent)
    requires InOrder(sent, pushes, clock, interval) && clock <= now && s.push < more && pushes <= more && s.at <= now
    requires sent != [] ==> Follows(sent[|sent| - 1], s, interval)
    ensures InOrder(sent + [s], more, now, interval)
  {
    var all := sent + [s];
    forall i, j | 0 <= i < j < |all| ensures Follows(all[i], all[j], interval) {
      if j == |sent| && i < |sent| - 1 { assert Follows(sent[i], sent[|sent| - 1], interval); }
    }
  }

  /** How the throttle stands to the last report sent and the newest one pushed. */
  ghost predicate Standing(t: Throttle<nat>, sent: seq<Sent>, pushes: nat, interval: nat) {
    // A report is held exactly while a timer is pending, and the timer is for the moment the
    // interval since the last report is up.
    && (t.held.Some? <==> t.due.Some?)
    && (t.due.Some? ==> t.lastSentAt.Some? && t.due.value == t.lastSentAt.value + interval)
    && (t.finished ==> t.held.None?)
    && (!t.finished ==>
          if sent == [] then t.lastSentAt.None? && pushes == 0
          else
            var last := sent[|sent| - 1];
            && !last.final
            && t.lastSentAt == Some(last.at)
            // The newest push has been sent or is the one held.
            && (if t.held.Some? then t.held == Some(pushes - 1) && last.push < pushes - 1 else last.push == pushes - 1))
  }

  ghost predicate Inv<T>(w: World<T>, interval: nat) {
    Standing(w.t, w.sent, |w.pushes|, interval) && InOrder(w.sent, |w.pushes|, w.clock, interval)
  }

  lemma PushKeepsInv<T>(w: World<T>, p: T, last: bool, now: int, interval: nat)
    requires Inv(w, interval) && w.clock <= now
    ensures Inv(Next(w, Timed(Push(p, last), now), interval), interval)
  {
    var n := |w.pushes|;
    var out := AfterPush(w.t, n, last, interval, now).1;
    if out.Some? { OneMore(w.sent, n, n + 1, w.clock, now, interval, Sent(n, now, last)); }
  }

  lemma FlushKeepsInv<T>(w: World<T>, now: int, interval: nat)
    requires Inv(w, interval) && Enabled(w, Timed(TimerFires, now))
    ensures Inv(Next(w, Timed(TimerFires, now), interval), interval)
  {
    var out := AfterFlush(w.t, now).1;
    if out.Some? { OneMore(w.sent, |w.pushes|, |w.pushes|, w.clock, now, interval, Sent(out.value, now, false)); }
  }

  lemma {:induction false} RunHasInv<T>(clock: int, interval: nat, events: seq<Timed<T>>)
    requires Run(clock, interval, events)
    ensures Inv(State(clock, interval, events), interval)
  {
    if events != [] {
      var before, last := events[..|events| - 1], events[|events| - 1];
      RunHasInv(clock, interval, before);
      var w := State(clock, interval, before);
      match last.e
      case Push(p, final) => PushKeepsInv(w, p, final, last.now, interval);
      case TimerFires => FlushKeepsInv(w, last.now, interval);
      case Close =>
    }
  }

  // ── the theorems ─────────────────────────────────────────────────────

  /** Over any schedule: what is sent is an in-order selection of what was pushed; reports that
      are not the last are at least an interval apart; the newest push is never passed over for
      an older one - it was sent, or it is held with a timer pending. */
  lemma AtMostOneAnInterval<T>(clock: int, interval: nat, events: seq<Timed<T>>)
    requires Run(clock, interval, events)
    ensures var w := State(clock, interval, events);
            && (forall i, j :: 0 <= i < j < |w.sent| ==> w.sent[i].push < w.sent[j].push < |w.pushes|)
            && (forall i, j :: 0 <= i < j < |w.sent| && !w.sent[j].final ==> w.sent[j].at - w.sent[i].at >= interval)
            && (w.t.held.Some? <==> w.t.due.Some?)
            && (!w.t.finished && w.pushes != [] ==>
                  w.t.held == Some(|w.pushes| - 1)
                  || (w.t.held.None? && w.sent != [] && w.sent[|w.sent| - 1].push == |w.pushes| - 1))
  {
    RunHasInv(clock, interval, events);
    var sent := State(clock, interval, events).sent;
    assert forall i, j :: 0 <= i < j < |sent| ==> Follows(sent[i], sent[j], interval);
  }

  /** In one step: the last report is sent the moment it is pushed, whatever is held. */
  lemma LastIsAlwaysSent<T>(clock: int, interval: nat, events: seq<Timed<T>>, p: T, now: int)
    requires Run(clock, interval, events) && !State(clock, interval, events).t.finished
    requires State(clock, interval, events).clock <= now
    ensures var w := State(clock, interval, events);
            var x := Next(w, Timed(Push(p, true), now), interval);
            x.sent == w.sent + [Sent(|w.pushes|, now, true)] && x.pushes[|w.pushes|] == p && x.t.finished
  {
  }

  /** After the last report or a close, no event has anything sent. */
  lemma {:induction false} NothingAfterTheEnd<T>(clock: int, interval: nat, events: seq<Timed<T>>, n: nat)
    requires Run(clock, interval, events) && n <= |events| && Run(clock, interval, events[..n])
    requires State(clock, interval, events[..n]).t.finished
    ensures State(clock, interval, events).t.finished
    ensures State(clock, interval, events).sent == State(clock, interval, events[..n]).sent
    decreases |events|
  {
    if n == |events| {
      assert events[..n] == events;
    } else {
      var before := events[..|events| - 1];
      assert before[..n] == events[..n];
      NothingAfterTheEnd(clock, interval, before, n);
    }
  }

  // ── the closure ──────────────────────────────────────────────────────

  class ReportThrottle<T> {
    const interval: nat
    var lastSentAt: Option<int>
    var held: Option<T>
    var due: Option<int>
    var finished: bool

    ghost function Value(): Throttle<T>
      reads this
    {
      Throttle(lastSentAt, held, due, finished)
    }

    constructor (interval: nat)
      ensures Value() == Fresh() && this.interval == interval
    {
      this.interval := interval;
      lastSentAt, held, due, finished := None, None, None, false;
    }

    method Push(p: T, last: bool, now: int) returns (sent: Option<T>)
      modifies this
      ensures (Value(), sent) == AfterPush(old(Value()), p, last, interval, now)
    {
      if finished { return None; }
      if last {
        due := None;
        held := None;
        finished := true;
        return Some(p);
      }
      var wait := if lastSentAt.None? then 0 else lastSentAt.value + interval - now;
      if wait <= 0 && due.None? {
        lastSentAt := Some(now);
        return Some(p);
      }
      held := Some(p);
      if due.None? { due := Some(now + if wait < 0 then 0 else wait); }
      return None;
    }

    method Flush(now: int) returns (sent: Option<T>)
      modifies this
      ensures (Value(), sent) == AfterFlush(old(Value()), now)
    {
      due := None;
      if held.None? || finished { return None; }
      sent := held;
      held := None;
      lastSentAt := Some(now);
    }

    method Close()
      modifies this
      ensures Value() == AfterClose(old(Value()))
    {
      due := None;
      held := None;
      finished := true;
    }
  }
}
