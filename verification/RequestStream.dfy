/**
 * The body of a streamed answer: a queue between the network's events and one reader, with
 * backpressure (requestStream, desktop/src/openwith-io.ts). The events come in any order and
 * any number; the reader runs from one suspension to the next.
 */
module RequestStreaming {
  import opened Content

  const HIGH_WATER: nat := 4 * 1024 * 1024
  const LOW_WATER: nat := 1024 * 1024

  datatype Failure = Cut | NetError | ClosedEarly | NoData | Discarded | RequestFailed

  /** Where the reader stands: about to run, suspended until it is woken, suspended with a
      chunk handed over, or done. */
  datatype Reader = Ready | Waiting | Holding | Finished | Thrown

  datatype Stream = Stream(
    queue: seq<Bytes>,
    queued: nat,
    ended: bool,
    failure: Option<Failure>,
    idle: bool,
    paused: bool,
    reader: Reader)

  const Opened: Stream := Stream([], 0, false, None, true, false, Ready)

  function Total(queue: seq<Bytes>): nat {
    if queue == [] then 0 else |queue[0]| + Total(queue[1..])
  }

  function Poke(s: Stream): Stream {
    if s.reader.Waiting? then s.(reader := Ready) else s
  }

  function Fail(s: Stream, f: Failure): Stream {
    s.(failure := if s.failure.None? then Some(f) else s.failure)
  }

  function AfterData(s: Stream, c: Bytes): Stream {
    var queued := s.queued + |c|;
    Poke(s.(queue := s.queue + [c], queued := queued, idle := true,
            paused := if queued >= HIGH_WATER then true else s.paused))
  }

  function AfterEnd(s: Stream): Stream {
    Poke(s.(ended := true, idle := false))
  }

  function AfterFailure(s: Stream, f: Failure): Stream {
    Poke(Fail(s, f).(idle := false))
  }

  function AfterClose(s: Stream): Stream {
    Poke((if s.ended then s else Fail(s, ClosedEarly)).(idle := false))
  }

  function AfterIdle(s: Stream): Stream {
    Poke(Fail(s, NoData).(idle := false))
  }

  function AfterDiscard(s: Stream): Stream {
    var t := s.(idle := false, queue := [], queued := 0);
    Poke(if s.ended then t else Fail(t, Discarded))
  }

  predicate CanRun(s: Stream) {
    s.reader.Ready? || s.reader.Holding?
  }

  /** The reader's loop, to its next suspension: the chunk it hands over, if any. */
  function AfterTurn(s: Stream): (Stream, Option<Bytes>)
    requires CanRun(s)
  {
    if s.queue != [] then
      var c := s.queue[0];
      var queued := if |c| <= s.queued then s.queued - |c| else 0;
      (s.(queue := s.queue[1..], queued := queued, reader := Holding,
          paused := if queued < LOW_WATER then false else s.paused), Some(c))
    else if s.failure.Some? then (s.(reader := Thrown), None)
    else if s.ended then (s.(reader := Finished), None)
    else (s.(reader := Waiting), None)
  }

  // ── runs ─────────────────────────────────────────────────────────────

  datatype Event = Data(chunk: Bytes) | End | Failing(failure: Failure) | Close | IdleDue | Discard | Turn

  /** The stream, every chunk that arrived, which of them the body yielded (as positions among
      those), and whether discard() was called. */
  datatype World = World(s: Stream, received: seq<Bytes>, yielded: seq<nat>, discarded: bool)

  const Begin: World := World(Opened, [], [], false)

  predicate Enabled(w: World, e: Event) {
    (e.IdleDue? ==> w.s.idle) && (e.Turn? ==> CanRun(w.s))
  }

  function Next(w: World, e: Event): World
    requires Enabled(w, e)
  {
    match e
    case Data(c) => w.(s := AfterData(w.s, c), received := w.received + [c])
    case End => w.(s := AfterEnd(w.s))
    case Failing(f) => w.(s := AfterFailure(w.s, f))
    case Close => w.(s := AfterClose(w.s))
    case IdleDue => w.(s := AfterIdle(w.s))
    case Discard => w.(s := AfterDiscard(w.s), discarded := true)
    case Turn =>
      if w.s.queue == [] then w.(s := AfterTurn(w.s).0)
      else
        var at := if |w.s.queue| <= |w.received| then |w.received| - |w.s.queue| else 0;
        w.(s := AfterTurn(w.s).0, yielded := w.yielded + [at])
  }

  ghost predicate Run(events: seq<Event>)
    decreases |events|, 0
  {
    events == [] || (Run(events[..|events| - 1]) && Enabled(State(events[..|events| - 1]), events[|events| - 1]))
  }

  ghost function State(events: seq<Event>): World
    requires Run(events)
    decreases |events|, 1
  {
    if events == [] then Begin else Next(State(events[..|events| - 1]), events[|events| - 1])
  }

  /** The queue is the newest chunks. */
  ghost predicate Newest(queue: seq<Bytes>, received: seq<Bytes>) {
    && |queue| <= |received|
    && queue == received[|received| - |queue|..]
  }

  /** What was yielded came before the first `n`, in order, once each; and when `whole`, none of
      them is missing. */
  ghost predicate Taken(yielded: seq<nat>, n: nat, whole: bool) {
    && (forall i :: 0 <= i < |yielded| ==> yielded[i] < n)
    && (forall i, j :: 0 <= i < j < |yielded| ==> yielded[i] < yielded[j])
    && (whole ==> |yielded| == n && forall i :: 0 <= i < |yielded| ==> yielded[i] == i)
  }

  ghost predicate Inv(w: World) {
    && w.s.queued == Total(w.s.queue)
    && Newest(w.s.queue, w.received)
    && Taken(w.yielded, |w.received| - |w.s.queue|, !w.discarded)
    // The reader waits only when there is nothing for it.
    && (w.s.reader.Waiting? ==> w.s.queue == [] && w.s.failure.None? && !w.s.ended)
    // Backpressure.
    && (w.s.paused ==> w.s.queued >= LOW_WATER || w.discarded)
    && (!w.s.paused ==> w.s.queued < HIGH_WATER)
  }

  lemma {:induction false} TotalOfAppend(queue: seq<Bytes>, c: Bytes)
    ensures Total(queue + [c]) == Total(queue) + |c|
  {
    if queue != [] {
      TotalOfAppend(queue[1..], c);
      assert (queue + [c])[1..] == queue[1..] + [c];
    }
  }

  lemma DataKeepsInv(w: World, c: Bytes)
    requires Inv(w)
    ensures Inv(Next(w, Data(c)))
  {
    var t := Next(w, Data(c));
    TotalOfAppend(w.s.queue, c);
    assert t.received[|t.received| - |t.s.queue|..] == w.received[|w.received| - |w.s.queue|..] + [c];
  }

  lemma OneTaken(queue: seq<Bytes>, received: seq<Bytes>, yielded: seq<nat>, whole: bool)
    requires queue != [] && Newest(queue, received) && Taken(yielded, |received| - |queue|, whole)
    ensures Newest(queue[1..], received) && Total(queue) == |queue[0]| + Total(queue[1..])
    ensures Taken(yielded + [|received| - |queue|], |received| - |queue[1..]|, whole)
  {
  }

  lemma TurnKeepsInv(w: World)
    requires Inv(w) && CanRun(w.s) && w.s.queue != []
    ensures Inv(Next(w, Turn))
  {
    var t := Next(w, Turn);
    OneTaken(w.s.queue, w.received, w.yielded, !w.discarded);
    assert t.s.queue == w.s.queue[1..] && t.s.queued == w.s.queued - |w.s.queue[0]|;
    assert t.yielded == w.yielded + [|w.received| - |w.s.queue|];
  }

  /** The events that leave the queue alone. */
  lemma QueueStays(w: World, e: Event)
    requires Inv(w) && (e.End? || e.Failing? || e.Close? || e.IdleDue? || (e.Turn? && w.s.queue == [])) && Enabled(w, e)
    ensures Inv(Next(w, e))
  {
    var t := Next(w, e);
    assert t.s.queue == w.s.queue && t.s.queued == w.s.queued && t.s.paused == w.s.paused;
    assert t.yielded == w.yielded && t.received == w.received && t.discarded == w.discarded;
    assert t.s.reader.Waiting? ==> t.s.queue == [] && t.s.failure.None? && !t.s.ended;
  }

  lemma DiscardKeepsInv(w: World)
    requires Inv(w)
    ensures Inv(Next(w, Discard))
  {
  }

  lemma NextKeepsInv(w: World, e: Event)
    requires Inv(w) && Enabled(w, e)
    ensures Inv(Next(w, e))
  {
    match e
    case Data(c) => DataKeepsInv(w, c);
    case Discard => DiscardKeepsInv(w);
    case Turn => if w.s.queue != [] { TurnKeepsInv(w); } else { QueueStays(w, e); }
    case _ => QueueStays(w, e);
  }

  lemma {:induction false} RunHasInv(events: seq<Event>)
    requires Run(events)
    ensures Inv(State(events))
  {
    if events != [] {
      RunHasInv(events[..|events| - 1]);
      NextKeepsInv(State(events[..|events| - 1]), events[|events| - 1]);
    }
  }

  // ── the theorems ─────────────────────────────────────────────────────

  /** The chunks the body yielded. */
  ghost function Yielded(w: World): seq<Bytes>
    requires Inv(w)
  {
    seq(|w.yielded|, i requires 0 <= i < |w.yielded| => w.received[w.yielded[i]])
  }

  /** Not discarded, the body has yielded exactly the chunks received before the ones still in
      the queue: in order, each once, none left out. */
  lemma YieldsWhatArrived(events: seq<Event>)
    requires Run(events) && !State(events).discarded
    ensures Inv(State(events))
    ensures var w := State(events); Yielded(w) + w.s.queue == w.received
  {
    RunHasInv(events);
  }

  /** The body ends without an error only at a turn with the end seen, no failure and nothing
      left in the queue; not discarded, everything that arrived has then been yielded. */
  lemma FinishesWhenWhole(events: seq<Event>, e: Event)
    requires Run(events) && Enabled(State(events), e)
    requires !State(events).s.reader.Finished? && Next(State(events), e).s.reader.Finished?
    ensures var w := State(events);
            && Inv(w)
            && w.s.ended && w.s.failure.None? && w.s.queue == []
            && (!w.discarded ==> Yielded(w) == w.received)
  {
    RunHasInv(events);
  }

  /** The body's reader is still at it. */
  predicate Reading(s: Stream) {
    !s.reader.Finished? && !s.reader.Thrown?
  }

  /** The `n`-th event is a discard, and the reader is still at it after all of them. */
  ghost predicate DiscardedAt(events: seq<Event>, n: nat)
    requires Run(events)
  {
    n < |events| && events[n].Discard? && Run(events[..n]) && Reading(State(events).s)
  }

  /** A failure, or no data for too long. */
  predicate Fails(e: Event) {
    e.Failing? || e.IdleDue?
  }

  /** The end had been seen at the discard, and nothing failed, before it or since. */
  ghost predicate EndedWhole(events: seq<Event>, n: nat)
    requires Run(events) && n <= |events| && Run(events[..n])
  {
    && State(events[..n]).s.ended && State(events[..n]).s.failure.None?
    && forall k :: n < k < |events| ==> !Fails(events[k])
  }

  /** Ended or failed; so the reader does not wait. */
  predicate Decided(s: Stream) {
    !s.reader.Waiting? && (s.failure.None? ==> s.ended)
  }

  lemma DiscardDecides(s: Stream)
    ensures Decided(AfterDiscard(s))
    ensures AfterDiscard(s).failure.None? <==> s.ended && s.failure.None?
  {
  }

  lemma StaysDecided(w: World, e: Event)
    requires Enabled(w, e) && Reading(Next(w, e).s)
    ensures Reading(w.s)
    ensures Decided(w.s) ==> Decided(Next(w, e).s) && (Next(w, e).s.failure.None? <==> w.s.failure.None? && !Fails(e))
  {
  }

  lemma EndedWholeGrows(events: seq<Event>, n: nat)
    requires Run(events) && n < |events| - 1 && Run(events[..n]) && Run(events[..|events| - 1][..n])
    ensures EndedWhole(events, n) <==> EndedWhole(events[..|events| - 1], n) && !Fails(events[|events| - 1])
  {
    assert events[..|events| - 1][..n] == events[..n];
    assert forall k :: n < k < |events| - 1 ==> events[..|events| - 1][k] == events[k];
  }

  /** From a discard on the body has ended or failed, and it has not failed exactly when it had
      ended whole. So the reader never waits again. */
  lemma {:induction false} AfterADiscard(events: seq<Event>, n: nat)
    requires Run(events) && DiscardedAt(events, n)
    ensures Decided(State(events).s)
    ensures State(events).s.failure.None? <==> EndedWhole(events, n)
    decreases |events|
  {
    var before, last := events[..|events| - 1], events[|events| - 1];
    if n == |before| {
      assert events[..n] == before;
      DiscardDecides(State(before).s);
    } else {
      assert before[..n] == events[..n] && before[n] == events[n];
      StaysDecided(State(before), last);
      AfterADiscard(before, n);
      assert forall k :: n < k < |before| ==> before[k] == events[k];
      EndedWholeGrows(events, n);
    }
  }

  /** What becomes of a discarded body, whatever happens from the discard to the reader's turn: it
      finishes without an error exactly when nothing came into the queue since, the end had been
      seen before the discard, and nothing failed, before it or since. */
  lemma DiscardedBodyFinishes(events: seq<Event>, n: nat)
    requires Run(events) && DiscardedAt(events, n)
    ensures Enabled(State(events), Turn)
    ensures Next(State(events), Turn).s.reader.Finished? <==> State(events).s.queue == [] && EndedWhole(events, n)
  {
    AfterADiscard(events, n);
  }

  /** How many chunks the discards threw away. */
  ghost function Dropped(events: seq<Event>): nat
    requires Run(events)
    decreases |events|
  {
    if events == [] then 0
    else
      var before := events[..|events| - 1];
      Dropped(before) + if events[|events| - 1].Discard? then |State(before).s.queue| else 0
  }

  lemma OneMoreCounts(w: World, e: Event)
    requires Enabled(w, e)
    ensures var t := Next(w, e);
            |t.received| - |t.yielded| - |t.s.queue| == |w.received| - |w.yielded| - |w.s.queue| + if e.Discard? then |w.s.queue| else 0
  {
  }

  /** Every chunk that arrived was yielded, is queued, or was thrown away by a discard. */
  lemma {:induction false} EveryChunkCounts(events: seq<Event>)
    requires Run(events)
    ensures var w := State(events); |w.received| == |w.yielded| + |w.s.queue| + Dropped(events)
    decreases |events|
  {
    if events != [] {
      EveryChunkCounts(events[..|events| - 1]);
      OneMoreCounts(State(events[..|events| - 1]), events[|events| - 1]);
    }
  }

  /** So it finishes short of what arrived exactly when a discard found something in the queue. */
  lemma DiscardedBodyFinishesShort(events: seq<Event>, n: nat)
    requires Run(events) && DiscardedAt(events, n)
    ensures Enabled(State(events), Turn)
    ensures var t := Next(State(events), Turn);
            t.s.reader.Finished? && |t.yielded| < |t.received| <==>
              State(events).s.queue == [] && EndedWhole(events, n) && Dropped(events) > 0
  {
    DiscardedBodyFinishes(events, n);
    EveryChunkCounts(events);
  }

  /** So a body can finish short: one chunk, the end, a discard, and the reader's turn. */
  lemma DiscardedBodyMayFinishShort(c: Bytes)
    ensures var events := [Data(c), End, Discard, Turn];
            && Run(events)
            && State(events).s.reader.Finished? && State(events).received == [c] && State(events).yielded == []
  {
    var e1: seq<Event> := [Data(c)];
    var e2, e3 := e1 + [End], e1 + [End] + [Discard];
    OneMoreEvent([], Data(c));
    OneMoreEvent(e1, End);
    OneMoreEvent(e2, Discard);
    OneMoreEvent(e3, Turn);
    assert e3 + [Turn] == [Data(c), End, Discard, Turn];
  }

  lemma OneMoreEvent(events: seq<Event>, e: Event)
    requires Run(events) && Enabled(State(events), e)
    ensures Run(events + [e]) && State(events + [e]) == Next(State(events), e)
  {
    assert (events + [e])[..|events|] == events;
  }

  /** The source is held back exactly while the water is high: paused means the queue is at
      the low mark or above, unless the body was discarded; not paused means it is below the
      high mark. */
  lemma PausedOnlyAboveLowWater(events: seq<Event>)
    requires Run(events)
    ensures var w := State(events);
            && w.s.queued == Total(w.s.queue)
            && (w.s.paused && !w.discarded ==> w.s.queued >= LOW_WATER)
            && (!w.s.paused ==> w.s.queued < HIGH_WATER)
  {
    RunHasInv(events);
  }

  /** In one step: a discard empties the queue and leaves a held-back source held back, below the
      low mark. Why PausedOnlyAboveLowWater excepts discarded bodies. */
  lemma DiscardLeavesTheSourcePaused(w: World)
    requires Inv(w)
    ensures var t := Next(w, Discard);
            t.s.queued == 0 && (t.s.paused <==> w.s.paused) && (t.s.paused ==> !(t.s.queued >= LOW_WATER))
  {
  }

  /** No wake-up is lost: a reader that waits has nothing to be told, and whatever could be told
      wakes it. */
  lemma WaitsOnlyForNews(events: seq<Event>, e: Event)
    requires Run(events) && State(events).s.reader.Waiting? && Enabled(State(events), e)
    ensures var s := State(events).s; s.queue == [] && s.failure.None? && !s.ended
    ensures Next(State(events), e).s.reader.Ready?
  {
    RunHasInv(events);
  }

  // ── the closure ──────────────────────────────────────────────────────

  class BodyStream {
    var queue: seq<Bytes>
    var queued: nat
    var ended: bool
    var failure: Option<Failure>
    var idle: bool
    var paused: bool
    var reader: Reader

    ghost function Value(): Stream
      reads this
    {
      Stream(queue, queued, ended, failure, idle, paused, reader)
    }

    constructor ()
      ensures Value() == Opened
    {
      queue, queued, ended, failure, idle, paused, reader := [], 0, false, None, true, false, Ready;
    }

    method WakeReader()
      modifies this`reader
      ensures Value() == Poke(old(Value()))
    {
      if reader.Waiting? { reader := Ready; }
    }

    method OnData(c: Bytes)
      modifies this
      ensures Value() == AfterData(old(Value()), c)
    {
      queue := queue + [c];
      queued := queued + |c|;
      idle := true;
      if queued >= HIGH_WATER { paused := true; }
      WakeReader();
    }

    method OnEnd()
      modifies this
      ensures Value() == AfterEnd(old(Value()))
    {
      ended := true;
      idle := false;
      WakeReader();
    }

    /** 'aborted', 'error', and a failure of the request once its body streams. */
    method OnFailure(f: Failure)
      modifies this
      ensures Value() == AfterFailure(old(Value()), f)
    {
      if failure.None? { failure := Some(f); }
      idle := false;
      WakeReader();
    }

    method OnClose()
      modifies this
      ensures Value() == AfterClose(old(Value()))
    {
      if !ended && failure.None? { failure := Some(ClosedEarly); }
      idle := false;
      WakeReader();
    }

    method OnIdle()
      modifies this
      ensures Value() == AfterIdle(old(Value()))
    {
      if failure.None? { failure := Some(NoData); }
      idle := false;
      WakeReader();
    }

    method Discard()
      modifies this
      ensures Value() == AfterDiscard(old(Value()))
    {
      idle := false;
      queue := [];
      queued := 0;
      if !ended && failure.None? { failure := Some(Discarded); }
      WakeReader();
    }

    /** The reader from one suspension to the next. */
    method Turn() returns (chunk: Option<Bytes>)
      requires CanRun(Value()) && queued == Total(queue)
      modifies this
      ensures (Value(), chunk) == AfterTurn(old(Value()))
    {
      if queue != [] {
        var c := queue[0];
        queue := queue[1..];
        queued := queued - |c|;
        if queued < LOW_WATER { paused := false; }
        reader := Holding;
        return Some(c);
      }
      chunk := None;
      if failure.Some? {
        reader := Thrown;
      } else if ended {
        reader := Finished;
      } else {
        reader := Waiting;
      }
    }
  }
}
