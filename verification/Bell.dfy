/**
 * The whole bell: rows arrive at a server and are marked read, the switch is turned, the notifier
 * polls (DesktopNotifier, desktop/src/notifications.ts). When is a row shown that came while the
 * switch was off?
 */
module Bell {
  import opened Content
  import N = Notifications

  /** The poll asks for this many unread rows, the newest. */
  const LIMIT: nat := 10

  /** An account's rows in the order they arrived, their ids rising, and the ones marked read. */
  datatype Server = Server(rows: seq<int>, read: set<int>)

  /** A page on its way: what is on it, how many rows had arrived when the server made it, and
      which were read. */
  datatype Answer = Answer(ids: seq<int>, arrived: nat, read: set<int>)

  /** `answers` are those of the notifier's pages, one each. */
  datatype World = World(n: N.World, on: bool, servers: map<string, Server>, pending: Option<Answer>, answers: seq<Answer>)

  const Begin: World := World(N.World(N.Idle, [], 0), true, map[], None, [])

  datatype Event =
    | Arrives(account: string, id: int)
    | MarkedRead(account: string, id: int)
    | Switched(on: bool)
    | Begins(active: Option<string>)
    /** The server makes the page. */
    | Answers(ids: seq<int>)
    /** It arrives at the notifier. */
    | Delivered
    | Fails(unauthorized: bool)
    | Resets
    | Stops

  function ServerOf(w: World, account: string): Server {
    if account in w.servers then w.servers[account] else Server([], {})
  }

  predicate Enabled(w: World, e: Event) {
    match e
    case Arrives(account, id) => 0 < id && forall x :: x in ServerOf(w, account).rows ==> x < id
    case Answers(_) => w.n.s.fetching.Some? && w.pending.None?
    case Delivered => w.n.s.fetching.Some? && w.pending.Some?
    case Fails(_) => w.n.s.fetching.Some?
    case _ => true
  }

  function Next(w: World, e: Event): World
    requires Enabled(w, e)
  {
    match e
    case Arrives(account, id) =>
      var s := ServerOf(w, account);
      w.(servers := w.servers[account := s.(rows := s.rows + [id])])
    case MarkedRead(account, id) =>
      var s := ServerOf(w, account);
      w.(servers := w.servers[account := s.(read := s.read + {id})])
    case Switched(on) => w.(on := on)
    case Begins(account) => w.(n := N.Next(w.n, N.Begins(account)))
    case Answers(ids) =>
      var s := ServerOf(w, w.n.s.fetching.value);
      w.(pending := Some(Answer(ids, |s.rows|, s.read)))
    case Delivered =>
      w.(n := N.Next(w.n, N.Fetched(w.pending.value.ids, w.on)), pending := None, answers := w.answers + [w.pending.value])
    case Fails(unauthorized) => w.(n := N.Next(w.n, N.Fails(unauthorized)), pending := None)
    case Resets => w.(n := N.Next(w.n, N.Resets))
    case Stops => w.(n := N.Next(w.n, N.Stops))
  }

  ghost predicate Run(events: seq<Event>)
    decreases |events|, 0
  {
    events == [] || (Run(events[..|events| - 1]) && Enabled(State(events[..|events| - 1]), events[|events| - 1]))
  }

  ghost function State(events: seq<Event>): World
    requires Run(events)
    decreases |events|, 1
  {
    if events == [] then Begin else Next(State(events[..|events| - 1]), events[|events| - 1])
  }

  // ── what every step keeps ────────────────────────────────────────────

  ghost predicate Rising(rows: seq<int>) {
    (forall i :: 0 <= i < |rows| ==> 0 < rows[i]) && forall i, j :: 0 <= i < j < |rows| ==> rows[i] < rows[j]
  }

  /** The answer is of an earlier state of the server. */
  predicate OfThePast(a: Answer, s: Server) {
    a.arrived <= |s.rows| && a.read <= s.read
  }

  predicate NotAfter(a: Answer, b: Answer) {
    a.arrived <= b.arrived && a.read <= b.read
  }

  ghost predicate InTurn(pages: seq<N.Page>, answers: seq<Answer>)
    requires |answers| == |pages|
  {
    forall j, k :: 0 <= j < k < |pages| && pages[j].account == pages[k].account ==> NotAfter(answers[j], answers[k])
  }

  ghost predicate Inv(w: World) {
    && N.Inv(w.n)
    && |w.answers| == |w.n.pages|
    && (forall a: string :: Rising(ServerOf(w, a).rows))
    && (forall k :: 0 <= k < |w.answers| ==>
          w.n.pages[k].ids == w.answers[k].ids && OfThePast(w.answers[k], ServerOf(w, w.n.pages[k].account)))
    && InTurn(w.n.pages, w.answers)
    && (w.pending.Some? ==>
          && w.n.s.fetching.Some?
          && OfThePast(w.pending.value, ServerOf(w, w.n.s.fetching.value))
          && forall k :: 0 <= k < |w.answers| && w.n.pages[k].account == w.n.s.fetching.value ==> NotAfter(w.answers[k], w.pending.value))
  }

  lemma ServerGrows(w: World, e: Event, a: string)
    requires Enabled(w, e) && (e.Arrives? || e.MarkedRead?) && Rising(ServerOf(w, a).rows)
    ensures var s, t := ServerOf(w, a), ServerOf(Next(w, e), a);
            Rising(t.rows) && |s.rows| <= |t.rows| && s.read <= t.read
  {
    var rows := ServerOf(w, a).rows;
    assert forall i :: 0 <= i < |rows| ==> rows[i] in rows;
  }

  lemma ServerKeepsInv(w: World, e: Event)
    requires Inv(w) && Enabled(w, e) && (e.Arrives? || e.MarkedRead?)
    ensures Inv(Next(w, e))
  {
    var t := Next(w, e);
    forall a: string
      ensures Rising(ServerOf(t, a).rows) && |ServerOf(w, a).rows| <= |ServerOf(t, a).rows| && ServerOf(w, a).read <= ServerOf(t, a).read
    {
      ServerGrows(w, e, a);
    }
    assert t.n == w.n && t.answers == w.answers && t.pending == w.pending;
  }

  lemma DeliveryKeepsInv(w: World)
    requires Inv(w) && Enabled(w, Delivered)
    ensures Inv(Next(w, Delivered))
  {
    N.NextKeepsInv(w.n, N.Fetched(w.pending.value.ids, w.on));
    var t := Next(w, Delivered);
    assert t.n.pages[..|w.n.pages|] == w.n.pages;
    assert forall a: string :: ServerOf(t, a) == ServerOf(w, a);
    forall j, k | 0 <= j < k < |t.n.pages| && t.n.pages[j].account == t.n.pages[k].account ensures NotAfter(t.answers[j], t.answers[k]) {
      assert t.n.pages[j] == w.n.pages[j] && t.answers[j] == w.answers[j];
      if k < |w.n.pages| { assert t.n.pages[k] == w.n.pages[k]; }
    }
  }

  lemma AnswerKeepsInv(w: World, ids: seq<int>)
    requires Inv(w) && Enabled(w, Answers(ids))
    ensures Inv(Next(w, Answers(ids)))
  {
    var t := Next(w, Answers(ids));
    assert forall a: string :: ServerOf(t, a) == ServerOf(w, a);
  }

  lemma OthersKeepInv(w: World, e: Event)
    requires Inv(w) && Enabled(w, e)
    requires e.Switched? || e.Begins? || e.Fails? || e.Resets? || e.Stops?
    ensures Inv(Next(w, e))
  {
    match e {
      case Begins(account) => N.NextKeepsInv(w.n, N.Begins(account));
      case Fails(unauthorized) => N.NextKeepsInv(w.n, N.Fails(unauthorized));
      case Resets => N.NextKeepsInv(w.n, N.Resets);
      case Stops => N.NextKeepsInv(w.n, N.Stops);
      case _ =>
    }
    var t := Next(w, e);
    assert t.n.pages == w.n.pages && t.answers == w.answers;
    assert forall a: string :: ServerOf(t, a) == ServerOf(w, a);
  }

  lemma NextKeepsInv(w: World, e: Event)
    requires Inv(w) && Enabled(w, e)
    ensures Inv(Next(w, e))
  {
    match e
    case Arrives(_, _) => ServerKeepsInv(w, e);
    case MarkedRead(_, _) => ServerKeepsInv(w, e);
    case Answers(ids) => AnswerKeepsInv(w, ids);
    case Delivered => DeliveryKeepsInv(w);
    case _ => OthersKeepInv(w, e);
  }

  lemma {:induction false} RunHasInv(events: seq<Event>)
    requires Run(events)
    ensures Inv(State(events))
  {
    if events == [] {
      assert N.Inv(Begin.n);
    } else {
      RunHasInv(events[..|events| - 1]);
      NextKeepsInv(State(events[..|events| - 1]), events[|events| - 1]);
    }
  }

  // ── the theorems ─────────────────────────────────────────────────────

  /** The page is what the poll asks for: the newest unread rows, ten at the most. */
  ghost predicate Truthful(a: Answer, rows: seq<int>)
    requires a.arrived <= |rows|
  {
    && (forall x :: x in a.ids ==> x in rows[..a.arrived] && x !in a.read)
    && (forall i :: 0 <= i < a.arrived && rows[i] !in a.read && rows[i] !in a.ids ==>
          |a.ids| == LIMIT && forall x :: x in a.ids ==> rows[i] < x)
  }

  /** The pages of the era up to the n-th are what the server was asked for. */
  ghost predicate TruthfulUpTo(w: World, n: nat)
    requires Inv(w) && n < |w.answers|
  {
    forall k :: 0 <= k <= n && w.n.pages[k].era == w.n.pages[n].era ==>
      Truthful(w.answers[k], ServerOf(w, w.n.pages[k].account).rows)
  }

  /** Page `k` was made after the `i`-th row arrived. */
  predicate MadeSince(w: World, k: nat, i: nat)
    requires k < |w.answers|
  {
    i < w.answers[k].arrived
  }

  lemma LaterIsNotBefore(rows: seq<int>, i: nat, n: nat)
    requires Rising(rows) && n <= i < |rows|
    ensures forall x :: x in rows[..n] ==> x < rows[i]
  {
  }

  /** An earlier page has nothing as new as an unread row - exactly when it was made before the row
      arrived. */
  lemma OlderThanTheRow(a: Answer, b: Answer, rows: seq<int>, i: nat)
    requires Rising(rows) && i < |rows| && a.arrived <= |rows|
    requires Truthful(a, rows) && NotAfter(a, b) && rows[i] !in b.read
    ensures (forall x :: x in a.ids ==> x < rows[i]) <==> a.arrived <= i
  {
    if a.arrived <= i {
      LaterIsNotBefore(rows, i, a.arrived);
    } else {
      var x := if rows[i] in a.ids then rows[i] else a.ids[0];
      assert x in a.ids && x >= rows[i];
    }
  }

  /**
   * A row is shown from a page it is on exactly when the switch is on as the page arrives, there
   * was a page before it since the baseline was forgotten, and none of those was made since the row
   * arrived. Whether the switch was on when the row arrived does not matter.
   */
  lemma ShownByTheFirstPageSince(w: World, n: nat, i: nat)
    requires Inv(w) && n < |w.answers| && TruthfulUpTo(w, n)
    requires i < |ServerOf(w, w.n.pages[n].account).rows|
    requires ServerOf(w, w.n.pages[n].account).rows[i] in w.n.pages[n].ids
    ensures var p := w.n.pages[n];
            ServerOf(w, p.account).rows[i] in p.shown <==>
              && p.enabled
              && (exists k :: 0 <= k < n && w.n.pages[k].era == p.era)
              && (forall k :: 0 <= k < n && w.n.pages[k].era == p.era ==> !MadeSince(w, k, i))
  {
    var p := w.n.pages[n];
    var rows := ServerOf(w, p.account).rows;
    N.NewsOfThePages(w.n, n, rows[i]);
    assert Rising(rows) && Truthful(w.answers[n], rows);
    forall k | 0 <= k < n && w.n.pages[k].era == p.era
      ensures (forall x :: x in w.n.pages[k].ids ==> x < rows[i]) <==> !MadeSince(w, k, i)
    {
      assert w.n.pages[k].account == p.account;
      assert Truthful(w.answers[k], rows) && NotAfter(w.answers[k], w.answers[n]);
      OlderThanTheRow(w.answers[k], w.answers[n], rows, i);
    }
  }

  /** The first page of its era that was made since the `i`-th row arrived. */
  ghost predicate FirstSince(w: World, m: nat, i: nat)
    requires m < |w.answers| == |w.n.pages|
  {
    && MadeSince(w, m, i)
    && forall k :: 0 <= k < m && w.n.pages[k].era == w.n.pages[m].era ==> !MadeSince(w, k, i)
  }

  /**
   * So a row - one that arrived while the switch was off, say - is shown at all until the baseline
   * is forgotten exactly when it is on the first page made since, that page is not the first of its
   * era, and the switch is on again when it arrives. A page between, and the row is missed for good.
   */
  lemma WhetherItIsShown(w: World, m: nat, i: nat)
    requires Inv(w) && m < |w.answers| && FirstSince(w, m, i)
    requires i < |ServerOf(w, w.n.pages[m].account).rows|
    requires forall n :: 0 <= n < |w.answers| && w.n.pages[n].era == w.n.pages[m].era ==> TruthfulUpTo(w, n)
    ensures var p, row := w.n.pages[m], ServerOf(w, w.n.pages[m].account).rows[i];
            (exists n :: 0 <= n < |w.n.pages| && w.n.pages[n].era == p.era && row in w.n.pages[n].shown)
            <==> row in p.ids && p.enabled && exists k :: 0 <= k < m && w.n.pages[k].era == p.era
  {
    var p, row := w.n.pages[m], ServerOf(w, w.n.pages[m].account).rows[i];
    assert TruthfulUpTo(w, m);
    if row in p.ids { ShownByTheFirstPageSince(w, m, i); }
    forall n | 0 <= n < |w.n.pages| && w.n.pages[n].era == p.era && n != m ensures row !in w.n.pages[n].shown {
      if n < m { NotShownBefore(w, m, i, n); } else { NotShownAfter(w, m, i, n); }
    }
    N.NewsOfThePages(w.n, m, row);
  }

  lemma NotShownBefore(w: World, m: nat, i: nat, n: nat)
    requires Inv(w) && n < m < |w.answers| && FirstSince(w, m, i) && w.n.pages[n].era == w.n.pages[m].era
    requires TruthfulUpTo(w, n) && i < |ServerOf(w, w.n.pages[m].account).rows|
    ensures ServerOf(w, w.n.pages[m].account).rows[i] !in w.n.pages[n].shown
  {
    var rows := ServerOf(w, w.n.pages[m].account).rows;
    N.NewsOfThePages(w.n, m, rows[i]);
    N.NewsOfThePages(w.n, n, rows[i]);
    assert Rising(rows) && Truthful(w.answers[n], rows) && !MadeSince(w, n, i);
    LaterIsNotBefore(rows, i, w.answers[n].arrived);
  }

  lemma NotShownAfter(w: World, m: nat, i: nat, n: nat)
    requires Inv(w) && m < n < |w.answers| && MadeSince(w, m, i) && w.n.pages[n].era == w.n.pages[m].era
    requires TruthfulUpTo(w, n) && i < |ServerOf(w, w.n.pages[m].account).rows|
    ensures ServerOf(w, w.n.pages[m].account).rows[i] !in w.n.pages[n].shown
  {
    var row := ServerOf(w, w.n.pages[m].account).rows[i];
    N.NewsOfThePages(w.n, n, row);
    assert w.n.pages[m].account == w.n.pages[n].account;
    if row in w.n.pages[n].ids { ShownByTheFirstPageSince(w, n, i); }
  }

  /** A page fetched now, with these rows on it. */
  function Fetch(w: World, account: string, ids: seq<int>): World
    requires w.n.s.fetching.None? && w.pending.None?
  {
    Next(Next(Next(w, Begins(Some(account))), Answers(ids)), Delivered)
  }

  /** The row comes while the switch is off; the switch goes on before the next look, or a look
      comes first. */
  function CameWhileOff(w: World, account: string, id: int, first: seq<int>, second: seq<int>, lookFirst: bool): World
    requires Watching(w, account) && Enabled(w, Arrives(account, id))
  {
    var came := Next(Next(w, Switched(false)), Arrives(account, id));
    var looked := if lookFirst then Fetch(came, account, first) else came;
    Fetch(Next(looked, Switched(true)), account, second)
  }

  /** The account is watched, its baseline is set, and nothing is on its way. */
  predicate Watching(w: World, account: string) {
    w.n.s.watching == Some(account) && w.n.s.since.Some? && w.n.s.fetching.None? && w.pending.None?
  }

  /** A row that came while the switch was off is shown, or is not: by whether a look came before
      the switch went on again. */
  lemma CameWhileOffIsShown(w: World, account: string, id: int, first: seq<int>, second: seq<int>, lookFirst: bool)
    requires Watching(w, account) && Enabled(w, Arrives(account, id)) && w.n.s.since.value < id
    requires id in first && id in second
    ensures var pages := CameWhileOff(w, account, id, first, second, lookFirst).n.pages;
            (exists n :: |w.n.pages| <= n < |pages| && id in pages[n].shown) <==> !lookFirst
  {
    var came := Next(Next(w, Switched(false)), Arrives(account, id));
    if lookFirst {
      OneFetch(came, account, first, id);
      LookedFirst(Fetch(came, account, first), account, id, second);
    } else {
      OneFetch(Next(came, Switched(true)), account, second, id);
      assert id in CameWhileOff(w, account, id, first, second, false).n.pages[|w.n.pages|].shown;
    }
  }

  lemma LookedFirst(w: World, account: string, id: int, second: seq<int>)
    requires Watching(w, account) && id <= w.n.s.since.value
    ensures var pages := Fetch(Next(w, Switched(true)), account, second).n.pages;
            |pages| == |w.n.pages| + 1 && pages[..|w.n.pages|] == w.n.pages && id !in pages[|w.n.pages|].shown
  {
    OneFetch(Next(w, Switched(true)), account, second, id);
  }

  lemma OneFetch(w: World, account: string, ids: seq<int>, id: int)
    requires Watching(w, account)
    ensures var t := Fetch(w, account, ids);
            && Watching(t, account) && |t.n.pages| == |w.n.pages| + 1 && t.n.pages[..|w.n.pages|] == w.n.pages
            && (id in t.n.pages[|w.n.pages|].shown <==> id in ids && w.on && w.n.s.since.value < id)
            && (id in ids ==> id <= t.n.s.since.value) && w.n.s.since.value <= t.n.s.since.value
  {
  }

  /** And such a world comes about: the first row, and the first look. */
  lemma WatchingComesAbout(account: string)
    ensures var events := [Arrives(account, 5), Begins(Some(account)), Answers([5]), Delivered];
            Run(events) && Watching(State(events), account) && State(events).n.s.since == Some(5)
            && Enabled(State(events), Arrives(account, 6))
  {
    var e1 := [Arrives(account, 5)];
    var e2 := e1 + [Begins(Some(account))];
    var e3 := e2 + [Answers([5])];
    OneMoreEvent([], Arrives(account, 5));
    OneMoreEvent(e1, Begins(Some(account)));
    OneMoreEvent(e2, Answers([5]));
    OneMoreEvent(e3, Delivered);
    assert [5][..0] == [] && N.Top([5]) == 5;
    assert e3 + [Delivered] == [Arrives(account, 5), Begins(Some(account)), Answers([5]), Delivered];
  }

  lemma OneMoreEvent(events: seq<Event>, e: Event)
    requires Run(events) && Enabled(State(events), e)
    ensures Run(events + [e]) && State(events + [e]) == Next(State(events), e)
  {
    assert (events + [e])[..|events|] == events;
  }
}
