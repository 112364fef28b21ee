/**
 * The bell, polled: which rows are shown, whatever resets, account changes and failed fetches
 * come between (DesktopNotifier, desktop/src/notifications.ts). A poll is two steps, its fetch
 * the wait between them; rows are known by their ids.
 */
module Notifications {
  import opened Content

  const UNAUTHORIZED_STREAK: nat := 2

  ghost predicate Ascending(s: seq<int>) {
    forall i, j :: 0 <= i < j < |s| ==> s[i] <= s[j]
  }

  ghost predicate Distinct(s: seq<int>) {
    forall i, j :: 0 <= i < j < |s| ==> s[i] != s[j]
  }

  function Insert(id: int, s: seq<int>): (r: seq<int>)
    ensures forall x :: x in r <==> x == id || x in s
  {
    if s == [] || id <= s[0] then [id] + s else [s[0]] + Insert(id, s[1..])
  }

  lemma {:induction false} InsertSorts(id: int, s: seq<int>)
    requires Ascending(s)
    ensures Ascending(Insert(id, s))
  {
    if s != [] && s[0] < id {
      InsertSorts(id, s[1..]);
      var rest := Insert(id, s[1..]);
      forall i | 0 <= i < |rest| ensures s[0] <= rest[i] { assert rest[i] in rest; }
    }
  }

  lemma {:induction false} InsertKeepsApart(id: int, s: seq<int>)
    requires Distinct(s) && id !in s
    ensures Distinct(Insert(id, s))
  {
    if s != [] && s[0] < id {
      InsertKeepsApart(id, s[1..]);
      var rest := Insert(id, s[1..]);
      forall i | 0 <= i < |rest| ensures s[0] != rest[i] { assert rest[i] in rest; }
    }
  }

  /** newRows: the rows after the baseline, the oldest first. */
  function NewRows(ids: seq<int>, since: int): (r: seq<int>)
    ensures Ascending(r)
    ensures forall id :: id in r <==> id in ids && since < id
  {
    if ids == [] then []
    else
      var rest := NewRows(ids[1..], since);
      InsertSorts(ids[0], rest);
      if since < ids[0] then Insert(ids[0], rest) else rest
  }

  lemma {:induction false} NewRowsApart(ids: seq<int>, since: int)
    requires Distinct(ids)
    ensures Distinct(NewRows(ids, since))
  {
    if ids != [] {
      NewRowsApart(ids[1..], since);
      assert ids[0] !in ids[1..];
      InsertKeepsApart(ids[0], NewRows(ids[1..], since));
    }
  }

  function Top(ids: seq<int>): (m: int)
    ensures 0 <= m && (forall id :: id in ids ==> id <= m)
    ensures m == 0 || m in ids
  {
    if ids == [] then 0
    else
      var m := Top(ids[..|ids| - 1]);
      assert forall id :: id in ids <==> id in ids[..|ids| - 1] || id == ids[|ids| - 1];
      if ids[|ids| - 1] > m then ids[|ids| - 1] else m
  }

  // ── the notifier's steps ─────────────────────────────────────────────

  /** `fetching` is the account a fetch is in flight for. */
  datatype Poller = Poller(since: Option<int>, watching: Option<string>, fetching: Option<string>, refusals: nat)

  const Idle: Poller := Poller(None, None, None, 0)

  function AfterReset(s: Poller): Poller {
    s.(since := None, watching := None, refusals := 0)
  }

  function AfterStop(s: Poller): Poller {
    s.(since := None, watching := None)
  }

  /** poll() up to its fetch. */
  function AfterBegin(s: Poller, account: Option<string>): Poller {
    if s.fetching.Some? then s
    else if account.None? then AfterReset(s)
    else if s.watching != account then Poller(None, account, account, 0)
    else s.(fetching := account)
  }

  /** poll() from its fetch on: the notifier, and the rows it shows. */
  function AfterFetch(s: Poller, ids: seq<int>, enabled: bool): (Poller, seq<int>) {
    var t := s.(fetching := None, refusals := 0);
    if s.since.None? then (t.(since := Some(Top(ids))), [])
    else
      var top := if s.since.value < Top(ids) then Top(ids) else s.since.value;
      (t.(since := Some(top)), if enabled then NewRows(ids, s.since.value) else [])
  }

  /** A failed fetch, and whether the account is reported as refused. */
  function AfterFailure(s: Poller, unauthorized: bool): (Poller, bool) {
    if unauthorized then (s.(fetching := None, refusals := s.refusals + 1), s.refusals + 1 == UNAUTHORIZED_STREAK)
    else (s.(fetching := None, refusals := 0), false)
  }

  // ── runs ─────────────────────────────────────────────────────────────

  datatype Event =
    | Begins(account: Option<string>)
    | Fetched(ids: seq<int>, enabled: bool)
    | Fails(unauthorized: bool)
    | Resets
    | Stops

  /** A page that arrived: what was on it, whose it was, whether the switch was on, what was shown,
      and since which forgetting of the baseline. */
  datatype Page = Page(ids: seq<int>, account: string, enabled: bool, shown: seq<int>, era: nat)

  /** `era` counts how often the baseline was forgotten. */
  datatype World = World(s: Poller, pages: seq<Page>, era: nat)

  predicate Enabled(w: World, e: Event) {
    (e.Fetched? || e.Fails?) ==> w.s.fetching.Some?
  }

  function Next(w: World, e: Event): World
    requires Enabled(w, e)
  {
    match e
    case Begins(account) =>
      World(AfterBegin(w.s, account), w.pages, if w.s.fetching.None? && (account.None? || w.s.watching != account) then w.era + 1 else w.era)
    case Fetched(ids, enabled) =>
      var (s, shown) := AfterFetch(w.s, ids, enabled);
      World(s, w.pages + [Page(ids, w.s.fetching.value, enabled, shown, w.era)], w.era)
    case Fails(unauthorized) => World(AfterFailure(w.s, unauthorized).0, w.pages, w.era)
    case Resets => World(AfterReset(w.s), w.pages, w.era + 1)
    case Stops => World(AfterStop(w.s), w.pages, w.era + 1)
  }

  ghost predicate Run(events: seq<Event>)
    decreases |events|, 0
  {
    events == [] || (Run(events[..|events| - 1]) && Enabled(State(events[..|events| - 1]), events[|events| - 1]))
  }

  ghost function State(events: seq<Event>): World
    requires Run(events)
    decreases |events|, 1
  {
    if events == [] then World(Idle, [], 0) else Next(State(events[..|events| - 1]), events[|events| - 1])
  }

  // ── what every step keeps ────────────────────────────────────────────

  /** The id is after everything on the pages of the era. */
  ghost predicate IsNews(pages: seq<Page>, era: nat, id: int) {
    0 < id && forall k :: 0 <= k < |pages| && pages[k].era == era ==> forall x :: x in pages[k].ids ==> x < id
  }

  ghost predicate Begun(pages: seq<Page>, era: nat) {
    exists k :: 0 <= k < |pages| && pages[k].era == era
  }

  ghost predicate OnlyOf(pages: seq<Page>, era: nat, account: string) {
    forall k :: 0 <= k < |pages| && pages[k].era == era ==> pages[k].account == account
  }

  /** What a page had shown is exactly the news on it: with the switch on, on a page that is not
      its era's first, what is after everything on the earlier pages of the era - which are all
      of the same account. */
  ghost predicate ShownRightly(before: seq<Page>, p: Page) {
    && (forall id :: id in p.shown <==> id in p.ids && p.enabled && Begun(before, p.era) && IsNews(before, p.era, id))
    && Ascending(p.shown)
    && (Distinct(p.ids) ==> Distinct(p.shown))
    && (Begun(before, p.era) ==> OnlyOf(before, p.era, p.account))
  }

  /** The baseline is the newest id of the era, or 0. */
  ghost predicate Baseline(since: Option<int>, pages: seq<Page>, era: nat) {
    match since
    case None => !Begun(pages, era)
    case Some(v) =>
      && Begun(pages, era) && 0 <= v
      && (forall k :: 0 <= k < |pages| && pages[k].era == era ==> forall x :: x in pages[k].ids ==> x <= v)
      && (v == 0 || exists k :: 0 <= k < |pages| && pages[k].era == era && v in pages[k].ids)
  }

  ghost predicate Inv(w: World) {
    && (forall n :: 0 <= n < |w.pages| ==> w.pages[n].era <= w.era)
    && Baseline(w.s.since, w.pages, w.era)
    && (w.s.fetching.Some? && w.s.watching.Some? ==> w.s.watching == w.s.fetching)
    && (w.s.fetching.Some? && w.s.since.Some? ==> w.s.watching.Some?)
    && (w.s.since.Some? && w.s.watching.Some? ==> OnlyOf(w.pages, w.era, w.s.watching.value))
    && (forall n :: 0 <= n < |w.pages| ==> ShownRightly(w.pages[..n], w.pages[n]))
  }

  lemma NewsIsAfterTheBaseline(since: int, pages: seq<Page>, era: nat, id: int)
    requires Baseline(Some(since), pages, era)
    ensures IsNews(pages, era, id) <==> since < id
  {
  }

  lemma FetchKeepsInv(w: World, ids: seq<int>, enabled: bool)
    requires Inv(w) && w.s.fetching.Some?
    ensures Inv(Next(w, Fetched(ids, enabled)))
  {
    var v := Next(w, Fetched(ids, enabled));
    var p := v.pages[|w.pages|];
    assert v.pages == w.pages + [p];
    FetchMovesTheBaseline(w, v, ids, enabled, p);
    forall n | 0 <= n < |v.pages| ensures ShownRightly(v.pages[..n], v.pages[n]) {
      if n < |w.pages| {
        assert v.pages[..n] == w.pages[..n];
      } else {
        assert v.pages[..n] == w.pages;
        if w.s.since.Some? {
          if Distinct(ids) { NewRowsApart(ids, w.s.since.value); }
          forall id ensures IsNews(w.pages, w.era, id) <==> w.s.since.value < id {
            NewsIsAfterTheBaseline(w.s.since.value, w.pages, w.era, id);
          }
        }
      }
    }
  }

  lemma FetchMovesTheBaseline(w: World, v: World, ids: seq<int>, enabled: bool, p: Page)
    requires Inv(w) && w.s.fetching.Some? && v == Next(w, Fetched(ids, enabled)) && p.ids == ids && p.era == w.era
    requires v.pages == w.pages + [p]
    ensures Baseline(v.s.since, v.pages, v.era)
  {
    assert v.pages[|w.pages|] == p;
    if w.s.since.Some? && w.s.since.value >= Top(ids) && w.s.since.value != 0 {
      var k :| 0 <= k < |w.pages| && w.pages[k].era == w.era && w.s.since.value in w.pages[k].ids;
      assert v.pages[k] == w.pages[k];
    }
  }

  lemma NextKeepsInv(w: World, e: Event)
    requires Inv(w) && Enabled(w, e)
    ensures Inv(Next(w, e))
  {
    if e.Fetched? { FetchKeepsInv(w, e.ids, e.enabled); }
  }

  lemma {:induction false} RunHasInv(events: seq<Event>)
    requires Run(events)
    ensures Inv(State(events))
  {
    if events != [] {
      RunHasInv(events[..|events| - 1]);
      NextKeepsInv(State(events[..|events| - 1]), events[|events| - 1]);
    }
  }

  // ── the theorems ─────────────────────────────────────────────────────

  /** Over any run: a row is shown from a page exactly when the switch is on, the page is not the
      first since the baseline was forgotten, and the row is newer than everything on the pages
      since; those pages are all of the page's own account. */
  lemma OnlyTheNewsIsShown(events: seq<Event>, n: nat, id: int)
    requires Run(events) && n < |State(events).pages|
    ensures var pages := State(events).pages;
            var p := pages[n];
            && (id in p.shown <==>
                  id in p.ids && p.enabled && 0 < id
                  && (exists k :: 0 <= k < n && pages[k].era == p.era)
                  && (forall k :: 0 <= k < n && pages[k].era == p.era ==> forall x :: x in pages[k].ids ==> x < id))
            && (forall k :: 0 <= k < n && pages[k].era == p.era ==> pages[k].account == p.account)
  {
    RunHasInv(events);
    NewsOfThePages(State(events), n, id);
  }

  lemma NewsOfThePages(w: World, n: nat, id: int)
    requires Inv(w) && n < |w.pages|
    ensures var p := w.pages[n];
            && (id in p.shown <==>
                  id in p.ids && p.enabled && 0 < id
                  && (exists k :: 0 <= k < n && w.pages[k].era == p.era)
                  && (forall k :: 0 <= k < n && w.pages[k].era == p.era ==> forall x :: x in w.pages[k].ids ==> x < id))
            && (forall k :: 0 <= k < n && w.pages[k].era == p.era ==> w.pages[k].account == p.account)
  {
    var pages := w.pages;
    assert ShownRightly(pages[..n], pages[n]);
    assert forall k :: 0 <= k < n ==> pages[..n][k] == pages[k];
    if k :| 0 <= k < n && pages[k].era == pages[n].era { assert Begun(pages[..n], pages[n].era) && pages[..n][k] == pages[k]; }
  }

  /** Between two forgettings of the baseline the ids shown strictly increase, one page after
      another and within a page whose ids are distinct. */
  lemma ShownIdsIncrease(events: seq<Event>, m: nat, n: nat)
    requires Run(events) && m <= n < |State(events).pages|
    requires State(events).pages[m].era == State(events).pages[n].era
    ensures var pages := State(events).pages;
            && (m < n ==> forall x, y :: x in pages[m].shown && y in pages[n].shown ==> x < y)
            && (Distinct(pages[n].ids) ==> forall i, j :: 0 <= i < j < |pages[n].shown| ==> pages[n].shown[i] < pages[n].shown[j])
  {
    RunHasInv(events);
    var pages := State(events).pages;
    assert ShownRightly(pages[..n], pages[n]) && ShownRightly(pages[..m], pages[m]);
    forall x, y | m < n && x in pages[m].shown && y in pages[n].shown ensures x < y {
      assert x in pages[m].ids && pages[..n][m] == pages[m];
    }
  }

  /** Step by step: a baseline forgotten while a fetch is in flight has the page it brings show
      nothing, nor the next one, which sets it anew for the account watched by then. */
  lemma ForgottenInFlight(w: World, ids: seq<int>, enabled: bool, account: string, later: seq<int>, still: bool)
    requires Inv(w) && w.s.fetching.Some?
    ensures var fetched := Next(Next(w, Resets), Fetched(ids, enabled));
            var again := Next(Next(fetched, Begins(Some(account))), Fetched(later, still));
            && fetched.pages[|w.pages|].shown == []
            && again.pages[|w.pages| + 1].shown == []
            && again.s.since == Some(Top(later)) && again.s.watching == Some(account)
  {
  }

  // ── the object ───────────────────────────────────────────────────────

  class DesktopNotifier {
    var since: Option<int>
    var watching: Option<string>
    var fetching: Option<string>
    var refusals: nat

    function Value(): Poller
      reads this
    {
      Poller(since, watching, fetching, refusals)
    }

    constructor ()
      ensures Value() == Idle
    {
      since, watching, fetching, refusals := None, None, None, 0;
    }

    method Reset()
      modifies this
      ensures Value() == AfterReset(old(Value()))
    {
      since, watching, refusals := None, None, 0;
    }

    method Stop()
      modifies this
      ensures Value() == AfterStop(old(Value()))
    {
      since, watching := None, None;
    }

    /** poll() up to its fetch; `asks` when there is one to make. */
    method PollBegins(account: Option<string>) returns (asks: bool)
      modifies this
      ensures Value() == AfterBegin(old(Value()), account)
      ensures asks <==> old(fetching).None? && account.Some?
    {
      if fetching.Some? { return false; }
      if account.None? {
        Reset();
        return false;
      }
      if watching != account {
        watching := account;
        since := None;
        refusals := 0;
      }
      fetching := account;
      return true;
    }

    method PollFetched(ids: seq<int>, enabled: bool) returns (shown: seq<int>)
      modifies this
      ensures (Value(), shown) == AfterFetch(old(Value()), ids, enabled)
    {
      fetching := None;
      refusals := 0;
      var top := 0;
      for n := 0 to |ids|
        invariant top == Top(ids[..n])
      {
        assert ids[..n + 1][..n] == ids[..n];
        if ids[n] > top { top := ids[n]; }
      }
      assert ids[..|ids|] == ids;
      if since.None? {
        since := Some(top);
        return [];
      }
      var news := NewRows(ids, since.value);
      since := Some(if since.value < top then top else since.value);
      if !enabled { return []; }
      return news;
    }

    method PollFailed(unauthorized: bool) returns (refused: bool)
      modifies this
      ensures (Value(), refused) == AfterFailure(old(Value()), unauthorized)
    {
      fetching := None;
      if unauthorized {
        refusals := refusals + 1;
        return refusals == UNAUTHORIZED_STREAK;
      }
      refusals := 0;
      return false;
    }
  }
}
