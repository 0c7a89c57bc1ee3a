/** Boundary-inclusive cursor paging of the provider's chart endpoint. */
module Paging {
  import opened Sets
  import opened Types
  import Normalize

  const MAX_PAGES := 10_000

  /** From walks forward from a time, UpTo walks back from it; both include the boundary sample. */
  datatype Mode = From | UpTo

  datatype PagingError = UnsafeMaxPages | NonMonotonicChartPage | CursorDidNotAdvance | PageLimitExceeded

  type Pages = seq<seq<Bar>>

  /** The chart endpoint: mode, cursor time, count. */
  type Chart = (Mode, int, int) -> seq<Bar>

  function NextCursor(mode: Mode, page: seq<Bar>): int
    requires page != []
  {
    match mode
    case From => page[|page| - 1].time
    case UpTo => page[0].time
  }

  predicate Advanced(mode: Mode, before: int, after: int) {
    match mode
    case From => before < after
    case UpTo => after < before
  }

  function Prepend(page: seq<Bar>, rest: Result<Pages, PagingError>): Result<Pages, PagingError> {
    match rest
    case Ok(pages) => Ok([page] + pages)
    case Err(e) => Err(e)
  }

  /** The requests still to make from a cursor with `fuel` pages left. */
  function Fetch(chart: Chart, mode: Mode, cursor: int, count: int, fuel: nat): Result<Pages, PagingError>
    decreases fuel
  {
    if fuel == 0 then Err(PageLimitExceeded)
    else
      var page := chart(mode, cursor, count);
      if !StrictlyIncreasing(Times(page)) then Err(NonMonotonicChartPage)
      else if page == [] || |page| < count then Ok([page])
      else if !Advanced(mode, cursor, NextCursor(mode, page)) then Err(CursorDidNotAdvance)
      else Prepend(page, Fetch(chart, mode, NextCursor(mode, page), count, fuel - 1))
  }

  function PrependAll(pages: Pages, rest: Result<Pages, PagingError>): Result<Pages, PagingError> {
    match rest
    case Ok(more) => Ok(pages + more)
    case Err(e) => Err(e)
  }

  lemma {:induction false} PrependStep(pages: Pages, page: seq<Bar>, more: Result<Pages, PagingError>)
    ensures PrependAll(pages, Prepend(page, more)) == PrependAll(pages + [page], more)
    ensures PrependAll([], more) == more
  {
    if more.Ok? {
      assert pages + ([page] + more.value) == pages + [page] + more.value;
      assert [] + more.value == more.value;
    }
  }

  method FetchChartPages(chart: Chart, mode: Mode, time: int, count: int, maxPages: int)
    returns (r: Result<Pages, PagingError>)
    ensures !(1 <= maxPages <= MAX_PAGES) ==> r == Err(UnsafeMaxPages)
    ensures 1 <= maxPages <= MAX_PAGES ==> r == Fetch(chart, mode, time, count, maxPages)
  {
    if !(1 <= maxPages <= MAX_PAGES) {
      return Err(UnsafeMaxPages);
    }
    var pages: Pages := [];
    var cursor := time;
    ghost var whole := Fetch(chart, mode, time, count, maxPages);
    PrependStep([], [], whole);
    for number := 1 to maxPages + 1
      invariant whole == PrependAll(pages, Fetch(chart, mode, cursor, count, maxPages - number + 1))
    {
      ghost var before := pages;
      var page := chart(mode, cursor, count);
      pages := pages + [page];
      if !StrictlyIncreasing(Times(page)) {
        return Err(NonMonotonicChartPage);
      }
      if page == [] || |page| < count {
        return Ok(pages);
      }
      var next := NextCursor(mode, page);
      if !Advanced(mode, cursor, next) {
        return Err(CursorDidNotAdvance);
      }
      cursor := next;
      ghost var more := Fetch(chart, mode, cursor, count, maxPages - number);
      PrependStep(before, page, more);
    }
    r := Err(PageLimitExceeded);
  }

  // ---- How a walk ends, whatever the provider ----

  /** A page after which the walk goes on: full, in order, and its far end strictly beyond the cursor. */
  predicate LeadsOn(mode: Mode, cursor: int, count: int, page: seq<Bar>) {
    && StrictlyIncreasing(Times(page)) && page != [] && |page| >= count
    && match mode
       case From => page[|page| - 1].time > cursor
       case UpTo => page[0].time < cursor
  }

  /** Where the walk stands after these pages. */
  function CursorAfter(mode: Mode, cursor: int, pages: Pages): int {
    if pages == [] || pages[|pages| - 1] == [] then cursor
    else
      var last := pages[|pages| - 1];
      match mode
      case From => last[|last| - 1].time
      case UpTo => last[0].time
  }

  /** Every page is the provider's answer to the far end of the one before it, and leads on. */
  ghost predicate GoesOn(chart: Chart, mode: Mode, cursor: int, count: int, pages: Pages) {
    forall i :: 0 <= i < |pages| ==>
      var at := CursorAfter(mode, cursor, pages[..i]);
      pages[i] == chart(mode, at, count) && LeadsOn(mode, at, count, pages[i])
  }

  lemma {:induction false} CursorShift(mode: Mode, cursor: int, page: seq<Bar>, more: Pages)
    requires page != [] && (more == [] || more[|more| - 1] != [])
    ensures CursorAfter(mode, NextCursor(mode, page), more) == CursorAfter(mode, cursor, [page] + more)
  {
    var pages := [page] + more;
    assert more != [] ==> pages[|pages| - 1] == more[|more| - 1];
  }

  lemma {:induction false} PageLeadsOn(chart: Chart, mode: Mode, cursor: int, count: int, pages: Pages, i: nat)
    requires GoesOn(chart, mode, cursor, count, pages) && i < |pages|
    ensures var at := CursorAfter(mode, cursor, pages[..i]);
      pages[i] == chart(mode, at, count) && LeadsOn(mode, at, count, pages[i])
  {
  }

  lemma {:induction false} GoesOnFrom(chart: Chart, mode: Mode, cursor: int, count: int, page: seq<Bar>, more: Pages)
    requires page == chart(mode, cursor, count) && LeadsOn(mode, cursor, count, page)
    requires GoesOn(chart, mode, NextCursor(mode, page), count, more)
    ensures GoesOn(chart, mode, cursor, count, [page] + more)
    ensures CursorAfter(mode, NextCursor(mode, page), more) == CursorAfter(mode, cursor, [page] + more)
  {
    hide CursorAfter, StrictlyIncreasing, NextCursor;
    var pages, next := [page] + more, NextCursor(mode, page);
    forall i | 0 <= i < |pages|
      ensures var at := CursorAfter(mode, cursor, pages[..i]);
        pages[i] == chart(mode, at, count) && LeadsOn(mode, at, count, pages[i])
    {
      if i > 0 {
        assert pages[..i] == [page] + more[..i - 1];
        PageLeadsOn(chart, mode, next, count, more, i - 1);
        if i > 1 { PageLeadsOn(chart, mode, next, count, more, i - 2); }
        CursorShift(mode, cursor, page, more[..i - 1]);
      } else {
        NoPages(mode, cursor);
      }
    }
    if more != [] { PageLeadsOn(chart, mode, next, count, more, |more| - 1); }
    CursorShift(mode, cursor, page, more);
  }

  lemma {:induction false} NoPages(mode: Mode, cursor: int)
    ensures CursorAfter(mode, cursor, []) == cursor
  {
  }

  /** The walk goes on as long as pages lead on; the first that does not, or the page limit, decides how it ends. */
  lemma {:induction false} WalkEndsExactly(chart: Chart, mode: Mode, cursor: int, count: int, fuel: nat)
      returns (pages: Pages)
    ensures GoesOn(chart, mode, cursor, count, pages) && |pages| <= fuel
    ensures var at := CursorAfter(mode, cursor, pages);
      var page, r := chart(mode, at, count), Fetch(chart, mode, cursor, count, fuel);
      if |pages| == fuel then r == Err(PageLimitExceeded)
      else if !StrictlyIncreasing(Times(page)) then r == Err(NonMonotonicChartPage)
      else if page == [] || |page| < count then r == Ok(pages + [page])
      else r == Err(CursorDidNotAdvance) && !LeadsOn(mode, at, count, page)
    decreases fuel
  {
    hide StrictlyIncreasing;
    var page := chart(mode, cursor, count);
    if fuel == 0 || !LeadsOn(mode, cursor, count, page) {
      pages := [];
      assert [] + [page] == [page];
    } else {
      var more := WalkEndsExactly(chart, mode, NextCursor(mode, page), count, fuel - 1);
      pages := [page] + more;
      GoesOnFrom(chart, mode, cursor, count, page, more);
      var last := chart(mode, CursorAfter(mode, cursor, pages), count);
      assert pages + [last] == [page] + (more + [last]);
    }
  }

  // ---- A provider that serves one immutable series ----

  predicate IsSeries(series: seq<Bar>) { StrictlyIncreasing(Times(series)) }

  /** The samples a walk can still reach from a cursor. */
  function Reachable(series: seq<Bar>, mode: Mode, cursor: int): seq<Bar> {
    match mode
    case From => After(series, cursor)
    case UpTo => Before(series, cursor)
  }

  function After(series: seq<Bar>, cursor: int): (r: seq<Bar>)
    ensures |r| <= |series|
  {
    if series == [] then [] else if cursor <= series[0].time then series else After(series[1..], cursor)
  }

  function Before(series: seq<Bar>, cursor: int): (r: seq<Bar>)
    ensures |r| <= |series|
  {
    if series == [] then []
    else if series[|series| - 1].time <= cursor then series
    else Before(series[..|series| - 1], cursor)
  }

  /** At most `count` reachable samples, those nearest the cursor, in time order. */
  function Serve(series: seq<Bar>, mode: Mode, cursor: int, count: int): seq<Bar> {
    var reach := Reachable(series, mode, cursor);
    if |reach| <= count then reach
    else if count <= 0 then []
    else match mode
      case From => reach[..count]
      case UpTo => reach[|reach| - count..]
  }

  function Provider(series: seq<Bar>): Chart {
    (mode: Mode, cursor: int, count: int) => Serve(series, mode, cursor, count)
  }

  lemma {:induction false} AfterIsSuffix(series: seq<Bar>, cursor: int)
    requires IsSeries(series)
    ensures After(series, cursor) == series[|series| - |After(series, cursor)|..]
    ensures forall i :: 0 <= i < |series| ==>
      (cursor <= series[i].time <==> |series| - |After(series, cursor)| <= i)
    ensures IsSeries(After(series, cursor))
  {
    hide IsSeries;
    if series != [] {
      if series[0].time < cursor {
        assert series[1..] == series[1..|series|];
        SliceIsSeries(series, 1, |series|);
        AfterIsSuffix(series[1..], cursor);
        assert forall i :: 1 <= i < |series| ==> series[i] == series[1..][i - 1];
      } else {
        forall i | 0 <= i < |series| ensures cursor <= series[i].time {
          if i > 0 { ReachIsOrdered(series, 0, i); }
        }
      }
    }
  }

  lemma {:induction false} BeforeIsPrefix(series: seq<Bar>, cursor: int)
    requires IsSeries(series)
    ensures Before(series, cursor) == series[..|Before(series, cursor)|]
    ensures forall i :: 0 <= i < |series| ==> (series[i].time <= cursor <==> i < |Before(series, cursor)|)
    ensures IsSeries(Before(series, cursor))
  {
    if series != [] {
      var n := |series| - 1;
      assert forall i :: 0 <= i < |series| ==> Times(series)[i] == series[i].time;
      if cursor < series[n].time {
        assert Times(series[..n]) == Times(series)[..n];
        BeforeIsPrefix(series[..n], cursor);
        assert forall i :: 0 <= i < n ==> series[i] == series[..n][i];
      }
    }
  }

  /** floor((n - 1) / (count - 1)) + 1 pages; one empty page when nothing is reachable. */
  function PagesNeeded(n: nat, count: int): nat
    requires 2 <= count
  {
    if n == 0 then 1 else (n - 1) / (count - 1) + 1
  }

  lemma {:induction false} PagesNeededStep(n: nat, count: int)
    requires 2 <= count <= n
    ensures PagesNeeded(n, count) == 1 + PagesNeeded(n - (count - 1), count)
  {
    var c := count - 1;
    assert (n - 1) == (n - 1 - c) + c;
    assert (n - 1) / c == (n - 1 - c) / c + 1 by {
      DivideStep(n - 1 - c, c);
    }
  }

  lemma {:induction false} DivideStep(a: nat, c: int)
    requires 0 < c
    ensures (a + c) / c == a / c + 1
  {
    var q, r := a / c, a % c;
    assert a + c == (q + 1) * c + r;
    DivideUnique(a + c, c, q + 1, r);
  }

  lemma {:induction false} DivideUnique(a: int, c: int, q: int, r: int)
    requires 0 < c && 0 <= r < c && a == q * c + r
    ensures a / c == q
  {
    var p, s := a / c, a % c;
    assert a == p * c + s;
    assert (p - q) * c == r - s;
    assert p - q >= 1 ==> (p - q) * c >= c;
    assert q - p >= 1 ==> (q - p) * c >= c;
  }

  /** What a walk over `reach` leaves reachable after one full page: the boundary sample is seen again. */
  function Rest(mode: Mode, reach: seq<Bar>, count: int): seq<Bar>
    requires 2 <= count <= |reach|
  {
    match mode
    case From => reach[count - 1..]
    case UpTo => reach[..|reach| - count + 1]
  }

  function FullPage(mode: Mode, reach: seq<Bar>, count: int): seq<Bar>
    requires 2 <= count <= |reach|
  {
    match mode
    case From => reach[..count]
    case UpTo => reach[|reach| - count..]
  }

  /** One full page: it is accepted, the cursor moves, and only its boundary sample is asked for again. */
  lemma {:induction false} OneFullPage(series: seq<Bar>, mode: Mode, cursor: int, count: int)
    requires IsSeries(series)
    requires 2 <= count <= |Reachable(series, mode, cursor)|
    ensures var reach := Reachable(series, mode, cursor);
      var page := Serve(series, mode, cursor, count);
      && page == FullPage(mode, reach, count)
      && StrictlyIncreasing(Times(page))
      && Advanced(mode, cursor, NextCursor(mode, page))
      && Reachable(series, mode, NextCursor(mode, page)) == Rest(mode, reach, count)
  {
    hide After, Before, StrictlyIncreasing, Times;
    ServesFullPage(series, mode, cursor, count);
    var reach := Reachable(series, mode, cursor);
    match mode
    case From =>
      OneForwardPage(series, cursor, count);
      assert reach[..count][count - 1] == reach[count - 1];
    case UpTo =>
      OneBackwardPage(series, cursor, count);
      assert reach[|reach| - count..][0] == reach[|reach| - count];
  }

  lemma {:induction false} ServesFullPage(series: seq<Bar>, mode: Mode, cursor: int, count: int)
    requires 2 <= count <= |Reachable(series, mode, cursor)|
    ensures Serve(series, mode, cursor, count) == FullPage(mode, Reachable(series, mode, cursor), count)
  {
    hide After, Before;
    var reach := Reachable(series, mode, cursor);
    assert |reach| == count ==> reach[..count] == reach == reach[|reach| - count..];
  }

  lemma {:induction false} SliceIsSeries(s: seq<Bar>, i: int, j: int)
    requires IsSeries(s) && 0 <= i <= j <= |s|
    ensures IsSeries(s[i..j])
  {
  }

  lemma {:induction false} OneForwardPage(series: seq<Bar>, cursor: int, count: int)
    requires IsSeries(series)
    requires 2 <= count <= |After(series, cursor)|
    ensures var reach := After(series, cursor);
      && IsSeries(reach[..count])
      && cursor < reach[count - 1].time
      && After(series, reach[count - 1].time) == reach[count - 1..]
  {
    var reach := After(series, cursor);
    AfterIsSuffix(series, cursor);
    SliceIsSeries(reach, 0, count);
    assert reach[..count] == reach[0..count];
    ReachIsOrdered(reach, 0, count - 1);
    assert series[|series| - |reach|] == reach[0];
    SuffixFrom(series, cursor, count - 1);
  }

  lemma {:induction false} OneBackwardPage(series: seq<Bar>, cursor: int, count: int)
    requires IsSeries(series)
    requires 2 <= count <= |Before(series, cursor)|
    ensures var reach := Before(series, cursor);
      var k := |reach| - count;
      && IsSeries(reach[k..])
      && reach[k].time < cursor
      && Before(series, reach[k].time) == reach[..k + 1]
  {
    hide IsSeries, Before;
    var reach := Before(series, cursor);
    var k := |reach| - count;
    BeforeIsPrefix(series, cursor);
    SliceIsSeries(reach, k, |reach|);
    assert reach[k..] == reach[k..|reach|];
    ReachIsOrdered(reach, k, |reach| - 1);
    assert series[|reach| - 1] == reach[|reach| - 1];
    PrefixUpTo(series, cursor, k);
  }

  lemma {:induction false} ReachIsOrdered(reach: seq<Bar>, i: int, j: int)
    requires IsSeries(reach) && 0 <= i < j < |reach|
    ensures reach[i].time < reach[j].time
  {
  }

  lemma {:induction false} SuffixFrom(series: seq<Bar>, cursor: int, k: int)
    requires IsSeries(series) && 0 <= k < |After(series, cursor)|
    ensures After(series, After(series, cursor)[k].time) == After(series, cursor)[k..]
  {
    hide IsSeries, After;
    var reach := After(series, cursor);
    AfterIsSuffix(series, cursor);
    AfterIsSuffix(series, reach[k].time);
    var at := |series| - |reach| + k;
    assert series[at] == reach[k];
    if at > 0 { ReachIsOrdered(series, at - 1, at); }
    var other := |series| - |After(series, reach[k].time)|;
    assert other <= at;
    assert other == at;
  }

  lemma {:induction false} PrefixUpTo(series: seq<Bar>, cursor: int, k: int)
    requires IsSeries(series) && 0 <= k < |Before(series, cursor)|
    ensures Before(series, Before(series, cursor)[k].time) == Before(series, cursor)[..k + 1]
  {
    hide IsSeries, Before;
    var reach := Before(series, cursor);
    BeforeIsPrefix(series, cursor);
    BeforeIsPrefix(series, reach[k].time);
    assert series[k] == reach[k];
    if k + 1 < |series| { ReachIsOrdered(series, k, k + 1); }
  }

  // ---- What the pages say when they are merged ----

  /** `m` holds exactly the samples of `s`, each under its own time. */
  ghost predicate Holds(m: map<int, Bar>, s: seq<Bar>) {
    && (forall b :: b in s ==> b.time in m && m[b.time] == b)
    && (forall t :: t in m ==> exists b :: b in s && b.time == t)
  }

  lemma {:induction false} SinglePageHolds(s: seq<Bar>)
    requires IsSeries(s)
    ensures Holds(Normalize.FirstSeen([s]), s)
  {
    Normalize.OnePage(s);
    Normalize.DistinctPage(s);
  }

  /** Two overlapping stretches of one series that cover it merge into all of it. */
  lemma {:induction false} StretchesJoin(m: map<int, Bar>, n: map<int, Bar>, a: seq<Bar>, b: seq<Bar>, s: seq<Bar>)
    requires IsSeries(s) && Holds(m, a) && Holds(n, b)
    requires forall x :: x in s <==> x in a || x in b
    ensures Holds(Normalize.Prefer(m, n), s)
  {
  }

  lemma {:induction false} PageAndRestCover(mode: Mode, reach: seq<Bar>, count: int)
    requires 2 <= count <= |reach|
    ensures forall x :: x in reach <==> x in FullPage(mode, reach, count) || x in Rest(mode, reach, count)
  {
  }

  /** How a walk over `reach` must end: the number of pages, and what they hold. */
  ghost predicate Outcome(reach: seq<Bar>, count: int, fuel: nat, r: Result<Pages, PagingError>)
    requires 2 <= count
  {
    && (r.Ok? <==> PagesNeeded(|reach|, count) <= fuel)
    && (r.Ok? ==> |r.value| == PagesNeeded(|reach|, count) && Holds(Normalize.FirstSeen(r.value), reach))
    && (r.Err? ==> r.error == PageLimitExceeded)
  }

  lemma {:induction false} ShortPageOutcome(reach: seq<Bar>, count: int, fuel: nat)
    requires IsSeries(reach) && 2 <= count && |reach| < count && 0 < fuel
    ensures Outcome(reach, count, fuel, Ok([reach]))
  {
    SinglePageHolds(reach);
    ShortWalk(|reach|, count);
  }

  lemma {:induction false} FullPageOutcome(mode: Mode, reach: seq<Bar>, count: int, fuel: nat, more: Result<Pages,
      PagingError>)
    requires IsSeries(reach) && 2 <= count <= |reach| && 0 < fuel
    requires IsSeries(FullPage(mode, reach, count))
    requires Outcome(Rest(mode, reach, count), count, fuel - 1, more)
    ensures Outcome(reach, count, fuel, Prepend(FullPage(mode, reach, count), more))
  {
    hide IsSeries, Holds, PagesNeeded, Normalize.FirstSeen, FullPage;
    PagesNeededStep(|reach|, count);
    if more.Ok? {
      FullPageJoins(mode, reach, count, more.value);
    }
  }

  lemma {:induction false} ShortFetch(chart: Chart, mode: Mode, cursor: int, count: int, fuel: nat)
    requires 0 < fuel && StrictlyIncreasing(Times(chart(mode, cursor, count))) && |chart(mode, cursor, count)| < count
    ensures Fetch(chart, mode, cursor, count, fuel) == Ok([chart(mode, cursor, count)])
  {
  }

  lemma {:induction false} FullFetch(chart: Chart, mode: Mode, cursor: int, count: int, fuel: nat)
    requires 0 < fuel && 0 < count
    requires var page := chart(mode, cursor, count);
      count <= |page| && StrictlyIncreasing(Times(page)) && Advanced(mode, cursor, NextCursor(mode, page))
    ensures var page := chart(mode, cursor, count);
      Fetch(chart, mode, cursor, count, fuel)
        == Prepend(page, Fetch(chart, mode, NextCursor(mode, page), count, fuel - 1))
  {
  }

  lemma {:induction false} WalkEndsHere(series: seq<Bar>, mode: Mode, cursor: int, count: int, fuel: nat)
    requires IsSeries(series) && 2 <= count && 0 < fuel
    requires |Reachable(series, mode, cursor)| < count
    ensures Outcome(Reachable(series, mode, cursor), count, fuel, Fetch(Provider(series), mode, cursor, count, fuel))
  {
    var reach := Reachable(series, mode, cursor);
    ReachIsSeries(series, mode, cursor);
    assert Provider(series)(mode, cursor, count) == reach;
    ShortFetch(Provider(series), mode, cursor, count, fuel);
    ShortPageOutcome(reach, count, fuel);
  }

  lemma {:induction false} WalkGoesOn(series: seq<Bar>, mode: Mode, cursor: int, count: int, fuel: nat, next: int)
    requires IsSeries(series) && 2 <= count <= |Reachable(series, mode, cursor)| && 0 < fuel
    requires next == NextCursor(mode, FullPage(mode, Reachable(series, mode, cursor), count))
    requires Outcome(Reachable(series, mode, next), count, fuel - 1,
        Fetch(Provider(series), mode, next, count, fuel - 1))
    ensures Outcome(Reachable(series, mode, cursor), count, fuel, Fetch(Provider(series), mode, cursor, count, fuel))
  {
    var reach := Reachable(series, mode, cursor);
    ReachIsSeries(series, mode, cursor);
    OneFullPage(series, mode, cursor, count);
    assert Provider(series)(mode, cursor, count) == FullPage(mode, reach, count);
    FullFetch(Provider(series), mode, cursor, count, fuel);
    FullPageOutcome(mode, reach, count, fuel, Fetch(Provider(series), mode, next, count, fuel - 1));
  }

  /** The whole walk: how many pages it takes, when it fails, and what its pages hold. */
  lemma {:induction false} NoPagesLeft(series: seq<Bar>, mode: Mode, cursor: int, count: int)
    requires 2 <= count
    ensures Outcome(Reachable(series, mode, cursor), count, 0, Fetch(Provider(series), mode, cursor, count, 0))
  {
    hide After, Before;
    var n := |Reachable(series, mode, cursor)|;
    assert 1 <= PagesNeeded(n, count) by { SomePages(n, count); }
  }

  lemma {:induction false} SomePages(n: nat, count: int)
    requires 2 <= count
    ensures 1 <= PagesNeeded(n, count)
  {
  }

  lemma {:induction false} Walk(series: seq<Bar>, mode: Mode, cursor: int, count: int, fuel: nat)
    requires IsSeries(series) && 2 <= count
    ensures Outcome(Reachable(series, mode, cursor), count, fuel, Fetch(Provider(series), mode, cursor, count, fuel))
    decreases fuel
  {
    hide Fetch, Outcome, After, Before, Serve, IsSeries;
    var reach := Reachable(series, mode, cursor);
    if fuel == 0 {
      NoPagesLeft(series, mode, cursor, count);
    } else {
      if |reach| < count {
        WalkEndsHere(series, mode, cursor, count, fuel);
      } else {
        var next := NextCursor(mode, FullPage(mode, reach, count));
        Walk(series, mode, next, count, fuel - 1);
        WalkGoesOn(series, mode, cursor, count, fuel, next);
      }
    }
  }

  lemma {:induction false} FullPageJoins(mode: Mode, reach: seq<Bar>, count: int, more: Pages)
    requires IsSeries(reach) && 2 <= count <= |reach|
    requires IsSeries(FullPage(mode, reach, count))
    requires Holds(Normalize.FirstSeen(more), Rest(mode, reach, count))
    ensures Holds(Normalize.FirstSeen([FullPage(mode, reach, count)] + more), reach)
  {
    var page := FullPage(mode, reach, count);
    SinglePageHolds(page);
    PageAndRestCover(mode, reach, count);
    Normalize.FirstSeenAppend([page], more);
    StretchesJoin(Normalize.FirstSeen([page]), Normalize.FirstSeen(more), page, Rest(mode, reach, count), reach);
  }

  lemma {:induction false} ShortWalk(n: nat, count: int)
    requires 2 <= count && n < count
    ensures PagesNeeded(n, count) == 1
  {
  }

  lemma {:induction false} ReachIsSeries(series: seq<Bar>, mode: Mode, cursor: int)
    requires IsSeries(series)
    ensures IsSeries(Reachable(series, mode, cursor))
  {
    match mode
    case From => AfterIsSuffix(series, cursor);
    case UpTo => BeforeIsPrefix(series, cursor);
  }

  function OnlyLastOpen(s: seq<Bar>): seq<Bar> {
    seq(|s|, i requires 0 <= i < |s| => Normalize.WithComplete(s[i], i < |s| - 1))
  }

  lemma {:induction false} HeldSeriesMerges(m: map<int, Bar>, s: seq<Bar>)
    requires IsSeries(s) && Holds(m, s)
    ensures Normalize.Merged(m) == OnlyLastOpen(s)
  {
    Normalize.SameTimesConverse(s, m);
    SortedIsUnique(Times(s), m.Keys);
    MergedOfHeld(m, s);
  }

  lemma {:induction false} MergedOfHeld(m: map<int, Bar>, s: seq<Bar>)
    requires Times(s) == Sorted(m.Keys)
    requires forall b :: b in s ==> b.time in m && m[b.time] == b
    ensures Normalize.Merged(m) == OnlyLastOpen(s)
  {
  }

  /**
   Against an immutable series, paging succeeds exactly when the pages needed fit the limit; it then takes
   exactly that many and the merged pages are all reachable samples, none missing and none repeated.
   */
  lemma {:induction false} PagingIsComplete(series: seq<Bar>, mode: Mode, time: int, count: int, maxPages: int)
    requires IsSeries(series) && 2 <= count && 1 <= maxPages <= MAX_PAGES
    ensures var reach := Reachable(series, mode, time);
      var r := Fetch(Provider(series), mode, time, count, maxPages);
      && (PagesNeeded(|reach|, count) <= maxPages ==>
            && r.Ok? && |r.value| == PagesNeeded(|reach|, count)
            && Normalize.Merge(r.value) == OnlyLastOpen(reach))
      && (maxPages < PagesNeeded(|reach|, count) ==> r == Err(PageLimitExceeded))
  {
    var reach := Reachable(series, mode, time);
    ReachIsSeries(series, mode, time);
    Walk(series, mode, time, count, maxPages);
    var r := Fetch(Provider(series), mode, time, count, maxPages);
    if r.Ok? {
      HeldSeriesMerges(Normalize.FirstSeen(r.value), reach);
    }
  }

  /** The samples paging can reach are those at or after (at or before) the requested time. */
  lemma {:induction false} ReachableSamples(series: seq<Bar>, mode: Mode, time: int, b: Bar)
    requires IsSeries(series) && b in series
    ensures b in Reachable(series, mode, time) <==> (if mode == From then time <= b.time else b.time <= time)
  {
    var i :| 0 <= i < |series| && series[i] == b;
    match mode
    case From => ReachableForward(series, time, i);
    case UpTo => ReachableBackward(series, time, i);
  }

  lemma {:induction false} ReachableForward(series: seq<Bar>, time: int, i: int)
    requires IsSeries(series) && 0 <= i < |series|
    ensures series[i] in After(series, time) <==> time <= series[i].time
  {
    AfterIsSuffix(series, time);
    var reach := After(series, time);
    var k := |series| - |reach|;
    if time <= series[i].time { assert reach[i - k] == series[i]; }
    if series[i] in reach {
      var j :| 0 <= j < |reach| && reach[j] == series[i];
      assert reach[j] == series[k + j];
    }
  }

  lemma {:induction false} ReachableBackward(series: seq<Bar>, time: int, i: int)
    requires IsSeries(series) && 0 <= i < |series|
    ensures series[i] in Before(series, time) <==> series[i].time <= time
  {
    BeforeIsPrefix(series, time);
    var reach := Before(series, time);
    if series[i].time <= time { assert reach[i] == series[i]; }
    if series[i] in reach {
      var j :| 0 <= j < |reach| && reach[j] == series[i];
      assert reach[j] == series[j];
    }
  }

  /** One sample a page can never make progress: the boundary sample fills the page. */
  lemma {:induction false} SingleSamplePagesFail(series: seq<Bar>, mode: Mode, time: int, maxPages: int)
    requires IsSeries(series) && 1 <= maxPages <= MAX_PAGES
    requires Reachable(series, mode, time) != []
    ensures Fetch(Provider(series), mode, time, 1, maxPages).Err?
  {
    hide After, Before, StrictlyIncreasing;
    var reach := Reachable(series, mode, time);
    ReachIsSeries(series, mode, time);
    var page := Serve(series, mode, time, 1);
    var next := NextCursor(mode, page);
    match mode
    case From =>
      SuffixFrom(series, time, 0);
    case UpTo =>
      PrefixUpTo(series, time, |reach| - 1);
    assert Provider(series)(mode, next, 1) == page == Provider(series)(mode, time, 1);
    StuckOnOneSample(Provider(series), mode, next, page, maxPages - 1);
  }

  /** A page of one sample that the cursor already stands on does not move it. */
  lemma {:induction false} StuckOnOneSample(chart: Chart, mode: Mode, cursor: int, page: seq<Bar>, fuel: nat)
    requires |page| == 1 && chart(mode, cursor, 1) == page && NextCursor(mode, page) == cursor
    ensures Fetch(chart, mode, cursor, 1, fuel).Err?
  {
  }
}
