/** How an incremental run comes by its bars: it walks forward from the overlap with the stored rows. */
module Acquisition {
  import opened Sets
  import opened Types
  import opened Derive
  import opened Store
  import Normalize
  import Paging

  /** FX series are fetched again over 72 complete rows, exchange series over 20. */
  function OverlapBars(basis: Basis): nat { if basis == BidAskMid then 72 else 20 }

  function PassedTimes(curated: Curated, s: Series): set<int> {
    set k | k in curated && k.inst == s.inst && k.basis == s.basis
      && curated[k].content.isComplete && curated[k].quality == QualityPass :: k.time
  }

  /** The walk starts at the last of the newest complete rows; a series with fewer is refused. */
  function OverlapStart(curated: Curated, s: Series): Option<int> {
    var times, n := Sorted(PassedTimes(curated, s)), OverlapBars(s.basis);
    if |times| < n then None else Some(times[|times| - n])
  }

  /** The verified session that holds a time; of several the one with the lowest sequence. */
  ghost predicate SessionAt(catalog: Catalog, inst: int, t: int, iv: Interval) {
    && inst in catalog && catalog[inst].verification == Some("VERIFIED") && iv in catalog[inst].intervals
    && Contains(iv, t)
    && forall other :: other in catalog[inst].intervals && Contains(other, t) ==> iv.sequence <= other.sequence
  }

  predicate Contains(iv: Interval, t: int) { iv.Trading? && iv.opening <= t < iv.closing }

  /** The last bar of an exchange series is finished where a stored session proves that it is the session's last. */
  ghost predicate Finishes(catalog: Catalog, s: Series, bars: seq<Bar>, r: seq<Bar>) {
    if s.basis != NativeOhlc || bars == [] then r == bars
    else FinishedAt(catalog, s.inst, bars[|bars| - 1].time, bars, r)
  }

  ghost predicate FinishedAt(catalog: Catalog, inst: int, t: int, bars: seq<Bar>, r: seq<Bar>)
    requires bars != []
  {
    || (r == bars && forall iv :: !SessionAt(catalog, inst, t, iv))
    || exists iv :: SessionAt(catalog, inst, t, iv)
         && r == Normalize.Finished(bars, |bars| - 1, iv.opening, iv.closing)
  }

  /** The item is what a run acquires of a provider's series: everything from the overlap on, the last bar open. */
  ghost predicate Acquires(curated: Curated, catalog: Catalog, item: Item, series: seq<Bar>) {
    var start := OverlapStart(curated, item.SeriesKey());
    && Paging.IsSeries(series) && (forall b :: b in series ==> b.basis == item.basis)
    && start.Some?
    && Finishes(catalog, item.SeriesKey(), Paging.OnlyLastOpen(Paging.After(series, start.value)), item.bars)
  }

  /** A stored row that the overlap counts: of the series, complete and accepted. */
  predicate Counted(curated: Curated, s: Series, t: int) {
    var k := Key(s.inst, t, s.basis);
    k in curated && curated[k].content.isComplete && curated[k].quality == QualityPass
  }

  /** The overlap is 72 rows of an FX series and 20 of an exchange series. */
  lemma {:induction false} OverlapCountsRows(curated: Curated, s: Series)
    ensures forall t :: t in PassedTimes(curated, s) <==> Counted(curated, s, t)
    ensures OverlapBars(NativeOhlc) == 20 && OverlapBars(BidAskMid) == 72
  {
    forall t ensures t in PassedTimes(curated, s) <==> Counted(curated, s, t) {
      if Counted(curated, s, t) {
        assert Key(s.inst, t, s.basis).time in PassedTimes(curated, s);
      }
    }
  }

  /** A session holds the times from its opening on and before its close; holidays hold none. */
  lemma {:induction false} SessionHoldsTime(catalog: Catalog, inst: int, t: int, iv: Interval)
    ensures SessionAt(catalog, inst, t, iv) ==>
      iv.Trading? && iv.opening <= t && t < iv.closing && inst in catalog && iv in catalog[inst].intervals
      && catalog[inst].verification == Some("VERIFIED")
    ensures inst in catalog && catalog[inst] == Calendar(Some("VERIFIED"), {iv}) && iv.Trading? ==>
      (SessionAt(catalog, inst, t, iv) <==> iv.opening <= t < iv.closing)
  {
  }

  /** The walk starts where exactly the overlap's number of complete rows is left to see again. */
  lemma {:induction false} OverlapIsCounted(curated: Curated, s: Series)
    ensures OverlapStart(curated, s).None? <==> |PassedTimes(curated, s)| < if s.basis == BidAskMid then 72 else 20
    ensures var start := OverlapStart(curated, s);
      start.Some? ==>
        && Counted(curated, s, start.value)
        && |set t | t in PassedTimes(curated, s) && start.value <= t| == if s.basis == BidAskMid then 72 else 20
    ensures forall t :: t in PassedTimes(curated, s) <==> Counted(curated, s, t)
  {
    var times, n := Sorted(PassedTimes(curated, s)), OverlapBars(s.basis);
    OverlapCountsRows(curated, s);
    if n <= |times| {
      SortedIncreases(PassedTimes(curated, s));
      SuffixOfSorted(PassedTimes(curated, s), |times| - n);
      assert times[|times| - n] in times;
    }
  }

  /** In a sorted list the elements from a place on are the elements not below the one at that place. */
  lemma {:induction false} SuffixOfSorted(all: set<int>, k: nat)
    requires k < |Sorted(all)|
    ensures |set t | t in all && Sorted(all)[k] <= t| == |all| - k
  {
    hide StrictlyIncreasing;
    var times := Sorted(all);
    SortedIncreases(all);
    var rest, later := times[k..], set t | t in all && times[k] <= t;
    forall t ensures t in rest <==> t in later {
      SuffixHas(times, k, t);
    }
    SuffixIncreases(times, k);
    SortedIsUnique(rest, later);
  }

  lemma {:induction false} SuffixIncreases(times: seq<int>, k: nat)
    requires StrictlyIncreasing(times) && k < |times|
    ensures StrictlyIncreasing(times[k..])
  {
  }

  lemma {:induction false} SuffixHas(times: seq<int>, k: nat, t: int)
    requires StrictlyIncreasing(times) && k < |times|
    ensures t in times[k..] <==> t in times && times[k] <= t
  {
    var rest := times[k..];
    if t in times && times[k] <= t {
      var i :| 0 <= i < |times| && times[i] == t;
      assert rest[i - k] == t;
    }
    if t in rest {
      var i :| 0 <= i < |rest| && rest[i] == t;
      assert times[k + i] == t;
    }
  }

  /** Whatever the calendar, finishing changes at most the flag of the last bar, and only from open to complete. */
  lemma {:induction false} FinishedShape(catalog: Catalog, s: Series, bars: seq<Bar>, r: seq<Bar>)
    requires Finishes(catalog, s, bars, r)
    ensures |r| == |bars| && forall i :: 0 <= i < |bars| - 1 ==> r[i] == bars[i]
    ensures bars != [] ==>
      var n := |bars| - 1;
      r[n] == bars[n] || r[n] == Normalize.WithComplete(bars[n], true)
  {
  }

  /** A run acquires exactly the provider's times from the overlap on, in order, all but the last complete. */
  lemma {:induction false} AcquiredBars(curated: Curated, catalog: Catalog, item: Item, series: seq<Bar>)
    requires Acquires(curated, catalog, item, series)
    ensures Paging.IsSeries(item.bars) && forall i :: 0 <= i < |item.bars| - 1 ==> item.bars[i].content.isComplete
    ensures forall t :: t in TimesSeen(item.bars) <==>
      t in TimesSeen(series) && OverlapStart(curated, item.SeriesKey()).value <= t
  {
    var start := OverlapStart(curated, item.SeriesKey()).value;
    var reach := Paging.After(series, start);
    Paging.ReachIsSeries(series, Paging.From, start);
    FinishedShape(catalog, item.SeriesKey(), Paging.OnlyLastOpen(reach), item.bars);
    assert Times(item.bars) == Times(reach);
    SameTimes(item.bars, reach);
    ReachedTimes(series, start);
  }

  lemma {:induction false} SameTimes(a: seq<Bar>, b: seq<Bar>)
    requires Times(a) == Times(b)
    ensures TimesSeen(a) == TimesSeen(b)
  {
    forall t ensures t in TimesSeen(a) <==> t in TimesSeen(b) {
      if x :| x in a && x.time == t {
        var i :| 0 <= i < |a| && a[i] == x;
        assert Times(a)[i] == t == Times(b)[i];
        assert b[i] in b;
      }
      if x :| x in b && x.time == t {
        var i :| 0 <= i < |b| && b[i] == x;
        assert Times(a)[i] == t == Times(b)[i];
        assert a[i] in a;
      }
    }
  }

  lemma {:induction false} ReachedTimes(series: seq<Bar>, start: int)
    requires Paging.IsSeries(series)
    ensures forall t :: t in TimesSeen(Paging.After(series, start)) <==> t in TimesSeen(series) && start <= t
  {
    forall b | b in series ensures b in Paging.After(series, start) <==> start <= b.time {
      Paging.ReachableSamples(series, Paging.From, start, b);
    }
    Paging.AfterIsSuffix(series, start);
    var reach := Paging.After(series, start);
    forall b | b in reach ensures b in series {
      var i :| 0 <= i < |reach| && reach[i] == b;
    }
  }
}
