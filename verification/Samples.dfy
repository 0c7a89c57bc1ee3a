/** Hourly bars of one exchange series, as a provider serves them and as a run acquires them. */
module Samples {
  import opened Sets
  import opened Types
  import opened Derive
  import opened Store
  import Acquisition
  import CommitLaws
  import Normalize
  import Paging
  import Revision

  const SERIES := Series(1, NativeOhlc)
  const FLAT := Revision.FLAT
  const OPEN := Open(FLAT)
  const DELAY := 15

  /** The same values, observed while the hour may still go on. */
  function Open(content: Content): Content { content.(isComplete := false) }

  function BarAt(i: int, content: Content, version: Option<int>, fetched: int): Bar {
    Bar(3600 * i, content, NativeOhlc, version, Some(DELAY), fetched, "")
  }

  /** The bars of the hours `from` to `to`: flat and complete, but for the content of the last one. */
  function HourBars(from: int, to: int, last: Content, version: Option<int>, fetched: int): seq<Bar>
    requires from <= to
  {
    seq(to - from + 1, i requires 0 <= i < to - from + 1 =>
      BarAt(from + i, if from + i == to then last else FLAT, version, fetched))
  }

  function Hours(from: int, to: int): set<int> { set i | from <= i <= to :: 3600 * i }

  function Acquired(from: int, to: int, last: Content, version: Option<int>, fetched: int): Item
    requires from <= to
  {
    BoundedItem(SERIES, HourBars(from, to, last, version, fetched))
  }

  // ---- Reading them ----

  lemma {:induction false} HourOf(from: int, to: int, last: Content, version: Option<int>, fetched: int, b: Bar)
      returns (i: int)
    requires from <= to && b in HourBars(from, to, last, version, fetched)
    ensures from <= i <= to && b == BarAt(i, if i == to then last else FLAT, version, fetched)
    ensures b == HourBars(from, to, last, version, fetched)[i - from]
  {
    var bars := HourBars(from, to, last, version, fetched);
    var k :| 0 <= k < |bars| && bars[k] == b;
    i := from + k;
  }

  lemma {:induction false} BarIn(from: int, to: int, last: Content, version: Option<int>, fetched: int, i: int)
    requires from <= i <= to
    ensures |HourBars(from, to, last, version, fetched)| == to - from + 1
    ensures var b := HourBars(from, to, last, version, fetched)[i - from];
      b == BarAt(i, if i == to then last else FLAT, version, fetched) && b in HourBars(from, to, last, version, fetched)
  {
    var k := i - from;
    assert from + k == i;
    assert HourBars(from, to, last, version, fetched)[k]
      == BarAt(from + k, if from + k == to then last else FLAT, version, fetched);
  }

  lemma {:induction false} BarsAreSeries(from: int, to: int, last: Content, version: Option<int>, fetched: int)
    requires from <= to
    ensures var bars := HourBars(from, to, last, version, fetched);
      && Paging.IsSeries(bars) && |bars| == to - from + 1
      && bars[0].time == 3600 * from && bars[|bars| - 1].time == 3600 * to
      && forall i :: 0 <= i < |bars| ==> bars[i].time == 3600 * (from + i)
  {
    var bars := HourBars(from, to, last, version, fetched);
    hide HourBars;
    BarIn(from, to, last, version, fetched, from);
    forall i | 0 <= i < |bars| ensures bars[i].time == 3600 * (from + i) {
      BarIn(from, to, last, version, fetched, from + i);
    }
  }

  lemma {:induction false} BarsAre(from: int, to: int, last: Content, version: Option<int>, fetched: int)
    requires from <= to
    ensures var bars := HourBars(from, to, last, version, fetched);
      && (forall b :: b in bars ==> b.basis == NativeOhlc && b.dataVersion == version && b.retrievedAt == fetched)
      && (forall b :: b in bars ==> 3600 * from <= b.time <= 3600 * to)
      && (forall b :: b in bars ==> b.content == if b.time == 3600 * to then last else FLAT)
  {
    forall b | b in HourBars(from, to, last, version, fetched)
      ensures b.basis == NativeOhlc && b.dataVersion == version && b.retrievedAt == fetched
      ensures 3600 * from <= b.time <= 3600 * to && b.content == if b.time == 3600 * to then last else FLAT
    {
      var i := HourOf(from, to, last, version, fetched, b);
    }
  }

  lemma {:induction false} TimesOfBars(from: int, to: int, last: Content, version: Option<int>, fetched: int)
    requires from <= to
    ensures TimesSeen(HourBars(from, to, last, version, fetched)) == Hours(from, to)
  {
    var bars := HourBars(from, to, last, version, fetched);
    forall t ensures t in TimesSeen(bars) <==> t in Hours(from, to) {
      if b :| b in bars && b.time == t {
        var i := HourOf(from, to, last, version, fetched, b);
        assert 3600 * i in Hours(from, to);
      }
      if i :| from <= i <= to && 3600 * i == t {
        BarIn(from, to, last, version, fetched, i);
      }
    }
  }

  /** The newest hour that is complete. */
  function Newest(to: int, last: Content): int { if last.isComplete then to else to - 1 }

  lemma {:induction false} CompleteTimes(from: int, to: int, last: Content, version: Option<int>, fetched: int)
    requires from <= to
    ensures TimesComplete(HourBars(from, to, last, version, fetched)) == Hours(from, Newest(to, last))
  {
    var bars := HourBars(from, to, last, version, fetched);
    forall t ensures t in TimesComplete(bars) <==> t in Hours(from, Newest(to, last)) {
      if b :| b in bars && b.content.isComplete && b.time == t {
        var i := HourOf(from, to, last, version, fetched, b);
        assert from <= i <= Newest(to, last);
        assert 3600 * i in Hours(from, Newest(to, last));
      }
      if i :| from <= i <= Newest(to, last) && 3600 * i == t {
        BarIn(from, to, last, version, fetched, i);
      }
    }
  }

  lemma {:induction false} HoursRange(from: int, to: int)
    requires from <= to
    ensures Hours(from, to) != {} && Min(Hours(from, to)) == 3600 * from && Max(Hours(from, to)) == 3600 * to
  {
    assert 3600 * from in Hours(from, to) && 3600 * to in Hours(from, to);
  }

  /** What a run reads off its bars. */
  lemma {:induction false} ItemOfBars(from: int, to: int, last: Content, version: Option<int>, fetched: int, run: int)
    requires from < to
    ensures var item := Acquired(from, to, last, version, fetched);
      && HasCompleteBar(item) && item.SeriesKey() == SERIES && |item.bars| >= 2
      && TimesSeen(item.bars) != {} && TimesComplete(item.bars) != {}
      && WatermarkOf(run, item) == Watermark(3600 * to, 3600 * Newest(to, last), version, run, Active)
  {
    hide HourBars;
    BarsAreSeries(from, to, last, version, fetched);
    TimesOfBars(from, to, last, version, fetched);
    CompleteTimes(from, to, last, version, fetched);
    HoursRange(from, to);
    HoursRange(from, Newest(to, last));
    VersionsOfBars(from, to, last, version, fetched);
  }

  lemma {:induction false} VersionsOfBars(from: int, to: int, last: Content, version: Option<int>, fetched: int)
    requires from <= to
    ensures var bars := HourBars(from, to, last, version, fetched);
      && FirstVersion(bars) == version && Revision.Versions(bars) == if version.Some? then {version.value} else {}
  {
    hide HourBars;
    BarsAreSeries(from, to, last, version, fetched);
    BarsAre(from, to, last, version, fetched);
    OneVersion(HourBars(from, to, last, version, fetched), version);
  }

  lemma {:induction false} OneVersion(bars: seq<Bar>, version: Option<int>)
    requires bars != [] && forall b :: b in bars ==> b.dataVersion == version
    ensures FirstVersion(bars) == version && Revision.Versions(bars) == if version.Some? then {version.value} else {}
  {
    assert bars[0] in bars;
    if version.None? && |bars| > 1 {
      assert forall b :: b in bars[1..] ==> b in bars;
      OneVersion(bars[1..], version);
    }
  }

  // ---- Staging them ----

  lemma {:induction false} LoneItem(item: Item)
    ensures StagedRows([item]) == RowsOf(item)
  {
    assert [item][..0] == [];
    assert StagedRows([item][..0]) == [];
  }

  lemma {:induction false} SeriesRowsAreDistinct(s: Series, page: seq<Bar>)
    requires Paging.IsSeries(page)
    ensures DistinctRows(StagedRows([BoundedItem(s, page)]))
  {
    hide Paging.IsSeries, StagedRows;
    LoneItem(BoundedItem(s, page));
    forall i, j | 0 <= i < j < |page| ensures page[i].time != page[j].time { Paging.ReachIsOrdered(page, i, j); }
  }

  function Staged(from: int, to: int, last: Content, version: Option<int>, fetched: int): map<Key, Bar>
    requires from <= to
  {
    Staging(StagedRows([Acquired(from, to, last, version, fetched)]))
  }

  lemma {:induction false} StagedIs(from: int, to: int, last: Content, version: Option<int>, fetched: int)
    requires from <= to
    ensures DistinctRows(StagedRows([Acquired(from, to, last, version, fetched)]))
    ensures var staged := Staged(from, to, last, version, fetched);
      && (forall k :: k in staged <==> k.inst == 1 && k.basis == NativeOhlc && k.time in Hours(from, to))
      && (forall k :: k in staged ==> staged[k].content == if k.time == 3600 * to then last else FLAT)
      && (forall k :: k in staged ==> staged[k].dataVersion == version)
  {
    hide Staging, StagedRows, DistinctRows, RowsOf, Revision.ByTime, HourBars, Paging.IsSeries;
    var bars := HourBars(from, to, last, version, fetched);
    BarsAreSeries(from, to, last, version, fetched);
    BarsAre(from, to, last, version, fetched);
    TimesOfBars(from, to, last, version, fetched);
    SeriesRowsAreDistinct(SERIES, bars);
    CommitLaws.DistinctTimes(SERIES, bars);
    CommitLaws.StagedPage(SERIES, bars);
    Revision.ByTimeOfSeries(bars);
    forall t | t in Revision.ByTime(bars)
      ensures Revision.ByTime(bars)[t].time == t && Revision.ByTime(bars)[t] in bars
    {
      var k := Revision.MemberOfSeries(bars, t);
    }
  }

  lemma {:induction false} PricesOfBars(from: int, to: int, last: Content, version: Option<int>, fetched: int)
    requires from <= to && last.ohlc.Valid()
    ensures PricesValid(Staged(from, to, last, version, fetched))
  {
    hide Staged;
    StagedIs(from, to, last, version, fetched);
  }

  // ---- Stores that hold them ----

  /** The curated rows of the series are the hours 0 to `top`, and nothing else is stored. */
  ghost predicate Stores(curated: Curated, top: int, last: Content) {
    && (forall k :: k in curated <==> k.inst == 1 && k.basis == NativeOhlc && k.time in Hours(0, top))
    && (forall k :: k in curated ==> curated[k].content == if k.time == 3600 * top then last else FLAT)
    && (forall k :: k in curated ==> (curated[k].quality == QualityPass <==> curated[k].content.isComplete))
  }

  lemma {:induction false} HourIn(from: int, to: int, t: int)
    ensures t in Hours(from, to) <==> 3600 * from <= t <= 3600 * to && t % 3600 == 0
  {
    if 3600 * from <= t <= 3600 * to && t % 3600 == 0 {
      assert t == 3600 * (t / 3600);
    }
  }

  /** Bars that overlap the stored hours and reach their end extend them. */
  lemma {:induction false} UpsertExtends(curated: Curated, top: int, before: Content, run: int, from: int, to: int,
      last: Content, version: Option<int>, fetched: int)
    requires (curated == map[] && from == 0) || (Stores(curated, top, before) && from <= top <= to)
    requires 0 <= from <= to
    ensures Stores(ApplyCommit(Upserted(run), curated, Staged(from, to, last, version, fetched)), to, last)
  {
    hide Staged, Hours;
    StagedIs(from, to, last, version, fetched);
    var after := ApplyCommit(Upserted(run), curated, Staged(from, to, last, version, fetched));
    forall k: Key
      ensures k in after <==> k.inst == 1 && k.basis == NativeOhlc && k.time in Hours(0, to)
      ensures k in after ==> after[k].content == if k.time == 3600 * to then last else FLAT
      ensures k in after ==> (after[k].quality == QualityPass <==> after[k].content.isComplete)
    {
      HourIn(from, to, k.time);
      HourIn(0, top, k.time);
      HourIn(0, to, k.time);
    }
  }

  lemma {:induction false} SortedHours(m: nat)
    ensures Sorted(Hours(0, m)) == seq(m + 1, i => 3600 * i)
  {
    var r := seq(m + 1, i => 3600 * i);
    forall t ensures t in r <==> t in Hours(0, m) {
      if i :| 0 <= i <= m && 3600 * i == t {
        assert r[i] == t;
      }
    }
    SortedIsUnique(r, Hours(0, m));
  }

  /** Of twenty complete hours or more the walk starts at the twentieth newest. */
  lemma {:induction false} OverlapOfStored(curated: Curated, top: int, last: Content)
    requires Stores(curated, top, last) && 19 <= Newest(top, last)
    ensures Acquisition.OverlapStart(curated, SERIES) == Some(3600 * (Newest(top, last) - 19))
  {
    hide Hours, Stores;
    var m := Newest(top, last);
    StoredPasses(curated, top, last);
    SortedHours(m);
  }

  lemma {:induction false} StoredPasses(curated: Curated, top: int, last: Content)
    requires Stores(curated, top, last)
    ensures Acquisition.PassedTimes(curated, SERIES) == Hours(0, Newest(top, last))
  {
    hide Hours;
    forall t ensures t in Acquisition.PassedTimes(curated, SERIES) <==> t in Hours(0, Newest(top, last)) {
      HourIn(0, top, t);
      HourIn(0, Newest(top, last), t);
      var k := Key(1, t, NativeOhlc);
      if t in Hours(0, Newest(top, last)) {
        assert k in curated;
      }
      assert t in Acquisition.PassedTimes(curated, SERIES) <==> k in curated && curated[k].content.isComplete;
    }
  }

  // ---- Acquiring them ----

  /** What the provider serves has every row complete, up to the newest hour. */
  function Served(to: int, last: Content, version: Option<int>, fetched: int): seq<Bar>
    requires 0 <= to
  {
    HourBars(0, to, last.(isComplete := true), version, fetched)
  }

  lemma {:induction false} ReachOfServed(from: int, to: int, last: Content, version: Option<int>, fetched: int)
    requires 0 <= from <= to && last.isComplete
    ensures Paging.OnlyLastOpen(Paging.After(Served(to, last, version, fetched), 3600 * from))
      == HourBars(from, to, Open(last), version, fetched)
  {
    hide Paging.OnlyLastOpen, Paging.After, HourBars, Paging.IsSeries;
    RestOfServed(from, to, last, version, fetched);
    LastLeftOpen(from, to, last, version, fetched);
  }

  lemma {:induction false} RestOfServed(from: int, to: int, last: Content, version: Option<int>, fetched: int)
    requires 0 <= from <= to && last.isComplete
    ensures Paging.After(Served(to, last, version, fetched), 3600 * from) == HourBars(from, to, last, version, fetched)
  {
    hide Paging.After, Paging.IsSeries, HourBars;
    var all := Served(to, last, version, fetched);
    var rest := Paging.After(all, 3600 * from);
    BarsAreSeries(0, to, last, version, fetched);
    Paging.AfterIsSuffix(all, 3600 * from);
    var k := |all| - |rest|;
    assert all[from].time == 3600 * from;
    assert k <= from;
    assert 3600 * k < 3600 * from || k == from;
    BarIn(0, to, last, version, fetched, k);
    SuffixOfBars(from, to, last, version, fetched);
  }

  lemma {:induction false} SuffixOfBars(from: int, to: int, last: Content, version: Option<int>, fetched: int)
    requires 0 <= from <= to && last.isComplete
    ensures |Served(to, last, version, fetched)| == to + 1
    ensures Served(to, last, version, fetched)[from..] == HourBars(from, to, last, version, fetched)
  {
  }

  lemma {:induction false} LastLeftOpen(from: int, to: int, last: Content, version: Option<int>, fetched: int)
    requires from <= to && last.isComplete
    ensures Paging.OnlyLastOpen(HourBars(from, to, last, version, fetched))
        == HourBars(from, to, Open(last), version, fetched)
  {
    hide HourBars;
    var served, r := HourBars(from, to, last, version, fetched), HourBars(from, to, Open(last), version, fetched);
    BarIn(from, to, last, version, fetched, from);
    BarIn(from, to, Open(last), version, fetched, from);
    forall k | 0 <= k < |r| ensures Paging.OnlyLastOpen(served)[k] == r[k] {
      BarIn(from, to, last, version, fetched, from + k);
      BarIn(from, to, Open(last), version, fetched, from + k);
    }
  }

  /** Where no session ends with the newest hour, the run acquires it open. */
  lemma {:induction false} AcquiredOpen(curated: Curated, catalog: Catalog, from: int, to: int, last: Content,
      version: Option<int>,
      fetched: int)
    requires 0 <= from <= to && last.isComplete && Acquisition.OverlapStart(curated, SERIES) == Some(3600 * from)
    requires forall iv :: Acquisition.SessionAt(catalog, 1, 3600 * to, iv) ==>
      iv.closing > 3600 * to + 3600 || fetched < iv.closing + 60 * DELAY
    ensures Acquisition.Acquires(curated, catalog, Acquired(from, to, Open(last), version, fetched),
        Served(to, last, version, fetched))
  {
    hide Acquisition.SessionAt, Paging.IsSeries, Paging.OnlyLastOpen, Paging.After;
    BarsAreSeries(0, to, last, version, fetched);
    BarsAre(0, to, last, version, fetched);
    ReachOfServed(from, to, last, version, fetched);
    var bars := HourBars(from, to, Open(last), version, fetched);
    BarsAreSeries(from, to, Open(last), version, fetched);
    var n := |bars| - 1;
    BarIn(from, to, Open(last), version, fetched, to);
    if iv :| Acquisition.SessionAt(catalog, 1, 3600 * to, iv) {
      assert iv.Trading? by { SessionsTrade(catalog, 3600 * to, iv); }
      NotTheLastSlot(bars[n], catalog, iv);
      assert Normalize.Finished(bars, n, iv.opening, iv.closing) == bars;
    }
    assert Acquisition.FinishedAt(catalog, 1, 3600 * to, bars, bars);
  }

  lemma {:induction false} NotTheLastSlot(b: Bar, catalog: Catalog, iv: Interval)
    requires Acquisition.SessionAt(catalog, 1, b.time, iv)
    requires iv.closing > b.time + 3600 || b.delayedByMinutes.None?
      || b.retrievedAt < iv.closing + 60 * b.delayedByMinutes.value
    ensures !Normalize.ProvenTerminal(b, iv.opening, iv.closing)
  {
    if Normalize.ProvenTerminal(b, iv.opening, iv.closing) {
      Normalize.FinishedBarIsTheLastSlot(b, iv.opening, iv.closing);
    }
  }

  /** A session that ends with the newest hour finishes it, once the provider's delay is over. */
  lemma {:induction false} AcquiredFinished(curated: Curated, catalog: Catalog, iv: Interval, from: int, to: int,
      last: Content, version: Option<int>, fetched: int)
    requires 0 <= from <= to && last.isComplete && Acquisition.OverlapStart(curated, SERIES) == Some(3600 * from)
    requires Acquisition.SessionAt(catalog, 1, 3600 * to, iv) && iv.opening % 3600 == 0
    requires iv.closing == 3600 * to + 3600 && iv.closing + 60 * DELAY <= fetched
    ensures Acquisition.Acquires(curated, catalog, Acquired(from, to, last, version, fetched),
        Served(to, last, version, fetched))
  {
    hide Acquisition.SessionAt, Paging.IsSeries, Paging.OnlyLastOpen, Paging.After;
    BarsAreSeries(0, to, last, version, fetched);
    BarsAre(0, to, last, version, fetched);
    ReachOfServed(from, to, last, version, fetched);
    var bars, r := HourBars(from, to, Open(last), version, fetched), HourBars(from, to, last, version, fetched);
    BarsAreSeries(from, to, Open(last), version, fetched);
    var n := |bars| - 1;
    BarIn(from, to, Open(last), version, fetched, to);
    BarIn(from, to, last, version, fetched, to);
    assert iv.Trading? && iv.opening <= 3600 * to by { SessionsTrade(catalog, 3600 * to, iv); }
    assert Normalize.ProvenTerminal(bars[n], iv.opening, iv.closing) by {
      LastSlotStarts(iv.opening, iv.closing);
    }
    CompletedLast(from, to, last, version, fetched);
    assert Acquisition.FinishedAt(catalog, 1, 3600 * to, bars, r);
  }

  lemma {:induction false} CompletedLast(from: int, to: int, last: Content, version: Option<int>, fetched: int)
    requires from <= to && last.isComplete
    ensures var bars := HourBars(from, to, Open(last), version, fetched);
      |bars| == to - from + 1
      && bars[to - from := Normalize.WithComplete(bars[to - from], true)] == HourBars(from, to, last, version, fetched)
  {
    hide HourBars;
    var bars, r := HourBars(from, to, Open(last), version, fetched), HourBars(from, to, last, version, fetched);
    BarIn(from, to, Open(last), version, fetched, to);
    BarIn(from, to, last, version, fetched, to);
    forall k | 0 <= k < |r| ensures bars[to - from := Normalize.WithComplete(bars[to - from], true)][k] == r[k] {
      BarIn(from, to, Open(last), version, fetched, from + k);
      BarIn(from, to, last, version, fetched, from + k);
    }
  }

  lemma {:induction false} LastSlotStarts(opening: int, closing: int)
    requires opening % 3600 == 0 && closing % 3600 == 0 && opening < closing
    ensures opening + 3600 * ((closing - opening - 1) / 3600) == closing - 3600
  {
  }

  lemma {:induction false} SessionsTrade(catalog: Catalog, t: int, iv: Interval)
    requires Acquisition.SessionAt(catalog, 1, t, iv)
    ensures iv.Trading? && iv.opening <= t
  {
  }
}
