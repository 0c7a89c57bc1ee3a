/** What a watermark says about the stored rows, and which transactions move it. */
module WatermarkLaws {
  import opened Sets
  import opened Types
  import opened Derive
  import opened Store
  import CommitLaws
  import Normalize
  import Revision
  import StoreLaws

  /** The watermark names the run, and the newest row and the newest complete row that run wrote for the series. */
  ghost predicate PointsAtRows(w: Watermark, s: Series, curated: Curated, run: int, bars: seq<Bar>) {
    var seen, complete := Key(s.inst, w.latestSeen, s.basis), Key(s.inst, w.latestComplete, s.basis);
    && w.status == Active && w.lastRun == run && w.latestComplete <= w.latestSeen
    && seen in curated && curated[seen].run == run
    && complete in curated && curated[complete].run == run && curated[complete].quality == QualityPass
    && (forall b :: b in bars ==> b.time <= w.latestSeen && (b.content.isComplete ==> b.time <= w.latestComplete))
  }

  /** The bars of every item carry the item's price basis, and a run acquires a series once. */
  ghost predicate WellFormed(items: seq<Item>) {
    && (forall item, b :: item in items && b in item.bars ==> b.basis == item.basis)
    && (forall i, j :: 0 <= i < j < |items| ==> items[i].SeriesKey() != items[j].SeriesKey())
  }

  lemma {:induction false} PrefixIsWellFormed(items: seq<Item>, n: nat)
    requires WellFormed(items) && n <= |items|
    ensures WellFormed(items[..n])
  {
    assert forall item :: item in items[..n] ==> item in items;
  }

  lemma {:induction false} AdvancedAt(watermarks: map<Series, Watermark>, run: int, items: seq<Item>, i: nat)
    requires WellFormed(items) && i < |items| && forall item :: item in items ==> HasCompleteBar(item)
    ensures items[i].SeriesKey() in Advanced(watermarks, run, items)
    ensures Advanced(watermarks, run, items)[items[i].SeriesKey()] == WatermarkOf(run, items[i])
  {
    hide HasCompleteBar, WatermarkOf;
    var n := |items| - 1;
    if i < n {
      assert items[..n][i] == items[i];
      assert forall item :: item in items[..n] ==> item in items;
      PrefixIsWellFormed(items, n);
      AdvancedAt(watermarks, run, items[..n], i);
      assert items[i].SeriesKey() != items[n].SeriesKey();
    }
  }

  lemma {:induction false} StagedHas(rows: seq<StagedRow>, i: nat)
    requires DistinctRows(rows) && i < |rows|
    ensures rows[i].key in Staging(rows) && Staging(rows)[rows[i].key] == rows[i].bar
  {
    var n := |rows| - 1;
    if i < n {
      assert rows[..n][i] == rows[i];
      assert DistinctRows(rows[..n]);
      StagedHas(rows[..n], i);
      assert rows[i].key != rows[n].key;
    }
  }

  lemma {:induction false} RowIsListed(items: seq<Item>, i: nat, j: nat)
    requires i < |items| && j < |items[i].bars|
    ensures RowsOf(items[i])[j] in StagedRows(items)
  {
    var n := |items| - 1;
    if i < n {
      assert items[..n][i] == items[i];
      RowIsListed(items[..n], i, j);
    } else {
      assert RowsOf(items[n])[j] in RowsOf(items[n]);
    }
  }

  /** Every bar a run acquired is a curated row after its commit, under the run's id. */
  lemma {:induction false} BarIsStored(curated: Curated, run: int, mode: Mode, items: seq<Item>, i: nat, b: Bar)
    requires DistinctRows(StagedRows(items)) && i < |items| && b in items[i].bars
    ensures var k, after :=
        Key(items[i].inst, b.time, b.basis), ApplyCommit(CommitOf(run, mode), curated, Staging(StagedRows(items)));
      k in after && after[k] == CuratedRow(run, b)
  {
    var j :| 0 <= j < |items[i].bars| && items[i].bars[j] == b;
    RowIsListed(items, i, j);
    var row := RowsOf(items[i])[j];
    var rows := StagedRows(items);
    var m :| 0 <= m < |rows| && rows[m] == row;
    StagedHas(rows, m);
    StagedWins(curated, run, mode, Staging(rows), row.key);
  }

  lemma {:induction false} StagedWins(curated: Curated, run: int, mode: Mode, staged: map<Key, Bar>, k: Key)
    requires k in staged
    ensures var after := ApplyCommit(CommitOf(run, mode), curated, staged);
      k in after && after[k] == CuratedRow(run, staged[k])
  {
  }

  /** After an incremental, full-refetch or onboarding commit the watermark of every acquired series is true. */
  lemma {:induction false} CommittedWatermarksAreTrue(db: Db, catalog: Catalog, run: int, items: seq<Item>,
      mode: Mode, i: nat)
    requires Committable(db, catalog, run, items, mode) && WellFormed(items) && i < |items|
    ensures var after, s := Committed(db, catalog, run, items, mode), items[i].SeriesKey();
      s in after.watermarks && PointsAtRows(after.watermarks[s], s, after.market.curated, run, items[i].bars)
  {
    hide Accepts, ApplyCommit, Rebuilt, Staging, StagedRows, DistinctRows, RefetchGuard, Advanced, PointsAtRows;
    AdvancedAt(db.watermarks, run, items, i);
    assert items[i] in items;
    TruthOfItem(db.market.curated, run, mode, items, i);
  }

  lemma {:induction false} TruthOfItem(curated: Curated, run: int, mode: Mode, items: seq<Item>, i: nat)
    requires DistinctRows(StagedRows(items)) && WellFormed(items) && i < |items| && HasCompleteBar(items[i])
    ensures PointsAtRows(WatermarkOf(run, items[i]), items[i].SeriesKey(),
      ApplyCommit(CommitOf(run, mode), curated, Staging(StagedRows(items))), run, items[i].bars)
  {
    hide ApplyCommit, Staging, StagedRows, DistinctRows;
    var bars := items[i].bars;
    assert items[i] in items;
    var seen :| seen in bars && seen.time == Max(TimesSeen(bars));
    var complete :| complete in bars && complete.content.isComplete && complete.time == Max(TimesComplete(bars));
    BarIsStored(curated, run, mode, items, i, seen);
    BarIsStored(curated, run, mode, items, i, complete);
    forall b | b in bars
      ensures b.time <= Max(TimesSeen(bars)) && (b.content.isComplete ==> b.time <= Max(TimesComplete(bars)))
    {
      assert b.time in TimesSeen(bars);
      assert b.content.isComplete ==> b.time in TimesComplete(bars);
    }
    assert complete.time in TimesSeen(bars);
  }

  /**
   Exactly when a known data version survives: an incremental run that commits keeps the version of a series if
   and only if some bar it acquired for the series carries one. Otherwise it forgets the version.
   */
  lemma {:induction false} VersionIsKeptExactlyWhenCarried(db: Db, catalog: Catalog, run: int, items: seq<Item>,
      now: int, i: nat)
    requires db.IsRunning(run) && WellFormed(items) && i < |items|
    requires GateOf(db.watermarks, items, now) == Proceed && Committable(db, catalog, run, items, Incrementally)
    requires items[i].SeriesKey() in db.watermarks && db.watermarks[items[i].SeriesKey()].version.Some?
    ensures var s := items[i].SeriesKey();
      var watermarks := RunIncremental(db, catalog, run, items, now).watermarks;
      s in watermarks
      && var after := watermarks[s].version;
      && (after == db.watermarks[s].version <==> Revision.Versions(items[i].bars) != {})
      && (after == None <==> Revision.Versions(items[i].bars) == {})
  {
    hide GateOf, Committable, RunIncremental, Revision.Versions, FirstVersion, HasCompleteBar;
    assert items[i] in items;
    WatermarkAfterRun(db, catalog, run, items, now, i);
    CarriedOrNot(db.watermarks, items, now, items[i]);
  }

  lemma {:induction false} WatermarkAfterRun(db: Db, catalog: Catalog, run: int, items: seq<Item>, now: int, i: nat)
    requires db.IsRunning(run) && WellFormed(items) && i < |items|
    requires GateOf(db.watermarks, items, now) == Proceed && Committable(db, catalog, run, items, Incrementally)
    ensures HasCompleteBar(items[i]) && items[i].SeriesKey() in RunIncremental(db, catalog, run, items, now).watermarks
    ensures RunIncremental(db, catalog, run, items, now).watermarks[items[i].SeriesKey()] == WatermarkOf(run, items[i])
  {
    hide Written, Accepts, DistinctRows, StagedRows, HasCompleteBar, WatermarkOf, Advanced, GateFrom;
    assert items[i] in items;
    AdvancedAt(db.watermarks, run, items, i);
  }

  lemma {:induction false} CarriedOrNot(watermarks: map<Series, Watermark>, items: seq<Item>, now: int, item: Item)
    requires GateOf(watermarks, items, now) == Proceed && item in items
    requires item.SeriesKey() in watermarks && watermarks[item.SeriesKey()].version.Some?
    ensures FirstVersion(item.bars) == watermarks[item.SeriesKey()].version <==> Revision.Versions(item.bars) != {}
    ensures FirstVersion(item.bars) == None <==> Revision.Versions(item.bars) == {}
  {
    hide Revision.Versions, FirstVersion, GateFrom, GateItem;
    CommitLaws.GatePassed(watermarks, items, now, item);
    CommitLaws.GatedVersion(watermarks, item, now);
    CommitLaws.FirstVersionIsCarried(item.bars);
  }

  lemma {:induction false} NewestReaches(bars: seq<Bar>, t: int)
    ensures TimesSeen(bars) != {} ==>
      (t <= Max(TimesSeen(bars)) <==> exists b :: b in bars && t <= b.time)
    ensures TimesComplete(bars) != {} ==>
      (t <= Max(TimesComplete(bars)) <==> exists b :: b in bars && b.content.isComplete && t <= b.time)
  {
    forall b | b in bars ensures b.time in TimesSeen(bars) && (b.content.isComplete ==> b.time in TimesComplete(bars)) {
    }
    if TimesSeen(bars) != {} {
      var b :| b in bars && b.time == Max(TimesSeen(bars));
    }
    if TimesComplete(bars) != {} {
      var b :| b in bars && b.content.isComplete && b.time == Max(TimesComplete(bars));
    }
  }

  /**
   Exactly when a watermark moves back: an incremental run that commits keeps it where it was, or ahead, if and only
   if the run acquired a bar (for the complete watermark: a complete bar) that is no older.
   */
  lemma {:induction false} WatermarkMovesBackExactly(db: Db, catalog: Catalog, run: int, items: seq<Item>,
      now: int, i: nat)
    requires db.IsRunning(run) && WellFormed(items) && i < |items|
    requires GateOf(db.watermarks, items, now) == Proceed && Committable(db, catalog, run, items, Incrementally)
    requires items[i].SeriesKey() in db.watermarks
    ensures var s, bars, watermarks :=
        items[i].SeriesKey(), items[i].bars, RunIncremental(db, catalog, run, items, now).watermarks;
      s in watermarks
      && var before, after := db.watermarks[s], watermarks[s];
         && (before.latestSeen <= after.latestSeen <==> exists b :: b in bars && before.latestSeen <= b.time)
         && (before.latestComplete <= after.latestComplete <==>
               exists b :: b in bars && b.content.isComplete && before.latestComplete <= b.time)
  {
    hide GateOf, Committable, RunIncremental;
    var s, bars := items[i].SeriesKey(), items[i].bars;
    WatermarkAfterRun(db, catalog, run, items, now, i);
    NewestReaches(bars, db.watermarks[s].latestSeen);
    NewestReaches(bars, db.watermarks[s].latestComplete);
  }

  /** A bounded revision never moves a watermark back, and moves it no further than the provider's own rows. */
  lemma {:induction false} BoundedWatermarkMovesForward(w: Watermark, run: int, page: seq<Bar>, version: int)
    requires page != []
    ensures var after := RevisedWatermark(w, run, page, version);
      && w.latestSeen <= after.latestSeen && w.latestComplete <= after.latestComplete
      && (forall b :: b in page ==>
          b.time <= after.latestSeen && (b.content.isComplete ==> b.time <= after.latestComplete))
      && (after.latestSeen == w.latestSeen || exists b :: b in page && b.time == after.latestSeen)
      && (after.latestComplete == w.latestComplete
          || exists b :: b in page && b.content.isComplete && b.time == after.latestComplete)
      && after.version == Some(version) && after.lastRun == run && after.status == Active
  {
    assert page[0] in page && page[0].time in TimesSeen(page);
    forall b | b in page
      ensures b.time in TimesSeen(page) && (b.content.isComplete ==> b.time in TimesComplete(page))
    {
    }
  }

  /** A version failure of a single instrument makes exactly its series stale, and changes nothing else of them. */
  lemma {:induction false} VersionFailureMarksItsInstrument(db: Db, run: int, code: string, failed: set<int>,
      detection: Option<Detection>, inst: int)
    requires db.IsRunning(run) && code in STALE_CODES && detection.None?
    requires exists s :: FailedScope(db.runs[run].scope, failed) == {s} && s.inst == inst
    ensures var after := RecordFailure(db, run, code, failed, detection);
      && after.watermarks.Keys == db.watermarks.Keys
      && (forall s :: s in db.watermarks ==>
          (IsStale(after.watermarks, s) <==> s.inst == inst || IsStale(db.watermarks, s)))
      && (forall s :: s in db.watermarks ==>
          after.watermarks[s].(status := db.watermarks[s].status) == db.watermarks[s])
  {
    var s :| FailedScope(db.runs[run].scope, failed) == {s} && s.inst == inst;
    hide FailedScope, OpenEvents;
    assert TheSeries({s}) == s;
    MarkedStale(db.watermarks, inst);
  }

  lemma {:induction false} MarkedStale(watermarks: map<Series, Watermark>, inst: int)
    ensures var after := MarkStale(watermarks, inst);
      && after.Keys == watermarks.Keys
      && (forall s :: s in watermarks ==> (IsStale(after, s) <==> s.inst == inst || IsStale(watermarks, s)))
      && (forall s :: s in watermarks ==> after[s].(status := watermarks[s].status) == watermarks[s])
  {
  }

  /** What an incremental run commits was fit to commit: enough rows, one version, nothing complete in the future. */
  lemma {:induction false} CommittedRowsAreFit(db: Db, catalog: Catalog, run: int, items: seq<Item>, now: int,
      item: Item)
    requires db.IsRunning(run) && item in items
    requires RunIncremental(db, catalog, run, items, now).market != db.market
    ensures |item.bars| >= 2 && TimesComplete(item.bars) != {} && |Revision.Versions(item.bars)| <= 1
    ensures forall b :: b in item.bars && b.content.isComplete ==> b.time <= now
    ensures item.SeriesKey() in db.watermarks && db.watermarks[item.SeriesKey()].status == Active
  {
    hide CommitAcquired, RecordWarning, GateFrom, Revision.Versions;
    var gate := GateOf(db.watermarks, items, now);
    if gate.Warn? {
      StoreLaws.WarningIsQuiet(db, run, gate);
    }
    CommitLaws.GatePassed(db.watermarks, items, now, item);
  }

  // ---- What watermarks say over whole runs ----

  /** The rows a watermark names are stored, the complete one is complete, and it is not the later of the two. */
  ghost predicate NamesRows(curated: Curated, s: Series, w: Watermark) {
    var seen, complete := Key(s.inst, w.latestSeen, s.basis), Key(s.inst, w.latestComplete, s.basis);
    && w.latestComplete <= w.latestSeen && seen in curated
    && complete in curated && curated[complete].content.isComplete
  }

  /** Every instrument has one price basis, and every watermark names stored rows of it. */
  ghost predicate WatermarksHold(db: Db, basisOf: int -> Basis) {
    forall s :: s in db.watermarks ==>
      s.basis == basisOf(s.inst) && NamesRows(db.market.curated, s, db.watermarks[s])
  }

  ghost predicate OfBasis(item: Item, basisOf: int -> Basis) {
    item.basis == basisOf(item.inst) && forall b :: b in item.bars ==> b.basis == item.basis
  }

  /**
   What the runs acquire: bars of the basis of their instrument, every series once a run. The pages of a bounded
   revision are used as they were normalised, with every row marked complete.
   */
  ghost predicate Conforms(txn: Txn, basisOf: int -> Basis) {
    match txn
    case Incremental(_, items, _) => WellFormed(items) && forall item :: item in items ==> OfBasis(item, basisOf)
    case FullRefetch(_, item, _) => OfBasis(item, basisOf)
    case Onboard(_, item) => OfBasis(item, basisOf)
    case Bounded(_, s, chart, _) => s.basis == basisOf(s.inst)
      && forall count, b :: count in Revision.WINDOW_COUNTS && b in chart(count) ==>
          b.basis == s.basis && b.content.isComplete
    case _ => true
  }

  lemma {:induction false} OneItemIsWellFormed(item: Item, basisOf: int -> Basis)
    requires OfBasis(item, basisOf)
    ensures WellFormed([item]) && forall i :: i in [item] ==> OfBasis(i, basisOf)
  {
  }

  lemma {:induction false} NamesSameRows(before: Curated, after: Curated, scope: Scope, s: Series, w: Watermark)
    requires NamesRows(before, s, w) && Outside(scope, after) == Outside(scope, before) && !scope.Has(s.inst)
    ensures NamesRows(after, s, w)
  {
    var seen, complete := Key(s.inst, w.latestSeen, s.basis), Key(s.inst, w.latestComplete, s.basis);
    assert seen in Outside(scope, before) && complete in Outside(scope, before);
    assert seen in Outside(scope, after) && complete in Outside(scope, after);
  }

  /** A series without an item of the run has no instrument of the run. */
  lemma {:induction false} OutOfScope(items: seq<Item>, basisOf: int -> Basis, s: Series)
    requires (forall item :: item in items ==> OfBasis(item, basisOf)) && s.basis == basisOf(s.inst)
    requires forall item :: item in items ==> item.SeriesKey() != s
    ensures !InstrumentsOf(items).Has(s.inst)
  {
  }

  lemma {:induction false} NotAdvanced(watermarks: map<Series, Watermark>, run: int, items: seq<Item>, s: Series)
    requires forall item :: item in items ==> HasCompleteBar(item)
    requires forall item :: item in items ==> item.SeriesKey() != s
    ensures s in Advanced(watermarks, run, items) <==> s in watermarks
    ensures s in watermarks ==> Advanced(watermarks, run, items)[s] == watermarks[s]
  {
    if items != [] {
      hide HasCompleteBar, WatermarkOf;
      var n := |items| - 1;
      assert items[n] in items;
      assert forall item :: item in items[..n] ==> item in items;
      NotAdvanced(watermarks, run, items[..n], s);
    }
  }

  lemma {:induction false} TrueIsNamed(w: Watermark, s: Series, curated: Curated, run: int, bars: seq<Bar>)
    requires PointsAtRows(w, s, curated, run, bars)
    requires forall k :: k in curated && curated[k].quality == QualityPass ==> curated[k].content.isComplete
    ensures NamesRows(curated, s, w)
  {
  }

  /** Rows of the curated table pass exactly when they are complete. */
  ghost predicate PassesAreComplete(curated: Curated) {
    forall k :: k in curated && curated[k].quality == QualityPass ==> curated[k].content.isComplete
  }

  lemma {:induction false} BackedPassesAreComplete(curated: Curated, raw: Raw)
    requires StoreLaws.Backed(curated, raw)
    ensures PassesAreComplete(curated)
  {
  }

  lemma {:induction false} CommitKeepsWatermarks(db: Db, catalog: Catalog, run: int, items: seq<Item>, mode: Mode,
      basisOf: int -> Basis)
    requires WatermarksHold(db, basisOf) && Committable(db, catalog, run, items, mode)
    requires WellFormed(items) && forall item :: item in items ==> OfBasis(item, basisOf)
    requires mode.Refetching? ==> InstrumentsOf(items).Has(mode.inst)
    requires PassesAreComplete(Committed(db, catalog, run, items, mode).market.curated)
    ensures WatermarksHold(Committed(db, catalog, run, items, mode), basisOf)
  {
    hide Accepts, ApplyCommit, Rebuilt, Staging, StagedRows, DistinctRows, RefetchGuard, Advanced, PointsAtRows,
      WellFormed, NamesRows, Outside, PassesAreComplete, HasCompleteBar;
    var after := Committed(db, catalog, run, items, mode);
    var w := StoreLaws.CommitWrites(db, catalog, run, items, mode);
    StoreLaws.WriteIsConfined(db.market.curated, w);
    forall s | s in after.watermarks
      ensures s.basis == basisOf(s.inst) && NamesRows(after.market.curated, s, after.watermarks[s])
    {
      if i :| 0 <= i < |items| && items[i].SeriesKey() == s {
        assert items[i] in items;
        CommittedWatermarksAreTrue(db, catalog, run, items, mode, i);
        NamedWhereTrue(after, s, run, items[i].bars);
      } else {
        NotAdvanced(db.watermarks, run, items, s);
        OutOfScope(items, basisOf, s);
        NamesSameRows(db.market.curated, after.market.curated, InstrumentsOf(items), s, db.watermarks[s]);
      }
    }
  }

  lemma {:induction false} NamedWhereTrue(db: Db, s: Series, run: int, bars: seq<Bar>)
    requires s in db.watermarks && PointsAtRows(db.watermarks[s], s, db.market.curated, run, bars)
    requires PassesAreComplete(db.market.curated)
    ensures NamesRows(db.market.curated, s, db.watermarks[s])
  {
    TrueIsNamed(db.watermarks[s], s, db.market.curated, run, bars);
  }

  // ---- Bounded revisions and watermarks ----

  lemma {:induction false} AffectedEndsInWindow(p: map<int, Bar>, stored: Revision.Stored, window: Revision.Range)
    requires p.Keys != {} && window == Revision.WindowOf(p.Keys)
    ensures var span := Revision.Span(Revision.Affected(p, stored, window));
      span.Some? ==> span.value.last <= window.last
  {
  }

  /** After the patch the last provider row is stored as the provider has it. */
  lemma {:induction false} LastRowIsStored(curated: Curated, run: int, s: Series, page: seq<Bar>,
      c: Revision.Comparison, oldVersion: int, count: int)
    requires page != [] && DistinctRows(StagedRows([BoundedItem(s, page)]))
    requires forall b :: b in page ==> b.basis == s.basis && b.content.isComplete
    requires Revision.CompareStep(page, View(curated, s), oldVersion, count) == Ok(c) && c.affected.Some?
    ensures var after := ApplyCommit(Patched(run, s.inst, c.affected.value), curated,
        Staging(StagedRows([BoundedItem(s, page)])));
      var k := Key(s.inst, Max(TimesSeen(page)), s.basis);
      && TimesSeen(page) != {} && c.affected.value.last <= Max(TimesSeen(page))
      && k in after && after[k].content.isComplete
  {
    hide Staging, StagedRows, DistinctRows, View, ApplyCommit, Revision.Compare, Revision.ByTime, Revision.Affected;
    var stored := Revision.StoredWindow(View(curated, s), page[0].time, page[|page| - 1].time);
    assert page[0] in page && page[0].time in TimesSeen(page);
    assert TimesSeen(page) == Revision.TimesOf(page);
    var p, t := Revision.ByTime(page), Max(TimesSeen(page));
    Revision.ReportedRange(page, stored, oldVersion, count, Revision.MAXIMUM_COUNT, Revision.STABLE_ANCHOR_ROWS);
    AffectedEndsInWindow(p, stored, c.compared);
    CommitLaws.DistinctTimes(s, page);
    CommitLaws.StagedPage(s, page);
    PageRowAt(page, t);
    StoredOrPatched(curated, run, s, c.affected.value, Staging(StagedRows([BoundedItem(s, page)])), p, stored,
        c.compared, t);
  }

  lemma {:induction false} PageRowAt(page: seq<Bar>, t: int)
    requires t in TimesSeen(page) && forall b :: b in page ==> b.content.isComplete
    ensures t in Revision.ByTime(page) && Revision.ByTime(page)[t].content.isComplete
  {
    if page != [] {
      var n := |page| - 1;
      assert page == page[..n] + [page[n]];
      if page[n].time != t || t in TimesSeen(page[..n]) {
        assert forall b :: b in page[..n] ==> b in page;
        PageRowAt(page[..n], t);
      }
      Normalize.AddPageKeyed(map[], page);
    }
  }

  lemma {:induction false} StoredOrPatched(curated: Curated, run: int, s: Series, range: Revision.Range,
      staged: map<Key, Bar>, p: map<int, Bar>, stored: Revision.Stored, window: Revision.Range, t: int)
    requires t in p && p[t].content.isComplete
    requires forall t :: t in stored ==> t in View(curated, s) && stored[t] == View(curated, s)[t]
    requires forall u :: u in Revision.Affected(p, stored, window) ==> range.Has(u)
    requires forall k :: k in staged <==> k.inst == s.inst && k.basis == s.basis && k.time in p
    requires forall k :: k in staged ==> staged[k] == p[k.time]
    ensures var k := Key(s.inst, t, s.basis);
      var after := ApplyCommit(Patched(run, s.inst, range), curated, staged);
      k in after && after[k].content.isComplete
  {
    hide View, Revision.Affected;
    CommitLaws.ViewHas(curated, s, t);
    if !range.Has(t) {
      Revision.UnaffectedRowsMatch(p, stored, window, t);
    }
  }

  /** GREATEST keeps to stored rows: the page's last row is stored, and later rows were not touched. */
  lemma {:induction false} RevisedNames(before: Curated, after: Curated, s: Series, w: Watermark, run: int,
      page: seq<Bar>, version: int, range: Revision.Range)
    requires NamesRows(before, s, w) && page != [] && forall b :: b in page ==> b.content.isComplete
    requires TimesSeen(page) != {} && range.last <= Max(TimesSeen(page))
    requires var k := Key(s.inst, Max(TimesSeen(page)), s.basis); k in after && after[k].content.isComplete
    requires forall k: Key :: !(k.inst == s.inst && range.Has(k.time)) ==>
      (k in after <==> k in before) && (k in after ==> after[k] == before[k])
    ensures NamesRows(after, s, RevisedWatermark(w, run, page, version))
  {
    assert TimesComplete(page) == TimesSeen(page);
    var seen, complete := Key(s.inst, w.latestSeen, s.basis), Key(s.inst, w.latestComplete, s.basis);
    assert seen in before && complete in before;
  }

  /** A bounded run that leaves the market tables alone leaves the watermarks alone. */
  lemma {:induction false} UnappliedIsQuiet(db: Db, catalog: Catalog, run: int, s: Series, chart: int -> seq<Bar>,
      approved: Option<int>)
    requires db.IsRunning(run)
    ensures var after := RunBounded(db, catalog, run, s, chart, approved);
      after.market == db.market ==> after.watermarks == db.watermarks
  {
    hide RevisionState, View, Decisions, Found, BoundedCommittable, PlaceEvent, RevisedWatermark, MarkApplied,
      Rebuilt, ApplyCommit, Staging, StagedRows;
  }

  lemma {:induction false} BoundedKeepsWatermarks(db: Db, catalog: Catalog, run: int, s: Series,
      chart: int -> seq<Bar>, approved: Option<int>, basisOf: int -> Basis)
    requires WatermarksHold(db, basisOf) && db.IsRunning(run) && Conforms(Bounded(run, s, chart, approved), basisOf)
    ensures WatermarksHold(RunBounded(db, catalog, run, s, chart, approved), basisOf)
  {
    hide RunBounded, Found, View, RevisionState, BoundedCommittable, BoundedApplied, NamesRows, Conforms,
      Revision.CompareStep;
    UnappliedIsQuiet(db, catalog, run, s, chart, approved);
    if RunBounded(db, catalog, run, s, chart, approved).market != db.market {
      hide WatermarksHold;
      CommitLaws.ChangedMeansApplied(db, catalog, run, s, chart, approved);
      var known := RevisionState(db, s, approved).value;
      CommitLaws.LastComparison(db, s, chart, known);
      var steps := CommitLaws.StepsOf(db, s, chart, approved);
      var page := Revision.LastPage(chart, steps);
      ConformingPage(run, s, chart, approved, basisOf, |steps| - 1);
      AppliedKeepsWatermarks(db, catalog, run, s, page, known, Revision.WINDOW_COUNTS[|steps| - 1],
        steps[|steps| - 1], Decisions(steps), approved, basisOf);
    }
  }

  lemma {:induction false} ConformingPage(run: int, s: Series, chart: int -> seq<Bar>, approved: Option<int>,
      basisOf: int -> Basis, i: int)
    requires Conforms(Bounded(run, s, chart, approved), basisOf) && 0 <= i < |Revision.WINDOW_COUNTS|
    ensures s.basis == basisOf(s.inst)
    ensures forall b :: b in chart(Revision.WINDOW_COUNTS[i]) ==> b.basis == s.basis && b.content.isComplete
  {
    assert Revision.WINDOW_COUNTS[i] in Revision.WINDOW_COUNTS;
  }

  lemma {:induction false} AppliedKeepsWatermarks(db: Db, catalog: Catalog, run: int, s: Series, page: seq<Bar>,
      oldVersion: int, count: int, c: Revision.Comparison, steps: seq<StepDecision>, approved: Option<int>,
      basisOf: int -> Basis)
    requires WatermarksHold(db, basisOf) && s.basis == basisOf(s.inst)
    requires page != [] && forall b :: b in page ==> b.basis == s.basis && b.content.isComplete
    requires Revision.CompareStep(page, View(db.market.curated, s), oldVersion, count) == Ok(c)
    requires BoundedCommittable(db, catalog, run, s, page, c, steps, approved)
    ensures WatermarksHold(BoundedApplied(db, catalog, run, s, page, c, steps, approved), basisOf)
  {
    hide Accepts, PlaceEvent, MarkApplied, Rebuilt, ApplyCommit, Staging, StagedRows, DistinctRows, View,
      Revision.CompareStep, RevisedWatermark, NamesRows, Outside, BoundedGuard;
    CommitLaws.AppliedHasARange(db, catalog, run, s, page, c, steps, approved);
    LastRowIsStored(db.market.curated, run, s, page, c, oldVersion, count);
    CommitLaws.PatchTouchesItsRange(db.market.curated, run, s, page, c.affected.value);
    var after := BoundedApplied(db, catalog, run, s, page, c, steps, approved);
    var w := StoreLaws.BoundedWrites(db, catalog, run, s, page, c, steps, approved);
    StoreLaws.WriteIsConfined(db.market.curated, w);
    forall r | r in after.watermarks
      ensures r.basis == basisOf(r.inst) && NamesRows(after.market.curated, r, after.watermarks[r])
    {
      if r == s {
        RevisedNames(db.market.curated, after.market.curated, s, db.watermarks[s], run, page, c.newVersion,
            c.affected.value);
      } else {
        NamesSameRows(db.market.curated, after.market.curated, Only({s.inst}), r, db.watermarks[r]);
      }
    }
  }

  /** The hour that starts at `t` is over by `now`. */
  predicate HourIsOver(t: int, now: int) { t + 3600 <= now }

  /** The complete watermark is the later of the old one and the newest row of the page compared last. */
  ghost predicate CompletesLastRow(db: Db, s: Series, chart: int -> seq<Bar>, approved: Option<int>, after: Db) {
    CommitLaws.EndsReady(db, s, chart, approved)
    && var page := Revision.LastPage(chart, CommitLaws.StepsOf(db, s, chart, approved));
       && TimesSeen(page) != {} && s in db.watermarks && s in after.watermarks
       && var before, moved, newest :=
           db.watermarks[s].latestComplete, after.watermarks[s].latestComplete, Max(TimesSeen(page));
          && moved == Later(before, newest)
          && forall now :: HourIsOver(moved, now) <==> HourIsOver(before, now) && HourIsOver(newest, now)
  }

  /**
   What an applied revision calls complete, its pages being complete throughout: the newest row of its last page,
   unless the watermark was further on. So after the run the complete watermark names an hour that is over at the
   request time exactly when it did before and the hour of the page's newest row is over too.
   */
  lemma {:induction false} RevisionCompletesItsLastRow(db: Db, catalog: Catalog, run: int, s: Series,
      chart: int -> seq<Bar>, approved: Option<int>)
    requires db.IsRunning(run) && RunBounded(db, catalog, run, s, chart, approved).market != db.market
    requires forall count, b :: count in Revision.WINDOW_COUNTS && b in chart(count) ==> b.content.isComplete
    ensures CompletesLastRow(db, s, chart, approved, RunBounded(db, catalog, run, s, chart, approved))
  {
    hide RunBounded, Found, View, RevisionState, BoundedCommittable, BoundedApplied, Revision.CompareStep;
    CommitLaws.ChangedMeansApplied(db, catalog, run, s, chart, approved);
    var steps := CommitLaws.StepsOf(db, s, chart, approved);
    var page := Revision.LastPage(chart, steps);
    assert Revision.WINDOW_COUNTS[|steps| - 1] in Revision.WINDOW_COUNTS;
    AppliedWatermark(db, catalog, run, s, page, steps[|steps| - 1], Decisions(steps), approved);
  }

  lemma {:induction false} AppliedWatermark(db: Db, catalog: Catalog, run: int, s: Series, page: seq<Bar>,
      c: Revision.Comparison, steps: seq<StepDecision>, approved: Option<int>)
    requires BoundedCommittable(db, catalog, run, s, page, c, steps, approved)
    requires forall b :: b in page ==> b.content.isComplete
    ensures var after := BoundedApplied(db, catalog, run, s, page, c, steps, approved);
      && TimesSeen(page) != {} && s in db.watermarks && s in after.watermarks
      && after.watermarks[s].latestComplete == Later(db.watermarks[s].latestComplete, Max(TimesSeen(page)))
  {
    hide Accepts, PlaceEvent, MarkApplied, Rebuilt, ApplyCommit, Staging, StagedRows, DistinctRows, BoundedGuard;
    assert page[0] in page && page[0].time in TimesSeen(page);
    assert TimesComplete(page) == TimesSeen(page);
  }

  // ---- Over any sequence of transactions ----

  lemma {:induction false} QuietKeepsWatermarks(db: Db, after: Db, basisOf: int -> Basis)
    requires WatermarksHold(db, basisOf) && after.market.curated == db.market.curated
    requires after.watermarks.Keys == db.watermarks.Keys
    requires forall s :: s in db.watermarks ==>
      after.watermarks[s].latestSeen == db.watermarks[s].latestSeen
      && after.watermarks[s].latestComplete == db.watermarks[s].latestComplete
    ensures WatermarksHold(after, basisOf)
  {
  }

  lemma {:induction false} FailureKeepsTimes(db: Db, run: int, code: string, failed: set<int>,
      detection: Option<Detection>, basisOf: int -> Basis)
    requires WatermarksHold(db, basisOf) && db.IsRunning(run)
    ensures WatermarksHold(RecordFailure(db, run, code, failed, detection), basisOf)
  {
    hide OpenEvents, FailedScope, NamesRows, WatermarksHold;
    StoreLaws.FailureIsQuiet(db, run, code, failed, detection);
    QuietKeepsWatermarks(db, RecordFailure(db, run, code, failed, detection), basisOf);
  }

  lemma {:induction false} AcquiredKeepsWatermarks(db: Db, catalog: Catalog, run: int, items: seq<Item>, mode: Mode,
      basisOf: int -> Basis)
    requires WatermarksHold(db, basisOf) && WellFormed(items) && forall item :: item in items ==> OfBasis(item, basisOf)
    requires mode.Refetching? ==> InstrumentsOf(items).Has(mode.inst)
    requires PassesAreComplete(CommitAcquired(db, catalog, run, items, mode).market.curated)
    ensures WatermarksHold(CommitAcquired(db, catalog, run, items, mode), basisOf)
  {
    hide Committable, Committed, NamesRows, PassesAreComplete, WellFormed;
    if Committable(db, catalog, run, items, mode) {
      CommitKeepsWatermarks(db, catalog, run, items, mode, basisOf);
    }
  }

  lemma {:induction false} StepKeepsWatermarks(db: Db, catalog: Catalog, txn: Txn, basisOf: int -> Basis)
    requires WatermarksHold(db, basisOf) && Conforms(txn, basisOf)
    requires PassesAreComplete(Step(db, catalog, txn).market.curated)
    ensures WatermarksHold(Step(db, catalog, txn), basisOf)
  {
    hide CommitAcquired, RunBounded, RecordFailure, GateOf, RecordWarning, RefetchAllowed, RefetchRefusal,
      WatermarksHold, PassesAreComplete, OfBasis, WellFormed;
    if Performable(db, txn) {
      match txn
      case Incremental(run, items, now) =>
        var gate := GateOf(db.watermarks, items, now);
        if gate.Warn? {
          StoreLaws.WarningIsQuiet(db, run, gate);
          QuietKeepsWatermarks(db, Step(db, catalog, txn), basisOf);
        } else if gate.Proceed? {
          AcquiredKeepsWatermarks(db, catalog, run, items, Incrementally, basisOf);
        } else {
          QuietKeepsWatermarks(db, Step(db, catalog, txn), basisOf);
        }
      case FullRefetch(run, item, rejected) =>
        OneItemIsWellFormed(item, basisOf);
        assert item in [item];
        if RefetchAllowed(db, item, rejected) {
          AcquiredKeepsWatermarks(db, catalog, run, [item], Refetching(item.inst), basisOf);
        } else {
          QuietKeepsWatermarks(db, Step(db, catalog, txn), basisOf);
        }
      case Onboard(run, item) =>
        OneItemIsWellFormed(item, basisOf);
        if |item.bars| >= 2 {
          AcquiredKeepsWatermarks(db, catalog, run, [item], Bootstrapping, basisOf);
        } else {
          QuietKeepsWatermarks(db, Step(db, catalog, txn), basisOf);
        }
      case Bounded(run, s, chart, approved) => BoundedKeepsWatermarks(db, catalog, run, s, chart, approved, basisOf);
      case Failure(run, code, failed, detection) => FailureKeepsTimes(db, run, code, failed, detection, basisOf);
      case StartRun(_, _, _) => QuietKeepsWatermarks(db, Step(db, catalog, txn), basisOf);
      case ReviewEvent(_, _) => QuietKeepsWatermarks(db, Step(db, catalog, txn), basisOf);
    }
  }

  /**
   Over any sequence of transactions on instruments of one price basis each, every watermark, active or stale, names
   rows that are stored: one seen, and one complete that is not later.
   */
  lemma {:induction false} WatermarksNameStoredRows(catalog: Catalog, txns: seq<Txn>, basisOf: int -> Basis)
    requires forall i :: 0 <= i < |txns| ==> Conforms(txns[i], basisOf)
    ensures WatermarksHold(RunAll(EMPTY, catalog, txns), basisOf)
  {
    hide Step, WatermarksHold, PassesAreComplete, Conforms, StoreLaws.Backed, StoreLaws.Inv;
    if txns == [] {
      assert WatermarksHold(EMPTY, basisOf) by { NothingToName(basisOf); }
    } else {
      var n := |txns| - 1;
      WatermarksNameStoredRows(catalog, txns[..n], basisOf);
      StoreLaws.EveryRunIsConsistent(catalog, txns);
      var db := RunAll(EMPTY, catalog, txns);
      BackedPassesAreComplete(db.market.curated, db.market.raw);
      StepKeepsWatermarks(RunAll(EMPTY, catalog, txns[..n]), catalog, txns[n], basisOf);
    }
  }

  lemma {:induction false} NothingToName(basisOf: int -> Basis)
    ensures WatermarksHold(EMPTY, basisOf)
  {
  }
}
