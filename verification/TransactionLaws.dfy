/** What each transaction of the store does, told by what it was given and by the tables before and after. */
module TransactionLaws {
  import opened Sets
  import opened Types
  import opened Derive
  import opened Store
  import CommitLaws
  import EventLaws
  import Quarantine
  import Revision
  import WatermarkLaws

  // ---- The rows of a commit ----

  /** The run acquired this bar for this row. */
  ghost predicate Acquired(items: seq<Item>, k: Key, b: Bar) {
    exists item :: item in items && b in item.bars && k == Key(item.inst, b.time, b.basis)
  }

  lemma {:induction false} RowIsAcquired(items: seq<Item>, row: StagedRow)
    requires row in StagedRows(items)
    ensures Acquired(items, row.key, row.bar)
  {
    var n := |items| - 1;
    if row in StagedRows(items[..n]) {
      RowIsAcquired(items[..n], row);
      var item :| item in items[..n] && row.bar in item.bars && row.key == Key(item.inst, row.bar.time, row.bar.basis);
      assert item in items;
    } else {
      var j :| 0 <= j < |RowsOf(items[n])| && RowsOf(items[n])[j] == row;
      assert items[n] in items && items[n].bars[j] in items[n].bars;
    }
  }

  lemma {:induction false} StagedIsListed(rows: seq<StagedRow>, k: Key)
    requires k in Staging(rows)
    ensures StagedRow(k, Staging(rows)[k]) in rows
  {
    var n := |rows| - 1;
    if k != rows[n].key {
      StagedIsListed(rows[..n], k);
    }
  }

  /** The staging table holds the acquired bars, each under its own key. */
  lemma {:induction false} StagedAreAcquired(items: seq<Item>, k: Key, b: Bar)
    requires DistinctRows(StagedRows(items))
    ensures k in Staging(StagedRows(items)) && Staging(StagedRows(items))[k] == b <==> Acquired(items, k, b)
  {
    hide StagedRows, DistinctRows;
    var rows := StagedRows(items);
    if k in Staging(rows) && Staging(rows)[k] == b {
      StagedIsListed(rows, k);
      RowIsAcquired(items, StagedRow(k, b));
    }
    if item :| item in items && b in item.bars && k == Key(item.inst, b.time, b.basis) {
      var i :| 0 <= i < |items| && items[i] == item;
      var j :| 0 <= j < |item.bars| && item.bars[j] == b;
      WatermarkLaws.RowIsListed(items, i, j);
      var m :| 0 <= m < |rows| && rows[m] == RowsOf(items[i])[j];
      WatermarkLaws.StagedHas(rows, m);
    }
  }

  /** A curated row as the bar it was made of, by the run that wrote it: accepted if and only if complete. */
  predicate Shows(row: Row, b: Bar, run: int) {
    && row.content == b.content && row.dataVersion == b.dataVersion && row.retrievedAt == b.retrievedAt
        && row.run == run
    && (row.quality == QualityPass <==> b.content.isComplete)
    && (row.quality == NotEvaluated <==> !b.content.isComplete)
  }

  /**
   The curated row under a key after an incremental, full-refetch or first commit: the acquired bar, if there is one;
   otherwise the row from before, unless the commit replaced its instrument. The log gains the acquired bars under the
   run and nothing else, and the commit is listed last.
   */
  lemma {:induction false} CommitStoresItsBars(db: Db, catalog: Catalog, run: int, items: seq<Item>, mode: Mode, k: Key)
    requires Committable(db, catalog, run, items, mode)
    ensures var before, after := db.market, Committed(db, catalog, run, items, mode).market;
      && (forall b :: Acquired(items, k, b) ==>
            && k in after.curated && Shows(after.curated[k], b, run)
            && RawKey(run, k) in after.raw && after.raw[RawKey(run, k)] == b)
      && ((forall b :: !Acquired(items, k, b)) ==>
            && (k in after.curated <==> k in before.curated && !(mode.Refetching? && k.inst == mode.inst))
            && (k in after.curated ==> after.curated[k] == before.curated[k])
            && RawKey(run, k) !in after.raw - before.raw.Keys)
      && (forall r :: r != run ==> (RawKey(r, k) in after.raw <==> RawKey(r, k) in before.raw))
      && after.commits == before.commits + [if mode.Refetching? then Replaced(run, mode.inst) else Upserted(run)]
  {
    hide Accepts, DistinctRows, StagedRows, Staging, Written, RefetchGuard, HasCompleteBar, Acquired, Advanced;
    var staged := Staging(StagedRows(items));
    forall b ensures k in staged && staged[k] == b <==> Acquired(items, k, b) {
      StagedAreAcquired(items, k, b);
    }
    assert k in staged ==> Acquired(items, k, staged[k]);
    WrittenRows(db.market, catalog, run, staged, InstrumentsOf(items), mode, k);
  }

  lemma {:induction false} WrittenRows(m: Market, catalog: Catalog, run: int, staged: map<Key, Bar>, scope: Scope,
      mode: Mode, k: Key)
    ensures var after := Written(m, catalog, CommitOf(run, mode), staged, scope);
      && (k in staged ==>
            && k in after.curated && Shows(after.curated[k], staged[k], run)
            && RawKey(run, k) in after.raw && after.raw[RawKey(run, k)] == staged[k])
      && (k !in staged ==>
            && (k in after.curated <==> k in m.curated && !(mode.Refetching? && k.inst == mode.inst))
            && (k in after.curated ==> after.curated[k] == m.curated[k])
            && RawKey(run, k) !in after.raw - m.raw.Keys)
      && (forall r :: r != run ==> (RawKey(r, k) in after.raw <==> RawKey(r, k) in m.raw))
      && after.commits == m.commits + [if mode.Refetching? then Replaced(run, mode.inst) else Upserted(run)]
  {
    hide Rebuilt;
  }

  /** What else a commit leaves: its run passed, the watermarks of other series and every event as they were. */
  lemma {:induction false} CommitEnds(db: Db, catalog: Catalog, run: int, items: seq<Item>, mode: Mode, t: Series)
    requires Committable(db, catalog, run, items, mode)
    ensures var after := Committed(db, catalog, run, items, mode);
      && after.runs == db.runs[run := db.runs[run].(status := Passed)]
      && after.events == db.events && after.nextEvent == db.nextEvent
      && ((forall item :: item in items ==> item.SeriesKey() != t) ==>
            && (t in after.watermarks <==> t in db.watermarks)
            && (t in db.watermarks ==> after.watermarks[t] == db.watermarks[t]))
  {
    hide Accepts, DistinctRows, StagedRows, Staging, Written, RefetchGuard, HasCompleteBar, Advanced;
    if forall item :: item in items ==> item.SeriesKey() != t {
      OthersStand(db.watermarks, run, items, t);
    }
  }

  lemma {:induction false} OthersStand(watermarks: map<Series, Watermark>, run: int, items: seq<Item>, t: Series)
    requires (forall item :: item in items ==> HasCompleteBar(item) && item.SeriesKey() != t)
    ensures t in Advanced(watermarks, run, items) <==> t in watermarks
    ensures t in watermarks ==> Advanced(watermarks, run, items)[t] == watermarks[t]
  {
    if items != [] {
      hide HasCompleteBar, WatermarkOf;
      var n := |items| - 1;
      assert forall item :: item in items[..n] ==> item in items;
      assert items[n] in items;
      OthersStand(watermarks, run, items[..n], t);
    }
  }

  /**
   What a commit needs: a running run, bars under keys of their own and new to the log, valid prices, a complete bar
   of every series, series known already or, for a first commit, not; and for a refetch its own trigger and a stale
   series of the instrument.
   */
  lemma {:induction false} CommitNeeds(db: Db, catalog: Catalog, run: int, items: seq<Item>, mode: Mode)
    requires Committable(db, catalog, run, items, mode)
    ensures run in db.runs && db.runs[run].status == Running
    ensures forall k, b :: Acquired(items, k, b) ==> RawKey(run, k) !in db.market.raw && b.content.ohlc.Valid()
    ensures forall k, a, b :: Acquired(items, k, a) && Acquired(items, k, b) ==> a == b
    ensures forall item :: item in items ==>
      (exists b :: b in item.bars && b.content.isComplete)
          && (item.SeriesKey() in db.watermarks <==> mode != Bootstrapping)
    ensures mode.Refetching? ==>
      db.runs[run].trigger == "manual_db3_full_refetch" && exists s: Series :: s.inst == mode.inst && StaleSeries(db, s)
  {
    hide StagedRows, DistinctRows, DerivedKeysFit, Acquired;
    var staged := Staging(StagedRows(items));
    forall k, b ensures k in staged && staged[k] == b <==> Acquired(items, k, b) {
      StagedAreAcquired(items, k, b);
    }
    forall item | item in items ensures exists b :: b in item.bars && b.content.isComplete {
      CompleteRows(item);
    }
    if mode.Refetching? {
      assert StaleSeries(db, Series(mode.inst, NativeOhlc)) || StaleSeries(db, Series(mode.inst, BidAskMid));
    }
  }

  /** All or nothing: a commit that cannot be made leaves a failed run and everything else as it was. */
  lemma {:induction false} CommitAllOrNothing(db: Db, catalog: Catalog, run: int, items: seq<Item>, mode: Mode)
    requires db.IsRunning(run)
    ensures var after := CommitAcquired(db, catalog, run, items, mode);
      && after.runs.Keys == db.runs.Keys
          && (after.runs[run].status == Passed <==> Committable(db, catalog, run, items, mode))
      && (after.runs[run].status != Passed ==> after == db.(runs := db.runs[run := db.runs[run].(status := Failed)]))
  {
    hide Committable, Written, Advanced;
  }

  lemma {:induction false} RevisionAllOrNothing(db: Db, catalog: Catalog, run: int, s: Series, page: seq<Bar>,
      c: Revision.Comparison, steps: seq<StepDecision>, approved: Option<int>)
    requires db.IsRunning(run)
    ensures var after := CommitBounded(db, catalog, run, s, page, c, steps, approved);
      && after.runs.Keys == db.runs.Keys
      && (after.runs[run].status == Passed <==> BoundedCommittable(db, catalog, run, s, page, c, steps, approved))
      && (after.runs[run].status != Passed ==> after == db.(runs := db.runs[run := db.runs[run].(status := Failed)]))
  {
    hide BoundedCommittable, Written, PlaceEvent, MarkApplied, RevisedWatermark;
  }

  // ---- The counts a commit reports ----

  /** Keys stored before and after whose values or data version are not the same. */
  function Changed(before: Curated, after: Curated): set<Key> {
    set k | k in before && k in after
      && (before[k].content != after[k].content || before[k].dataVersion != after[k].dataVersion)
  }

  /** The counts compare the tables before and after: keys gained, keys changed, and for a refetch keys lost. */
  lemma {:induction false} CountsCompareTables(curated: Curated, run: int, staged: map<Key, Bar>, mode: Mode)
    requires mode.Refetching? ==> forall k :: k in staged ==> k.inst == mode.inst
    ensures var after := ApplyCommit(CommitOf(run, mode), curated, staged);
      CountsOf(curated, staged, mode)
        == Counts(|after.Keys - curated.Keys|, |Changed(curated, after)|, |curated.Keys - after.Keys|)
  {
    var after := ApplyCommit(CommitOf(run, mode), curated, staged);
    assert after.Keys - curated.Keys == InsertedKeys(curated, staged);
    assert Changed(curated, after) == UpdatedKeys(curated, staged);
    if mode.Refetching? {
      assert curated.Keys - after.Keys == RemovedKeys(curated, staged, mode.inst);
    } else {
      assert curated.Keys - after.Keys == {};
    }
  }

  // ---- How a full refetch ends ----

  ghost predicate StaleSeries(db: Db, s: Series) { s in db.watermarks && db.watermarks[s].status == StaleDataVersion }

  ghost predicate StoredAt(db: Db, s: Series, t: int) { Key(s.inst, t, s.basis) in db.market.curated }

  /** The provider showed this time, accepted or set aside. */
  ghost predicate Shown(item: Item, rejected: seq<Quarantine.Rejected>, t: int) {
    (exists b :: b in item.bars && b.time == t) || (exists r :: r in rejected && r.time == t)
  }

  ghost predicate CarriesVersion(item: Item, rejected: seq<Quarantine.Rejected>, v: int) {
    (exists b :: b in item.bars && b.dataVersion == Some(v)) || (exists r :: r in rejected && r.version == Some(v))
  }

  /** The provider showed a time no later than every stored one. */
  ghost predicate ReachesBack(db: Db, item: Item, rejected: seq<Quarantine.Rejected>) {
    exists t :: Shown(item, rejected, t) && forall u :: StoredAt(db, item.SeriesKey(), u) ==> t <= u
  }

  ghost predicate OneVersion(item: Item, rejected: seq<Quarantine.Rejected>) {
    exists v :: CarriesVersion(item, rejected, v) && forall w :: CarriesVersion(item, rejected, w) ==> w == v
  }

  lemma {:induction false} ReachIsLeast(db: Db, item: Item, rejected: seq<Quarantine.Rejected>)
    ensures var existing, observed :=
        KeysOf(db.market.curated, item.SeriesKey()), TimesSeen(item.bars) + Quarantine.RejectedTimes(rejected);
      && (forall t :: t in existing <==> StoredAt(db, item.SeriesKey(), t))
      && (existing != {} ==> (ReachesBack(db, item, rejected) <==> observed != {} && Min(observed) <= Min(existing)))
  {
    var s := item.SeriesKey();
    var existing, observed := KeysOf(db.market.curated, s), TimesSeen(item.bars) + Quarantine.RejectedTimes(rejected);
    forall t ensures t in existing <==> StoredAt(db, s, t) {
      if StoredAt(db, s, t) {
        assert Key(s.inst, t, s.basis).time in existing;
      }
    }
    assert forall t :: t in observed <==> Shown(item, rejected, t);
    if observed != {} && existing != {} && Min(observed) <= Min(existing) {
      assert Shown(item, rejected, Min(observed));
    }
  }

  lemma {:induction false} OneVersionIsOne(item: Item, rejected: seq<Quarantine.Rejected>)
    ensures var versions := Revision.Versions(item.bars)
        + (set r | r in rejected && r.version.Some? :: r.version.value);
      |versions| == 1 <==> OneVersion(item, rejected)
  {
    var versions := Revision.Versions(item.bars) + (set r | r in rejected && r.version.Some? :: r.version.value);
    VersionsCarried(item, rejected);
    hide Revision.Versions, CarriesVersion;
    if |versions| == 1 {
      var v := Member(versions);
      forall w | w in versions ensures w == v {
        if w != v { SubsetSize({v, w}, versions); }
      }
      assert CarriesVersion(item, rejected, v);
    }
    if v :| CarriesVersion(item, rejected, v) && forall w :: CarriesVersion(item, rejected, w) ==> w == v {
      forall w ensures w in versions <==> w in {v} {
        assert w in versions <==> CarriesVersion(item, rejected, w);
      }
      assert versions == {v};
    }
  }

  lemma {:induction false} VersionsCarried(item: Item, rejected: seq<Quarantine.Rejected>)
    ensures var versions := Revision.Versions(item.bars)
        + (set r | r in rejected && r.version.Some? :: r.version.value);
      forall v :: v in versions <==> CarriesVersion(item, rejected, v)
  {
  }

  /**
   How a full refetch ends: blocked where the series is not stale, has no rows, or the response is too short or does
   not reach back to the oldest of them; failed where the rows set aside break the quarantine or the response carries
   no version or several; and otherwise as its commit does.
   */
  lemma {:induction false} RefetchEndsExactly(db: Db, catalog: Catalog, run: int, item: Item,
      rejected: seq<Quarantine.Rejected>)
    requires db.IsRunning(run)
    ensures var s := item.SeriesKey();
      var ready := StaleSeries(db, s) && exists t :: StoredAt(db, s, t);
      var clean := Quarantine.Quarantinable(TimesSeen(item.bars), rejected);
      var enough := |item.bars| >= 2 && ReachesBack(db, item, rejected);
      RunFullRefetch(db, catalog, run, item, rejected) ==
        if !ready then db.Finish(run, Blocked)
        else if !clean then db.Finish(run, Failed)
        else if !enough then db.Finish(run, Blocked)
        else if !OneVersion(item, rejected) then db.Finish(run, Failed)
        else CommitAcquired(db, catalog, run, [item], Refetching(item.inst))
  {
    hide Quarantine.Quarantinable, CommitAcquired, OneVersion, ReachesBack, KeysOf, Revision.Versions;
    ReachIsLeast(db, item, rejected);
    OneVersionIsOne(item, rejected);
    var existing := KeysOf(db.market.curated, item.SeriesKey());
    if existing != {} {
      var t := Member(existing);
      assert StoredAt(db, item.SeriesKey(), t);
    }
  }

  // ---- How an incremental run ends ----

  /** No two bars carry different versions. */
  ghost predicate Agree(bars: seq<Bar>) {
    forall a, b :: a in bars && b in bars && a.dataVersion.Some? && b.dataVersion.Some? ==>
      a.dataVersion == b.dataVersion
  }

  /** The response of one instrument is fit: two rows, a complete one, one version at most, none complete ahead. */
  ghost predicate Fit(item: Item, now: int) {
    && |item.bars| >= 2 && (exists b :: b in item.bars && b.content.isComplete) && Agree(item.bars)
    && (forall b :: b in item.bars && b.content.isComplete ==> b.time <= now)
  }

  /** The response carries a version, and the series is known under another. */
  ghost predicate Drifts(watermarks: map<Series, Watermark>, item: Item, known: int, observed: int) {
    && item.SeriesKey() in watermarks && watermarks[item.SeriesKey()].version == Some(known)
    && known != observed && exists b :: b in item.bars && b.dataVersion == Some(observed)
  }

  lemma {:induction false} VersionsOfItem(item: Item)
    ensures var versions := Revision.Versions(item.bars);
      && (|versions| <= 1 <==> Agree(item.bars))
      && (|versions| <= 1 ==> forall b :: b in item.bars && b.dataVersion.Some? ==>
            versions != {} && Min(versions) == b.dataVersion.value)
      && (versions != {} ==> exists b :: b in item.bars && b.dataVersion == Some(Min(versions)))
  {
    var versions := Revision.Versions(item.bars);
    forall a, b | a in item.bars && b in item.bars && a.dataVersion.Some? && b.dataVersion.Some?
      && a.dataVersion != b.dataVersion
      ensures |versions| > 1
    {
      SubsetSize({a.dataVersion.value, b.dataVersion.value}, versions);
    }
    if |versions| > 1 {
      var v := Min(versions);
      assert |versions - {v}| == |versions| - 1;
      var w := Member(versions - {v});
      var a :| a in item.bars && a.dataVersion == Some(v);
      var b :| b in item.bars && b.dataVersion == Some(w);
    }
    forall b | |versions| <= 1 && b in item.bars && b.dataVersion.Some?
      ensures versions != {} && Min(versions) == b.dataVersion.value
    {
      assert b.dataVersion.value in versions;
      CommitLaws.LoneVersion(versions, b.dataVersion.value);
    }
  }

  lemma {:induction false} CompleteRows(item: Item)
    ensures TimesComplete(item.bars) != {} <==> exists b :: b in item.bars && b.content.isComplete
  {
    if b :| b in item.bars && b.content.isComplete {
      assert b.time in TimesComplete(item.bars);
    }
  }

  /** One instrument passes the gate, warns of the version it meets, or fails the run. */
  lemma {:induction false} GateOfItem(watermarks: map<Series, Watermark>, item: Item, now: int)
    requires item.SeriesKey() in watermarks
    ensures var gate := GateItem(watermarks, item, now);
      && (gate == Refuse(false) <==> !Fit(item, now)) && gate != Refuse(true)
      && (gate.Warn? <==> Fit(item, now) && exists known, observed :: Drifts(watermarks, item, known, observed))
      && (gate.Warn? ==>
            gate.series == item.SeriesKey() && Drifts(watermarks, item, gate.oldVersion, gate.newVersion))
      && (gate == Proceed <==> Fit(item, now) && forall known, observed :: !Drifts(watermarks, item, known, observed))
  {
    hide Revision.Versions, TimesComplete;
    VersionsOfItem(item);
    CompleteRows(item);
    var known := watermarks[item.SeriesKey()].version;
    if Fit(item, now) && known.Some? {
      forall observed | Drifts(watermarks, item, known.value, observed)
        ensures GateItem(watermarks, item, now) == Warn(item.SeriesKey(), known.value, observed)
      {
        var b :| b in item.bars && b.dataVersion == Some(observed);
      }
      var versions := Revision.Versions(item.bars);
      if versions != {} && Min(versions) != known.value {
        assert Drifts(watermarks, item, known.value, Min(versions));
      }
    }
  }

  predicate AllKnown(db: Db, items: seq<Item>) {
    forall item :: item in items ==>
      item.SeriesKey() in db.watermarks && db.watermarks[item.SeriesKey()].status == Active
  }

  ghost predicate PassesGate(db: Db, item: Item, now: int) {
    Fit(item, now) && forall known, observed :: !Drifts(db.watermarks, item, known, observed)
  }

  /** The first instrument that does not pass. */
  ghost predicate StopsAt(db: Db, items: seq<Item>, now: int, i: int) {
    && 0 <= i < |items| && !PassesGate(db, items[i], now)
    && forall j :: 0 <= j < i ==> PassesGate(db, items[j], now)
  }

  ghost predicate DriftsAt(db: Db, items: seq<Item>, now: int, i: int, known: int, observed: int) {
    StopsAt(db, items, now, i) && Fit(items[i], now) && Drifts(db.watermarks, items[i], known, observed)
  }

  lemma {:induction false} GateStops(watermarks: map<Series, Watermark>, items: seq<Item>, now: int, i: nat)
    requires forall item :: item in items ==> item.SeriesKey() in watermarks
    requires i <= |items| && forall j :: 0 <= j < i ==> GateItem(watermarks, items[j], now) == Proceed
    ensures GateFrom(watermarks, items, now)
      == if i == |items| then Proceed
         else if GateItem(watermarks, items[i], now) == Proceed then GateFrom(watermarks, items[i + 1..], now)
         else GateItem(watermarks, items[i], now)
  {
    hide GateItem;
    if i > 0 {
      GateStops(watermarks, items[1..], now, i - 1);
      assert i < |items| ==> items[1..][i - 1] == items[i] && items[1..][i..] == items[i + 1..];
    }
  }

  /**
   How an incremental run ends: blocked where a series has no active watermark; where every instrument passes, as its
   commit does; and otherwise by the first that does not, failed where its response is unfit, and with a recorded
   warning where it carries another version than the known one.
   */
  lemma {:induction false} IncrementalEndsExactly(db: Db, catalog: Catalog, run: int, items: seq<Item>, now: int)
    requires db.IsRunning(run)
    ensures var after := RunIncremental(db, catalog, run, items, now);
      && (!AllKnown(db, items) ==> after == db.Finish(run, Blocked))
      && (AllKnown(db, items) && (forall i :: 0 <= i < |items| ==> PassesGate(db, items[i], now)) ==>
            after == CommitAcquired(db, catalog, run, items, Incrementally))
      && (forall i :: AllKnown(db, items) && StopsAt(db, items, now, i) && !Fit(items[i], now) ==>
            after == db.Finish(run, Failed))
      && (forall i, known, observed :: AllKnown(db, items) && DriftsAt(db, items, now, i, known, observed) ==>
            after == RecordWarning(db, run, items[i].SeriesKey(), known, observed))
  {
    hide GateItem, CommitAcquired, RecordWarning, Fit, Drifts;
    if AllKnown(db, items) {
      forall i | 0 <= i < |items|
        ensures GateItem(db.watermarks, items[i], now) == Proceed <==> PassesGate(db, items[i], now)
        ensures !Fit(items[i], now) ==> GateItem(db.watermarks, items[i], now) == Refuse(false)
      {
        assert items[i] in items;
        GateOfItem(db.watermarks, items[i], now);
      }
      if forall i :: 0 <= i < |items| ==> PassesGate(db, items[i], now) {
        GateStops(db.watermarks, items, now, |items|);
      }
      forall i | StopsAt(db, items, now, i)
        ensures GateFrom(db.watermarks, items, now) == GateItem(db.watermarks, items[i], now)
      {
        GateStops(db.watermarks, items, now, i);
      }
      forall i, known, observed | 0 <= i < |items| && Fit(items[i], now)
        && Drifts(db.watermarks, items[i], known, observed)
        ensures GateItem(db.watermarks, items[i], now) == Warn(items[i].SeriesKey(), known, observed)
      {
        assert items[i] in items;
        DriftWarns(db.watermarks, items[i], now, known, observed);
      }
    }
  }

  lemma {:induction false} DriftWarns(watermarks: map<Series, Watermark>, item: Item, now: int, known: int,
      observed: int)
    requires Fit(item, now) && Drifts(watermarks, item, known, observed)
    ensures item.SeriesKey() in watermarks
    ensures GateItem(watermarks, item, now) == Warn(item.SeriesKey(), known, observed)
  {
    hide Revision.Versions, TimesComplete;
    VersionsOfItem(item);
    CompleteRows(item);
    var b :| b in item.bars && b.dataVersion == Some(observed);
  }

  // ---- Which transactions act ----

  /** A first commit needs two rows; with fewer it blocks its run. */
  lemma {:induction false} OnboardingEndsExactly(db: Db, catalog: Catalog, run: int, item: Item)
    requires db.IsRunning(run)
    ensures var after := RunOnboarding(db, catalog, run, item);
      if |item.bars| < 2 then after == db.(runs := db.runs[run := db.runs[run].(status := Blocked)])
      else after == CommitAcquired(db, catalog, run, [item], Bootstrapping)
  {
  }

  /** A run acts only while its row says so, is started once, and a review needs no run. */
  lemma {:induction false} OnlyRunningRunsAct(db: Db, catalog: Catalog, txn: Txn)
    ensures var after := Step(db, catalog, txn);
      match txn
      case StartRun(run, trigger, scope) =>
        if run in db.runs then after == db else after == db.(runs := db.runs[run := RunRow(trigger, Running, scope)])
      case ReviewEvent(id, approve) => after == Review(db, id, approve)
      case _ => !(txn.run in db.runs && db.runs[txn.run].status == Running) ==> after == db
  {
    hide RunIncremental, RunFullRefetch, RunOnboarding, RunBounded, RecordFailure, Review;
  }

  // ---- Warnings ----

  /** An event of the series for this version that is still open. */
  predicate OpenFor(e: Event, s: Series, version: int) {
    && e.series == s && e.newVersion == version
    && (e.status == Detected || e.status == Discovering || e.status == ReviewPending || e.status == ReadyToApply)
  }

  predicate Waiting(e: Event, s: Series, version: int) {
    OpenFor(e, s, version) && e.status == ReviewPending && e.policy == RevisionWarningV2
  }

  ghost predicate SomeOpen(db: Db, s: Series, version: int) {
    exists id :: id in db.events && OpenFor(db.events[id], s, version)
  }

  ghost predicate FirstWaiting(db: Db, s: Series, version: int, id: int) {
    && id in db.events && Waiting(db.events[id], s, version)
    && forall other :: other in db.events && Waiting(db.events[other], s, version) ==> id <= other
  }

  lemma {:induction false} OpenAre(db: Db, s: Series, version: int)
    ensures forall id :: id in OpenEvents(db.events, s, version) <==>
        id in db.events && OpenFor(db.events[id], s, version)
    ensures OpenEvents(db.events, s, version) != {} <==> SomeOpen(db, s, version)
  {
    if id :| id in db.events && OpenFor(db.events[id], s, version) {
      assert id in OpenEvents(db.events, s, version);
    }
    if OpenEvents(db.events, s, version) != {} {
      var id := Member(OpenEvents(db.events, s, version));
      assert OpenFor(db.events[id], s, version);
    }
  }

  function NextStep(steps: map<int, StepDecision>): int { if steps.Keys == {} then 1 else Max(steps.Keys) + 1 }

  /**
   What a warning leaves, in a run of the series: a new pending event, if none is open for the version; one step more
   on the first event that waits for its review; and a failed run where only other events are open.
   */
  lemma {:induction false} WarningRecords(db: Db, run: int, s: Series, oldVersion: int, newVersion: int)
    requires db.IsRunning(run)
    ensures var after := RecordWarning(db, run, s, oldVersion, newVersion);
      && after.market == db.market && after.watermarks == db.watermarks
      && (s !in db.runs[run].scope ==> after == db.Finish(run, Failed))
      && (s in db.runs[run].scope && !SomeOpen(db, s, newVersion) ==>
            && after.runs[run].status == Passed && after.nextEvent == db.nextEvent + 1
            && after.events == db.events[db.nextEvent := Event(s, oldVersion, newVersion, ReviewPending,
                 RevisionWarningV2, PendingReview, None, map[1 := WarningRecorded])])
      && (s in db.runs[run].scope && SomeOpen(db, s, newVersion)
            && (forall id :: id in db.events ==> !Waiting(db.events[id], s, newVersion)) ==>
            after == db.Finish(run, Failed))
      && (forall id :: s in db.runs[run].scope && FirstWaiting(db, s, newVersion, id) ==>
            && after.runs[run].status == Passed && after.nextEvent == db.nextEvent && id in after.events
            && after.events == db.events[id := after.events[id]]
            && after.events[id] == db.events[id].(steps :=
                 db.events[id].steps[NextStep(db.events[id].steps) := WarningRecorded]))
  {
    hide OpenEvents;
    OpenAre(db, s, newVersion);
    var mine := set id | id in OpenEvents(db.events, s, newVersion) && db.events[id].policy == RevisionWarningV2
        && db.events[id].status == ReviewPending;
    forall id ensures id in mine <==> id in db.events && Waiting(db.events[id], s, newVersion) {
    }
    forall id | FirstWaiting(db, s, newVersion, id) ensures id in mine && Min(mine) == id {
    }
    forall e: Event ensures AppendSteps(e, [WarningRecorded]).steps == e.steps[NextStep(e.steps) := WarningRecorded] {
      OneStepMore(e);
    }
  }

  lemma {:induction false} OneStepMore(e: Event)
    ensures AppendSteps(e, [WarningRecorded]) == e.(steps := e.steps[NextStep(e.steps) := WarningRecorded])
  {
    assert [WarningRecorded][..0] == [];
    assert Numbered(LastStep(e.steps), [WarningRecorded][..0]) == map[];
    assert Numbered(LastStep(e.steps), [WarningRecorded]) == map[NextStep(e.steps) := WarningRecorded];
  }

  // ---- Failures ----

  /** The series of the run that a failure of these instruments concerns: all of them if it names none. */
  predicate Concerned(db: Db, run: int, failed: set<int>, s: Series)
    requires run in db.runs
  {
    s in db.runs[run].scope && (failed == {} || s.inst in failed)
  }

  ghost predicate OnlyConcerned(db: Db, run: int, failed: set<int>, s: Series)
    requires run in db.runs
  {
    Concerned(db, run, failed, s) && forall t :: Concerned(db, run, failed, t) ==> t == s
  }

  predicate VersionCode(code: string) {
    code == "BLOCKED_FULL_REFETCH_REQUIRED" || code == "BLOCKED_BOUNDED_REVISION_REQUIRED"
  }

  function EndOf(code: string): RunStatus { if |code| >= 7 && code[..7] == "BLOCKED" then Blocked else Failed }

  /** The series of the instrument become stale, in no other way changed; all other watermarks stand. */
  ghost predicate MadeStale(db: Db, after: Db, inst: int) {
    && after.watermarks.Keys == db.watermarks.Keys
    && forall s :: s in db.watermarks ==>
         after.watermarks[s] == if s.inst == inst then db.watermarks[s].(status := StaleDataVersion)
             else db.watermarks[s]
  }

  lemma {:induction false} ConcernedScope(db: Db, run: int, failed: set<int>)
    requires run in db.runs
    ensures var scope := FailedScope(db.runs[run].scope, failed);
      && (forall s :: s in scope <==> Concerned(db, run, failed, s))
      && (|scope| == 1 <==> exists s :: OnlyConcerned(db, run, failed, s))
      && (forall s :: OnlyConcerned(db, run, failed, s) ==> |scope| == 1 && TheSeries(scope) == s)
  {
    var scope := FailedScope(db.runs[run].scope, failed);
    forall s ensures s in scope <==> Concerned(db, run, failed, s) {
    }
    if |scope| == 1 {
      LoneMember(scope);
      var s :| s in scope && forall t :: t in scope ==> t == s;
      forall t | Concerned(db, run, failed, t) ensures t == s {
        assert t in scope;
      }
      assert OnlyConcerned(db, run, failed, s);
    }
    forall s | OnlyConcerned(db, run, failed, s) ensures |scope| == 1 && TheSeries(scope) == s {
      forall t ensures t in scope <==> t in {s} {
        assert t in scope <==> Concerned(db, run, failed, t);
      }
      assert scope == {s};
      LoneMember(scope);
    }
  }

  /**
   What a recorded failure leaves: the run ended, and nothing more unless the code tells of a version and concerns
   one series. Then the series of its instrument are stale, and a bounded code that names two versions, none of whose
   events is open, adds a detected event; were the two the same, nothing at all would be written.
   */
  lemma {:induction false} FailureRecords(db: Db, run: int, code: string, failed: set<int>,
      detection: Option<Detection>)
    requires db.IsRunning(run)
    ensures var after := RecordFailure(db, run, code, failed, detection);
      && after.market == db.market
      && (!VersionCode(code) || (forall s :: !OnlyConcerned(db, run, failed, s)) ==>
            after == db.Finish(run, EndOf(code)))
      && (forall s :: VersionCode(code) && OnlyConcerned(db, run, failed, s) ==>
            var detects := code == "BLOCKED_BOUNDED_REVISION_REQUIRED" && detection.Some?
              && !SomeOpen(db, s, detection.value.newVersion);
            if detects && detection.value.oldVersion == detection.value.newVersion then after == db
            else
              && MadeStale(db, after, s.inst) && after.runs == db.Finish(run, Blocked).runs
              && after.nextEvent == db.nextEvent + (if detects then 1 else 0)
              && after.events == if detects
                   then db.events[db.nextEvent := Event(s, detection.value.oldVersion, detection.value.newVersion,
                     Detected, BoundedReconciliationV1, LegacyState, None, map[])]
                   else db.events)
  {
    hide OpenEvents, FailedScope;
    ConcernedScope(db, run, failed);
    VersionCodesBlock(code);
    if detection.Some? {
      forall s: Series
        ensures OpenEvents(db.events, s, detection.value.newVersion) != {} <==>
            SomeOpen(db, s, detection.value.newVersion)
      {
        OpenAre(db, s, detection.value.newVersion);
      }
    }
  }

  lemma {:induction false} VersionCodesBlock(code: string)
    ensures VersionCode(code) <==> code in STALE_CODES
    ensures VersionCode(code) ==> EndOf(code) == Blocked
    ensures EndOf(code) == Blocked <==> "BLOCKED" <= code
  {
    assert |"BLOCKED"| == 7;
  }

  // ---- Reviews ----

  /** A review decides an event that waits for one or was told to keep the current data, and nothing else. */
  lemma {:induction false} ReviewDecides(db: Db, id: int, approve: bool)
    ensures var after := Review(db, id, approve);
      && after.(events := db.events) == db && after.events.Keys == db.events.Keys
      && (forall other :: other in db.events && other != id ==> after.events[other] == db.events[other])
      && (id in db.events ==>
            after.events[id] ==
              if Waiting(db.events[id], db.events[id].series, db.events[id].newVersion)
                && (db.events[id].review == PendingReview || db.events[id].review == ReviewedKeepCurrent)
              then db.events[id].(review := if approve then ApplyApproved else ReviewedKeepCurrent)
              else db.events[id])
  {
  }

  // ---- Bounded runs ----

  /** A stale series may be revised as it is, a current one with an event whose application was approved. */
  ghost predicate MayRevise(db: Db, s: Series, approved: Option<int>, version: int) {
    && s in db.watermarks && db.watermarks[s].version == Some(version)
    && if approved.None? then db.watermarks[s].status == StaleDataVersion
       else
         && db.watermarks[s].status == Active && approved.value in db.events
         && db.events[approved.value].oldVersion == version && db.events[approved.value].review == ApplyApproved
         && Waiting(db.events[approved.value], s, db.events[approved.value].newVersion)
  }

  lemma {:induction false} RevisionStartsExactly(db: Db, s: Series, approved: Option<int>, version: int)
    ensures RevisionState(db, s, approved) == Some(version) <==> MayRevise(db, s, approved, version)
    ensures RevisionState(db, s, approved).None? <==> forall v :: !MayRevise(db, s, approved, v)
  {
    if RevisionState(db, s, approved).Some? {
      assert MayRevise(db, s, approved, RevisionState(db, s, approved).value);
    }
    if v :| MayRevise(db, s, approved, v) {
      assert RevisionState(db, s, approved) == Some(v);
    }
  }

  /** The event is still open and waits for no review. */
  predicate Undecided(e: Event, s: Series, version: int) { OpenFor(e, s, version) && e.status != ReviewPending }

  ghost predicate FirstUndecided(db: Db, s: Series, version: int, id: int) {
    && id in db.events && Undecided(db.events[id], s, version)
    && forall other :: other in db.events && Undecided(db.events[other], s, version) ==> id <= other
  }

  ghost predicate NoneUndecided(db: Db, s: Series, version: int) {
    forall id :: id in db.events ==> !Undecided(db.events[id], s, version)
  }

  /** The event as a comparison leaves it: its versions, its range and its status, and one step a comparison. */
  ghost predicate Reports(before: Event, after: Event, c: Revision.Comparison, status: EventStatus,
      steps: seq<StepDecision>)
  {
    && after.series == before.series && after.policy == before.policy && after.review == before.review
    && after.newVersion == before.newVersion && after.oldVersion == c.oldVersion
    && after.affected == c.affected && after.status == status
    && (forall k :: k in after.steps <==>
        k in before.steps || NextStep(before.steps) <= k < NextStep(before.steps) + |steps|)
    && (forall k :: k in before.steps ==> after.steps[k] == before.steps[k])
    && (forall i :: 0 <= i < |steps| ==> after.steps[NextStep(before.steps) + i] == steps[i])
  }

  predicate StillApproved(db: Db, s: Series, c: Revision.Comparison, id: int) {
    && id in db.events && Waiting(db.events[id], s, c.newVersion)
    && db.events[id].oldVersion == c.oldVersion && db.events[id].review == ApplyApproved
  }

  lemma {:induction false} UpdatedReports(e: Event, c: Revision.Comparison, status: EventStatus,
      steps: seq<StepDecision>)
    ensures Reports(e, AppendSteps(e.(oldVersion := c.oldVersion, status := status, affected := c.affected), steps), c,
      status, steps)
  {
    var last := LastStep(e.steps);
    EventLaws.NumberedKeys(last, steps);
    EventLaws.StepsNeverCollide(e, steps);
    forall i | 0 <= i < |steps| ensures Numbered(last, steps)[NextStep(e.steps) + i] == steps[i] {
      assert last + i + 1 == NextStep(e.steps) + i;
    }
  }

  /**
   The event of a bounded run: the approved one while it stands as approved; otherwise the first open one that waits
   for no review; otherwise a new one, unless the revision is ready and an open event still waits. It reports the
   comparisons, and no other event changes.
   */
  lemma {:induction false} EventIsPlacedExactly(db: Db, s: Series, c: Revision.Comparison, status: EventStatus,
      steps: seq<StepDecision>, approved: Option<int>)
    ensures var placed := PlaceEvent(db, s, c, status, steps, approved);
      && (approved.Some? ==> (placed.Some? <==> StillApproved(db, s, c, approved.value)))
      && (approved.Some? && placed.Some? ==> placed.value.id == approved.value)
      && (approved.None? ==> forall id :: FirstUndecided(db, s, c.newVersion, id) ==>
            placed.Some? && placed.value.id == id)
      && (approved.None? && NoneUndecided(db, s, c.newVersion) ==>
            && (placed.None? <==> status == ReadyToApply && SomeOpen(db, s, c.newVersion))
            && (placed.Some? ==> placed.value.id == db.nextEvent && placed.value.nextEvent == db.nextEvent + 1))
      && (placed.Some? && (approved.Some? || !NoneUndecided(db, s, c.newVersion)) ==>
            && placed.value.id in db.events && placed.value.nextEvent == db.nextEvent
            && placed.value.id in placed.value.events
            && placed.value.events == db.events[placed.value.id := placed.value.events[placed.value.id]]
            && Reports(db.events[placed.value.id], placed.value.events[placed.value.id], c, status, steps))
      && (placed.Some? && approved.None? && NoneUndecided(db, s, c.newVersion) ==>
            && placed.value.id in placed.value.events
            && placed.value.events == db.events[db.nextEvent := placed.value.events[db.nextEvent]]
            && Reports(Event(s, c.oldVersion, c.newVersion, status, BoundedReconciliationV1, LegacyState, c.affected,
                 map[]), placed.value.events[db.nextEvent], c, status, steps))
  {
    hide OpenEvents, AppendSteps, Reports;
    OpenAre(db, s, c.newVersion);
    var undecided := set id | id in OpenEvents(db.events, s, c.newVersion) && db.events[id].status != ReviewPending;
    forall id ensures id in undecided <==> id in db.events && Undecided(db.events[id], s, c.newVersion) {
    }
    forall id | FirstUndecided(db, s, c.newVersion, id) ensures id in undecided && Min(undecided) == id {
    }
    if undecided != {} {
      assert Undecided(db.events[Min(undecided)], s, c.newVersion);
    }
    forall e: Event
      ensures Reports(e, AppendSteps(e.(oldVersion := c.oldVersion, status := status, affected := c.affected), steps),
          c,
        status, steps)
    {
      UpdatedReports(e, c, status, steps);
    }
    var e := Event(s, c.oldVersion, c.newVersion, status, BoundedReconciliationV1, LegacyState, c.affected, map[]);
    assert e.(oldVersion := c.oldVersion, status := status, affected := c.affected) == e;
  }

  ghost predicate PageHas(s: Series, page: seq<Bar>, k: Key, b: Bar) {
    b in page && k == Key(s.inst, b.time, b.basis)
  }

  /**
   What an applied revision leaves: the log gains the whole page; under every key of the instrument inside the range
   the curated table holds the page's row, if it has one, and outside everything stands. The watermark moves on, never
   back, to the page's newest rows, under the new version. The event is applied, and its review too if it had one.
   */
  lemma {:induction false} RevisionLeaves(db: Db, catalog: Catalog, run: int, s: Series, page: seq<Bar>,
      c: Revision.Comparison, steps: seq<StepDecision>, approved: Option<int>, k: Key)
    requires BoundedCommittable(db, catalog, run, s, page, c, steps, approved)
    ensures var before, after := db.market, BoundedApplied(db, catalog, run, s, page, c, steps, approved).market;
      c.affected.Some?
      && var inside := k.inst == s.inst && c.affected.value.first <= k.time <= c.affected.value.last;
      && (forall b :: PageHas(s, page, k, b) ==> RawKey(run, k) in after.raw && after.raw[RawKey(run, k)] == b)
      && (forall b :: PageHas(s, page, k, b) && inside ==> k in after.curated && Shows(after.curated[k], b, run))
      && ((forall b :: !PageHas(s, page, k, b)) ==>
            RawKey(run, k) !in after.raw - before.raw.Keys && (inside ==> k !in after.curated))
      && (!inside ==> (k in after.curated <==> k in before.curated))
      && (!inside && k in before.curated ==> after.curated[k] == before.curated[k])
      && (forall r :: r != run ==> (RawKey(r, k) in after.raw <==> RawKey(r, k) in before.raw))
      && after.commits == before.commits + [Patched(run, s.inst, c.affected.value)]
  {
    hide Accepts, DistinctRows, StagedRows, Staging, Rebuilt, Acquired, PlaceEvent, MarkApplied;
    CommitLaws.AppliedHasARange(db, catalog, run, s, page, c, steps, approved);
    var items := [BoundedItem(s, page)];
    var staged := Staging(StagedRows(items));
    forall b ensures k in staged && staged[k] == b <==> PageHas(s, page, k, b) {
      StagedAreAcquired(items, k, b);
      PageIsAcquired(s, page, k, b);
    }
    assert k in staged ==> PageHas(s, page, k, staged[k]);
  }

  lemma {:induction false} PageIsAcquired(s: Series, page: seq<Bar>, k: Key, b: Bar)
    ensures Acquired([BoundedItem(s, page)], k, b) <==> PageHas(s, page, k, b)
  {
    var item := BoundedItem(s, page);
    assert item in [item];
  }

  lemma {:induction false} RevisionEnds(db: Db, catalog: Catalog, run: int, s: Series, page: seq<Bar>,
      c: Revision.Comparison, steps: seq<StepDecision>, approved: Option<int>)
    requires BoundedCommittable(db, catalog, run, s, page, c, steps, approved)
    ensures var after := BoundedApplied(db, catalog, run, s, page, c, steps, approved);
      var placed := PlaceEvent(db, s, c, ReadyToApply, steps, approved).value;
      && after.runs == db.Finish(run, Passed).runs && after.nextEvent == placed.nextEvent
      && after.watermarks.Keys == db.watermarks.Keys && s in db.watermarks
      && (forall t :: t in db.watermarks && t != s ==> after.watermarks[t] == db.watermarks[t])
      && after.watermarks[s].version == Some(c.newVersion) && after.watermarks[s].status == Active
      && after.watermarks[s].lastRun == run
      && after.events == placed.events[placed.id := after.events[placed.id]]
      && after.events[placed.id].status == Applied
      && after.events[placed.id].(status := placed.events[placed.id].status, review := placed.events[placed.id].review)
           == placed.events[placed.id]
      && after.events[placed.id].review ==
           (if placed.events[placed.id].policy == RevisionWarningV2 then ReviewApplied
            else placed.events[placed.id].review)
  {
    hide Accepts, DistinctRows, StagedRows, Staging, Rebuilt, PlaceEvent, ApplyCommit, BoundedGuard;
  }

  /**
   What an applied revision needs: a running run under one of the two triggers, an event of the instrument that is
   ready for exactly this range, and a series stale under the older policy or current with the application approved.
   */
  lemma {:induction false} RevisionNeeds(db: Db, catalog: Catalog, run: int, s: Series, page: seq<Bar>,
      c: Revision.Comparison, steps: seq<StepDecision>, approved: Option<int>)
    requires BoundedCommittable(db, catalog, run, s, page, c, steps, approved)
    ensures run in db.runs && db.runs[run].status == Running
    ensures db.runs[run].trigger == "manual_db3_bounded_revision"
      || db.runs[run].trigger == "manual_db3_approved_revision_apply"
    ensures var placed := PlaceEvent(db, s, c, ReadyToApply, steps, approved).value;
      && placed.id in placed.events
      && var e := placed.events[placed.id];
         && e.status == ReadyToApply && e.series.inst == s.inst && e.affected == Some(ApplyRange(c))
         && e.series in db.watermarks
         && (e.policy == BoundedReconciliationV1 ==> db.watermarks[e.series].status == StaleDataVersion)
         && (e.policy == RevisionWarningV2 ==>
               db.watermarks[e.series].status == Active && e.review == ApplyApproved)
    ensures forall b :: b in page ==> RawKey(run, Key(s.inst, b.time, b.basis)) !in db.market.raw
  {
    hide StagedRows, DistinctRows, DerivedKeysFit, Acquired, PlaceEvent, ApplyRange, PricesValid;
    var items := [BoundedItem(s, page)];
    var staged := Staging(StagedRows(items));
    forall b | b in page ensures Key(s.inst, b.time, b.basis) in staged {
      StagedAreAcquired(items, Key(s.inst, b.time, b.basis), b);
      PageIsAcquired(s, page, Key(s.inst, b.time, b.basis), b);
    }
  }

  /** How a bounded run ends, by what its windows found. */
  lemma {:induction false} BoundedEndsExactly(db: Db, catalog: Catalog, run: int, s: Series, chart: int -> seq<Bar>,
      approved: Option<int>)
    requires db.IsRunning(run)
    ensures var after := RunBounded(db, catalog, run, s, chart, approved);
      && ((forall v :: !MayRevise(db, s, approved, v)) ==> after == db)
      && (forall v :: MayRevise(db, s, approved, v) ==>
            var d := Found(db, s, chart, v);
            if d.failed.Some? then after == db.Finish(run, Failed)
            else
              var last := d.steps[|d.steps| - 1];
              if last.decision == Revision.ReadyToApply
              then after == CommitBounded(db, catalog, run, s, Revision.LastPage(chart, d.steps), last,
                Decisions(d.steps), approved)
              else BlocksWith(db, after, run, s, last, Decisions(d.steps)))
  {
    hide Found, CommitBounded, PlaceEvent, RevisionState, Decisions, MayRevise;
    forall v: int
      ensures RevisionState(db, s, approved) == Some(v) <==> MayRevise(db, s, approved, v)
      ensures RevisionState(db, s, approved).None? <==> forall w :: !MayRevise(db, s, approved, w)
    {
      RevisionStartsExactly(db, s, approved, v);
    }
  }

  /** An event that asks for a full refetch is recorded and the run is blocked; without such an event it fails. */
  ghost predicate BlocksWith(db: Db, after: Db, run: int, s: Series, c: Revision.Comparison, steps: seq<StepDecision>) {
    var placed := PlaceEvent(db, s, c, BlockedFullRefetch, steps, None);
    if placed.None? then after == db.Finish(run, Failed)
    else
      && after.market == db.market && after.watermarks == db.watermarks
      && after.runs == db.Finish(run, Blocked).runs
      && after.events == placed.value.events && after.nextEvent == placed.value.nextEvent
  }
}
