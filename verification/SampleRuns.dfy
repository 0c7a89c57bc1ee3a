/** Onboarding and incremental runs of the sample series, under a calendar of one session. */
module SampleRuns {
  import opened Types
  import opened Derive
  import opened Store
  import opened Samples
  import Acquisition
  import Calendars
  import Revision

  const CLOSE := 24 * 3600

  /** One verified session, of the hours 0 to 23. */
  const DAY := Trading(0, 0, 0, CLOSE)
  const CATALOG: Catalog := map[1 := Calendar(Some("VERIFIED"), {DAY})]

  lemma {:induction false} DayIsWritten()
    ensures Calendars.AsWritten(CATALOG[1])
  {
  }

  lemma {:induction false} KeysAlwaysFit(curated: Curated, scope: Scope)
    ensures DerivedKeysFit(curated, CATALOG, scope)
  {
    hide DerivedKeysFit, Calendars.AsWritten;
    DayIsWritten();
    Calendars.WrittenCalendarsFit(curated, CATALOG, scope);
  }

  // ---- The overlap of an incremental run ----

  lemma {:induction false} OnlyTheDay(t: int, iv: Interval)
    ensures Acquisition.SessionAt(CATALOG, 1, t, iv) <==> iv == DAY && 0 <= t < CLOSE
  {
    assert CATALOG[1].intervals == {DAY};
  }

  /** What a run acquires before the session is proved to be over. */
  lemma {:induction false} AcquiresOpen(curated: Curated, top: int, stored: Content, to: int, last: Content,
      version: Option<int>, fetched: int)
    requires Stores(curated, top, stored) && 19 <= Newest(top, stored) && Newest(top, stored) - 19 <= to
    requires last.isComplete && (to < 23 || fetched < CLOSE + 60 * DELAY)
    ensures Acquisition.Acquires(curated, CATALOG,
        Acquired(Newest(top, stored) - 19, to, Open(last), version, fetched), Served(to, last, version, fetched))
  {
    hide Stores, Acquisition.SessionAt, Acquisition.Acquires;
    OverlapOfStored(curated, top, stored);
    forall iv ensures Acquisition.SessionAt(CATALOG, 1, 3600 * to, iv) ==> iv == DAY {
      OnlyTheDay(3600 * to, iv);
    }
    AcquiredOpen(curated, CATALOG, Newest(top, stored) - 19, to, last, version, fetched);
  }

  /** What it acquires of the whole day afterwards. */
  lemma {:induction false} AcquiresFinished(curated: Curated, stored: Content, last: Content, version: Option<int>,
      fetched: int)
    requires Stores(curated, 23, stored) && last.isComplete && CLOSE + 60 * DELAY <= fetched
    ensures Acquisition.Acquires(curated, CATALOG,
        Acquired(Newest(23, stored) - 19, 23, last, version, fetched), Served(23, last, version, fetched))
  {
    hide Stores, Acquisition.SessionAt, Acquisition.Acquires;
    OverlapOfStored(curated, 23, stored);
    OnlyTheDay(3600 * 23, DAY);
    AcquiredFinished(curated, CATALOG, DAY, Newest(23, stored) - 19, 23, last, version, fetched);
  }

  // ---- Commits ----

  lemma {:induction false} LogRuns(m: Market, commit: Commit, staged: map<Key, Bar>, scope: Scope)
    ensures var after := Written(m, CATALOG, commit, staged, scope);
      && (forall rk :: rk in after.raw ==> rk in m.raw || rk.run == commit.run)
      && after.commits == m.commits + [commit] && after.curated == ApplyCommit(commit, m.curated, staged)
  {
    hide Rebuilt, ApplyCommit;
  }

  lemma {:induction false} AdvancedOnce(watermarks: map<Series, Watermark>, run: int, item: Item)
    requires HasCompleteBar(item)
    ensures Advanced(watermarks, run, [item]) == watermarks[item.SeriesKey() := WatermarkOf(run, item)]
  {
  }

  /** A run may write: it is open, the log has nothing of it, and no revision event exists. */
  ghost predicate MayWrite(db: Db, run: int) {
    && db.IsRunning(run) && db.events == map[] && db.nextEvent == 1
    && (forall rk :: rk in db.market.raw ==> rk.run < run)
    && (forall r :: r in db.runs ==> r <= run)
    && db.watermarks.Keys <= {SERIES}
  }

  lemma {:induction false} AcceptsBars(m: Market, run: int, from: int, to: int, last: Content, version: Option<int>,
      fetched: int, scope: Scope)
    requires from <= to && last.ohlc.Valid() && forall rk :: rk in m.raw ==> rk.run < run
    ensures Accepts(m, CATALOG, Upserted(run), Staged(from, to, last, version, fetched), scope)
  {
    hide DerivedKeysFit, ApplyCommit, PricesValid, Staged;
    PricesOfBars(from, to, last, version, fetched);
    KeysAlwaysFit(ApplyCommit(Upserted(run), m.curated, Staged(from, to, last, version, fetched)), scope);
  }

  lemma {:induction false} Acceptable(db: Db, run: int, from: int, to: int, last: Content, version: Option<int>,
      fetched: int, mode: Mode)
    requires MayWrite(db, run) && !mode.Refetching? && (SERIES in db.watermarks <==> !mode.Bootstrapping?)
    requires from < to && last.ohlc.Valid()
    ensures Committable(db, CATALOG, run, [Acquired(from, to, last, version, fetched)], mode)
  {
    hide Accepts, HasCompleteBar, HourBars, Staging, StagedRows, DistinctRows;
    var items := [Acquired(from, to, last, version, fetched)];
    ItemOfBars(from, to, last, version, fetched, run);
    StagedIs(from, to, last, version, fetched);
    AcceptsBars(db.market, run, from, to, last, version, fetched, InstrumentsOf(items));
  }

  /** How a store stands after an incremental or onboarding run. */
  ghost predicate Stands(db: Db, run: int, w: Watermark) {
    && db.watermarks == map[SERIES := w] && w.status == Active
    && db.events == map[] && db.nextEvent == 1
    && (forall rk :: rk in db.market.raw ==> rk.run <= run)
    && (forall r :: r in db.runs ==> r <= run)
  }

  function Mark(run: int, to: int, last: Content, version: Option<int>): Watermark {
    Watermark(3600 * to, 3600 * Newest(to, last), version, run, Active)
  }

  lemma {:induction false} CommitStands(db: Db, run: int, from: int, to: int, last: Content, version: Option<int>,
      fetched: int, mode: Mode)
    requires MayWrite(db, run) && !mode.Refetching? && (SERIES in db.watermarks <==> !mode.Bootstrapping?)
    requires from < to && last.ohlc.Valid()
    ensures var after := CommitAcquired(db, CATALOG, run, [Acquired(from, to, last, version, fetched)], mode);
      && Stands(after, run, Mark(run, to, last, version))
      && after.market.commits == db.market.commits + [Upserted(run)]
      && after.market.curated == ApplyCommit(Upserted(run), db.market.curated, Staged(from, to, last, version, fetched))
  {
    hide Committable, Written, ApplyCommit, Staging, StagedRows, HasCompleteBar, Acquired, Advanced;
    var item := Acquired(from, to, last, version, fetched);
    Acceptable(db, run, from, to, last, version, fetched, mode);
    ItemOfBars(from, to, last, version, fetched, run);
    AdvancedOnce(db.watermarks, run, item);
    LogRuns(db.market, Upserted(run), Staged(from, to, last, version, fetched), InstrumentsOf([item]));
  }

  // ---- Runs ----

  /** A store with its series onboarded: the hours 0 to `to`, the last one open. */
  function Onboarded(to: int, fetched: int): Db
    requires 0 <= to
  {
    Step(Step(EMPTY, CATALOG, StartRun(1, "onboarding", {SERIES})), CATALOG,
      Onboard(1, Acquired(0, to, OPEN, Some(1), fetched)))
  }

  lemma {:induction false} OnboardedStands(to: int, fetched: int)
    requires 0 < to
    ensures var db := Onboarded(to, fetched);
      && Stands(db, 1, Mark(1, to, OPEN, Some(1))) && Stores(db.market.curated, to, OPEN)
      && db.market.commits == [Upserted(1)]
  {
    hide CommitAcquired, Stores, HourBars, ApplyCommit;
    var started := Step(EMPTY, CATALOG, StartRun(1, "onboarding", {SERIES}));
    ItemOfBars(0, to, OPEN, Some(1), fetched, 1);
    CommitStands(started, 1, 0, to, OPEN, Some(1), fetched, Bootstrapping);
    UpsertExtends(map[], 0, OPEN, 1, 0, to, OPEN, Some(1), fetched);
  }

  /** The next incremental run, with what it acquired, at the time it fetched it. */
  function Next(db: Db, run: int, item: Item, now: int): Db {
    Step(Step(db, CATALOG, StartRun(run, "manual_db3", {SERIES})), CATALOG, Incremental(run, [item], now))
  }

  lemma {:induction false} GateOpens(w: Watermark, from: int, to: int, last: Content, version: Option<int>,
      fetched: int)
    requires w.status == Active && from < to && 3600 * Newest(to, last) <= fetched
    requires w.version.None? || version.None? || w.version == version
    ensures GateOf(map[SERIES := w], [Acquired(from, to, last, version, fetched)], fetched) == Proceed
  {
    hide Revision.Versions, TimesComplete, HourBars;
    var item, watermarks := Acquired(from, to, last, version, fetched), map[SERIES := w];
    ItemOfBars(from, to, last, version, fetched, 0);
    VersionsOfBars(from, to, last, version, fetched);
    BarsAre(from, to, last, version, fetched);
    CompleteUpTo(from, to, last, version, fetched);
    assert [item][1..] == [];
    assert GateFrom(watermarks, [item][1..], fetched) == Proceed;
    assert GateItem(watermarks, item, fetched) == Proceed;
  }

  lemma {:induction false} CompleteUpTo(from: int, to: int, last: Content, version: Option<int>, fetched: int)
    requires from < to
    ensures forall b :: b in HourBars(from, to, last, version, fetched) && b.content.isComplete ==>
      b.time <= 3600 * Newest(to, last)
  {
    hide HourBars;
    forall b | b in HourBars(from, to, last, version, fetched) && b.content.isComplete
      ensures b.time <= 3600 * Newest(to, last)
    {
      var i := HourOf(from, to, last, version, fetched, b);
    }
  }

  lemma {:induction false} NextStands(db: Db, run: int, w: Watermark, from: int, to: int, last: Content,
      version: Option<int>, fetched: int)
    requires Stands(db, run, w) && from < to && last.ohlc.Valid() && 3600 * Newest(to, last) <= fetched
    requires w.version.None? || version.None? || w.version == version
    ensures var after := Next(db, run + 1, Acquired(from, to, last, version, fetched), fetched);
      && Stands(after, run + 1, Mark(run + 1, to, last, version))
      && after.market.commits == db.market.commits + [Upserted(run + 1)]
      && after.market.curated
           == ApplyCommit(Upserted(run + 1), db.market.curated, Staged(from, to, last, version, fetched))
  {
    hide CommitAcquired, GateOf, HourBars, ApplyCommit, Staged;
    var started := Step(db, CATALOG, StartRun(run + 1, "manual_db3", {SERIES}));
    GateOpens(w, from, to, last, version, fetched);
    CommitStands(started, run + 1, from, to, last, version, fetched, Incrementally);
  }
}
