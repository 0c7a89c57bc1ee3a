/** The store as the ingest code changes it, statement by statement, with rollback where a statement raises. */
module MarketStores {
  import opened Sets
  import opened Types
  import opened Derive
  import opened Store
  import EventLaws
  import Revision
  import StoreLaws

  // ---- Staging rows ----

  lemma {:induction false} StagingKeys(rows: seq<StagedRow>, k: Key)
    ensures k in Staging(rows) <==> exists i :: 0 <= i < |rows| && rows[i].key == k
  {
    if rows != [] {
      var n := |rows| - 1;
      StagingKeys(rows[..n], k);
      if k in Staging(rows[..n]) {
        var i :| 0 <= i < n && rows[..n][i].key == k;
        assert rows[i].key == k;
      }
      if i :| 0 <= i < |rows| && rows[i].key == k {
        if i < n { assert rows[..n][i].key == k; }
      }
    }
  }

  lemma {:induction false} NextRowIsDistinct(rows: seq<StagedRow>, i: nat)
    requires i < |rows| && DistinctRows(rows[..i])
    ensures DistinctRows(rows[..i + 1]) <==> rows[i].key !in Staging(rows[..i])
    ensures Staging(rows[..i + 1]) == Staging(rows[..i])[rows[i].key := rows[i].bar]
  {
    assert rows[..i + 1][..i] == rows[..i];
    StagingKeys(rows[..i], rows[i].key);
    if rows[i].key in Staging(rows[..i]) {
      var j :| 0 <= j < i && rows[..i][j].key == rows[i].key;
      assert rows[..i + 1][j].key == rows[..i + 1][i].key;
    } else {
      var more := rows[..i + 1];
      forall a, b | 0 <= a < b < |more| ensures more[a].key != more[b].key {
        assert rows[..i][a].key == more[a].key;
        assert b < i ==> rows[..i][b].key == more[b].key;
      }
    }
  }

  lemma {:induction false} ClashIsFinal(rows: seq<StagedRow>, i: nat)
    requires i <= |rows| && !DistinctRows(rows[..i])
    ensures !DistinctRows(rows)
  {
    var a, b :| 0 <= a < b < i && rows[..i][a].key == rows[..i][b].key;
    assert rows[a].key == rows[b].key;
  }

  method ListRows(items: seq<Item>) returns (rows: seq<StagedRow>)
    ensures rows == StagedRows(items)
  {
    rows := [];
    for i := 0 to |items|
      invariant rows == StagedRows(items[..i])
    {
      var item := items[i];
      ghost var before := rows;
      for j := 0 to |item.bars|
        invariant rows == before + RowsOf(item)[..j]
      {
        rows := rows + [StagedRow(Key(item.inst, item.bars[j].time, item.bars[j].basis), item.bars[j])];
      }
      assert items[..i + 1][..i] == items[..i];
    }
    assert items[..|items|] == items;
  }

  /** The gate of an incremental run, instrument by instrument, up to the first that does not pass. */
  method GateItems(watermarks: map<Series, Watermark>, items: seq<Item>, now: int) returns (gate: Gate)
    ensures gate == GateOf(watermarks, items, now)
  {
    hide GateItem;
    if !AllActive(watermarks, items) {
      return Refuse(true);
    }
    gate := Proceed;
    var i := 0;
    assert items[0..] == items;
    while i < |items| && gate.Proceed?
      invariant 0 <= i <= |items|
      invariant gate.Proceed? ==> GateFrom(watermarks, items, now) == GateFrom(watermarks, items[i..], now)
      invariant !gate.Proceed? ==> GateFrom(watermarks, items, now) == gate
      decreases |items| - i, if gate.Proceed? then 1 else 0
    {
      assert items[i..][0] == items[i] && items[i..][1..] == items[i + 1..];
      gate := GateItem(watermarks, items[i], now);
      i := i + 1;
    }
  }

  // ---- The store ----

  class MarketStore {
    const catalog: Catalog
    var staging: map<Key, Bar>
    var raw: Raw
    var curated: Curated
    var fourHour: Table
    var daily: Table
    var commits: seq<Commit>
    var watermarks: map<Series, Watermark>
    var runs: map<int, RunRow>
    var events: map<int, Event>
    var nextEvent: int

    function State(): Db
      reads this
    {
      Db(Market(raw, curated, fourHour, daily, commits), watermarks, runs, events, nextEvent)
    }

    constructor (catalog: Catalog)
      ensures this.catalog == catalog && State() == EMPTY && staging == map[]
    {
      this.catalog := catalog;
      staging, raw, curated, fourHour, daily, commits := map[], map[], map[], {}, {}, [];
      watermarks, runs, events, nextEvent := map[], map[], map[], 1;
    }

    /** ROLLBACK, after which the caller marks the run as failed. */
    method RollBack(saved: Db, run: int)
      modifies this
      ensures State() == saved.Finish(run, Failed) && staging == map[]
    {
      staging := map[];
      raw, curated, fourHour, daily, commits :=
          saved.market.raw, saved.market.curated, saved.market.fourHour, saved.market.daily, saved.market.commits;
      watermarks, runs, events, nextEvent := saved.watermarks, saved.runs, saved.events, saved.nextEvent;
      FinishRun(run, Failed);
    }

    method FinishRun(run: int, status: RunStatus)
      modifies this`runs
      ensures State() == old(State()).Finish(run, status)
    {
      if run in runs && runs[run].status == Running {
        runs := runs[run := runs[run].(status := status)];
      }
    }

    method StartRun(run: int, trigger: string, scope: set<Series>)
      requires run !in runs
      modifies this`runs
      ensures State() == Step(old(State()), catalog, Txn.StartRun(run, trigger, scope))
    {
      runs := runs[run := RunRow(trigger, Running, scope)];
    }

    /** Rows go into the staging table one by one; its primary key rejects a second row of the same bar. */
    method Stage(items: seq<Item>) returns (ok: bool)
      modifies this`staging
      ensures ok == DistinctRows(StagedRows(items))
      ensures ok ==> staging == Staging(StagedRows(items))
    {
      staging := map[];
      var rows := ListRows(items);
      for i := 0 to |rows|
        invariant staging == Staging(rows[..i]) && DistinctRows(rows[..i])
      {
        NextRowIsDistinct(rows, i);
        if rows[i].key in staging {
          ClashIsFinal(rows, i + 1);
          return false;
        }
        staging := staging[rows[i].key := rows[i].bar];
      }
      assert rows[..|rows|] == rows;
      ok := true;
    }

    /** Delete and repopulate both derived tables for the given instruments. */
    method Rebuild(scope: Scope) returns (ok: bool)
      modifies this`fourHour, this`daily
      ensures ok == DerivedKeysFit(curated, catalog, scope)
      ensures ok ==> fourHour == Rebuilt(FourHours, old(fourHour), DERIVATION_VERSION, curated, catalog, scope)
      ensures ok ==> daily == Rebuilt(Days, old(daily), DERIVATION_VERSION, curated, catalog, scope)
    {
      fourHour := fourHour - Doomed(fourHour, DERIVATION_VERSION, scope);
      daily := daily - Doomed(daily, DERIVATION_VERSION, scope);
      JoinShape(curated, catalog, scope);
      var rows := Join(curated, catalog, scope);
      if !DistinctKeys(FourHours, rows) {
        return false;
      }
      fourHour := fourHour + Stamp(Bars(FourHours, rows, catalog), DERIVATION_VERSION);
      if !DistinctKeys(Days, rows) {
        return false;
      }
      daily := daily + Stamp(Bars(Days, rows, catalog), DERIVATION_VERSION);
      ok := true;
    }

    /** One UPDATE (or, when onboarding, INSERT) of a watermark an instrument. */
    method AdvanceWatermarks(run: int, items: seq<Item>, mode: Mode) returns (ok: bool)
      requires mode.Bootstrapping? ==> |items| == 1
      modifies this`watermarks
      ensures ok == ((forall item :: item in items ==> HasCompleteBar(item))
        && forall item :: item in items ==> (item.SeriesKey() in old(watermarks) <==> !mode.Bootstrapping?))
      ensures ok ==> watermarks == Advanced(old(watermarks), run, items)
    {
      for i := 0 to |items|
        invariant forall item :: item in items[..i] ==> HasCompleteBar(item)
        invariant forall item :: item in items[..i] ==> (item.SeriesKey() in old(watermarks) <==> !mode.Bootstrapping?)
        invariant watermarks == Advanced(old(watermarks), run, items[..i])
        invariant !mode.Bootstrapping? ==> watermarks.Keys == old(watermarks).Keys
        invariant i == 0 ==> watermarks == old(watermarks)
      {
        var item := items[i];
        assert item in items;
        assert items[..i + 1][..i] == items[..i];
        if TimesSeen(item.bars) == {} || TimesComplete(item.bars) == {} {
          return false;
        }
        if (item.SeriesKey() in watermarks) == mode.Bootstrapping? {
          return false;
        }
        watermarks := watermarks[item.SeriesKey() := WatermarkOf(run, item)];
      }
      assert items[..|items|] == items;
      ok := true;
    }

    /** The staged rows go to the log and, over what a refetch cleared, to the curated table. */
    method WriteRows(run: int, mode: Mode) returns (ok: bool)
      modifies this`raw, this`curated
      ensures ok == (RawAccepts(old(raw), run, staging) && PricesValid(staging)
        && (mode.Refetching? ==> RefetchGuard(old(State()), run, mode.inst)))
      ensures ok ==> raw == old(raw) + RawRows(run, staging)
      ensures ok ==> curated == ApplyCommit(CommitOf(run, mode), old(curated), staging)
    {
      hide RawRows, CuratedRows, Without;
      ok := RawAccepts(raw, run, staging);
      if !ok { return; }
      raw := raw + RawRows(run, staging);
      if mode.Refetching? {
        ok := RefetchGuard(State(), run, mode.inst);
        if !ok { return; }
        curated := Without(curated, mode.inst);
      }
      ok := PricesValid(staging);
      if !ok { return; }
      curated := curated + CuratedRows(run, staging);
    }

    /** The last statements of a commit: empty the staging table and mark the run. */
    method Conclude(run: int, commit: Commit)
      modifies this`staging, this`commits, this`runs
      ensures staging == map[] && commits == old(commits) + [commit]
      ensures runs == old(State()).Finish(run, Passed).runs
    {
      staging := map[];
      commits := commits + [commit];
      FinishRun(run, Passed);
    }

    /** The statements of the commit transaction, up to the first that raises. */
    method TryCommit(run: int, items: seq<Item>, mode: Mode) returns (ok: bool, counts: Counts)
      requires mode.Bootstrapping? ==> |items| == 1
      modifies this
      ensures ok == Committable(old(State()), catalog, run, items, mode)
      ensures ok ==> State() == Committed(old(State()), catalog, run, items, mode) && staging == map[]
      ensures ok ==> counts == CountsOf(old(curated), Staging(StagedRows(items)), mode)
    {
      hide Rebuilt, DerivedKeysFit, StagedRows, Staging, DistinctRows, RawRows, RawAccepts, ApplyCommit, Advanced,
        HasCompleteBar,
        PricesValid, RefetchGuard, CountsOf, InstrumentsOf;
      counts := Counts(0, 0, 0);
      ok := Stage(items);
      if !ok { return; }
      counts := CountsOf(curated, staging, mode);
      ok := WriteRows(run, mode);
      if !ok { return; }
      ok := AdvanceWatermarks(run, items, mode);
      if !ok { return; }
      ok := Rebuild(InstrumentsOf(items));
      if !ok { return; }
      ok := run in runs && runs[run].status == Running;
      if !ok { return; }
      Conclude(run, CommitOf(run, mode));
    }

    /** The commit transaction of incremental, full-refetch and onboarding runs. */
    method CommitAcquired(run: int, items: seq<Item>, mode: Mode) returns (ok: bool, counts: Counts)
      requires mode.Bootstrapping? ==> |items| == 1
      modifies this
      ensures State() == Store.CommitAcquired(old(State()), catalog, run, items, mode)
      ensures ok == Committable(old(State()), catalog, run, items, mode)
      ensures ok ==> counts == CountsOf(old(curated), Staging(StagedRows(items)), mode)
      ensures staging == map[]
    {
      hide Committable, Committed, CountsOf, Staging, StagedRows;
      var saved := State();
      ok, counts := TryCommit(run, items, mode);
      if !ok {
        RollBack(saved, run);
      }
    }

    // ---- The incremental run ----

    method RecordWarning(run: int, s: Series, oldVersion: int, newVersion: int)
      requires State().IsRunning(run)
      modifies this`runs, this`events, this`nextEvent
      ensures State() == Store.RecordWarning(old(State()), run, s, oldVersion, newVersion)
    {
      hide AppendSteps, OpenEvents;
      if s !in runs[run].scope {
        FinishRun(run, Failed);
        return;
      }
      var open := OpenEvents(events, s, newVersion);
      if open == {} {
        var e := Event(s, oldVersion, newVersion, ReviewPending, RevisionWarningV2, PendingReview, None, map[]);
        events := events[nextEvent := AppendSteps(e, [WarningRecorded])];
        nextEvent := nextEvent + 1;
      } else {
        OpenEventsExist(events, s, newVersion);
        var mine := set id | id in open && events[id].policy == RevisionWarningV2 && events[id].status == ReviewPending;
        if mine == {} {
          FinishRun(run, Failed);
          return;
        }
        var id := Min(mine);
        events := events[id := AppendSteps(events[id], [WarningRecorded])];
      }
      FinishRun(run, Passed);
    }

    method RunIncremental(run: int, items: seq<Item>, now: int)
      requires State().IsRunning(run)
      modifies this
      ensures State() == Store.RunIncremental(old(State()), catalog, run, items, now)
    {
      hide GateOf, Store.CommitAcquired, Store.RecordWarning;
      var gate := GateItems(watermarks, items, now);
      match gate
      case Refuse(blocked) => FinishRun(run, if blocked then Blocked else Failed);
      case Warn(s, from, to) => RecordWarning(run, s, from, to);
      case Proceed => var _, _ := CommitAcquired(run, items, Incrementally);
    }

    // ---- Bounded revisions ----

    /** Place the comparison on its event; the guard then decides whether the range may be replaced. */
    method PlaceRevision(run: int, s: Series, c: Revision.Comparison, steps: seq<StepDecision>, approved: Option<int>)
      returns (ok: bool, id: int)
      modifies this`events, this`nextEvent
      ensures var placed := PlaceEvent(old(State()), s, c, ReadyToApply, steps, approved);
        && ok == (placed.Some? && placed.value.id in placed.value.events
             && BoundedGuard(old(State()), run, placed.value.events[placed.value.id], s.inst, ApplyRange(c)))
        && (ok ==> id == placed.value.id && events == placed.value.events && nextEvent == placed.value.nextEvent)
    {
      hide PlaceEvent, ApplyRange;
      ghost var before := State();
      var placed := PlaceEvent(State(), s, c, ReadyToApply, steps, approved);
      id := 0;
      ok := placed.Some? && placed.value.id in placed.value.events;
      if ok {
        events, nextEvent, id := placed.value.events, placed.value.nextEvent, placed.value.id;
        ok := BoundedGuard(State(), run, events[id], s.inst, ApplyRange(c));
        assert BoundedGuard(State(), run, events[id], s.inst, ApplyRange(c))
            == BoundedGuard(before, run, events[id], s.inst, ApplyRange(c));
      }
    }

    /** All staged rows go to the log; those of the range replace the instrument's curated rows of the range. */
    method ReplaceRange(run: int, inst: int, range: Revision.Range) returns (ok: bool)
      modifies this`raw, this`curated
      ensures ok == (RawAccepts(old(raw), run, staging) && PricesValid(InRangeOf(staging, range)))
      ensures ok ==> raw == old(raw) + RawRows(run, staging)
      ensures ok ==> curated == ApplyCommit(Patched(run, inst, range), old(curated), staging)
    {
      hide RawRows, CuratedRows, WithoutRange, InRangeOf;
      ok := RawAccepts(raw, run, staging);
      if !ok { return; }
      raw := raw + RawRows(run, staging);
      curated := WithoutRange(curated, inst, range);
      ok := PricesValid(InRangeOf(staging, range));
      if !ok { return; }
      curated := curated + CuratedRows(run, InRangeOf(staging, range));
    }

    /** After the rows: the watermark moves on, both derived tables are rebuilt, the event is applied. */
    method Settle(run: int, s: Series, page: seq<Bar>, version: int, id: int) returns (ok: bool)
      requires id in events
      modifies this`watermarks, this`fourHour, this`daily, this`events
      ensures ok == (page != [] && s in old(watermarks) && DerivedKeysFit(curated, catalog, Only({s.inst})))
      ensures ok ==> watermarks == old(watermarks)[s := RevisedWatermark(old(watermarks)[s], run, page, version)]
      ensures ok ==> fourHour == Rebuilt(FourHours, old(fourHour), DERIVATION_VERSION, curated, catalog, Only({s.inst}))
      ensures ok ==> daily == Rebuilt(Days, old(daily), DERIVATION_VERSION, curated, catalog, Only({s.inst}))
      ensures ok ==> events == MarkApplied(old(events), id)
    {
      hide Rebuilt, DerivedKeysFit, RevisedWatermark, MarkApplied;
      ok := page != [] && s in watermarks;
      if !ok { return; }
      watermarks := watermarks[s := RevisedWatermark(watermarks[s], run, page, version)];
      ok := Rebuild(Only({s.inst}));
      if !ok { return; }
      events := MarkApplied(events, id);
    }

    /** The statements of the bounded commit transaction, up to the first that raises. */
    method TryBounded(run: int, s: Series, page: seq<Bar>, c: Revision.Comparison, steps: seq<StepDecision>,
        approved: Option<int>)
      returns (ok: bool)
      modifies this
      ensures ok == BoundedCommittable(old(State()), catalog, run, s, page, c, steps, approved)
      ensures ok ==>
          State() == BoundedApplied(old(State()), catalog, run, s, page, c, steps, approved) && staging == map[]
    {
      hide Rebuilt, DerivedKeysFit, StagedRows, Staging, DistinctRows, RawRows, RawAccepts, ApplyCommit, InRangeOf,
        PricesValid,
        PlaceEvent, MarkApplied, RevisedWatermark, ApplyRange, BoundedGuard;
      ok := Stage([BoundedItem(s, page)]);
      if !ok { return; }
      var id;
      ok, id := PlaceRevision(run, s, c, steps, approved);
      if !ok { return; }
      ok := ReplaceRange(run, s.inst, ApplyRange(c));
      if !ok { return; }
      ok := Settle(run, s, page, c.newVersion, id);
      if !ok { return; }
      Conclude(run, BoundedCommit(run, s, c));
    }

    /** The commit transaction of a bounded revision. */
    method CommitBounded(run: int, s: Series, page: seq<Bar>, c: Revision.Comparison, steps: seq<StepDecision>,
        approved: Option<int>)
      returns (ok: bool)
      modifies this
      ensures State() == Store.CommitBounded(old(State()), catalog, run, s, page, c, steps, approved)
      ensures ok == BoundedCommittable(old(State()), catalog, run, s, page, c, steps, approved)
    {
      hide BoundedCommittable, BoundedApplied;
      var saved := State();
      ok := TryBounded(run, s, page, c, steps, approved);
      if !ok {
        RollBack(saved, run);
      }
    }

    method RunBounded(run: int, s: Series, chart: int -> seq<Bar>, approved: Option<int>)
      requires State().IsRunning(run)
      modifies this
      ensures State() == Store.RunBounded(old(State()), catalog, run, s, chart, approved)
    {
      hide RevisionState, View, Decisions, PlaceEvent, Store.CommitBounded, BoundedCommittable, Revision.Discover,
        Revision.Discovered;
      var state := RevisionState(State(), s, approved);
      if state.None? {
        return;
      }
      var steps, failed := Revision.DiscoverRevision(chart, View(curated, s), state.value);
      if failed.Some? {
        FinishRun(run, Failed);
        return;
      }
      var final := steps[|steps| - 1];
      if final.decision == Revision.ReadyToApply {
        var page := chart(Revision.WINDOW_COUNTS[|steps| - 1]);
        var _ := CommitBounded(run, s, page, final, Decisions(steps), approved);
      } else {
        var placed := PlaceEvent(State(), s, final, EventStatus.BlockedFullRefetch, Decisions(steps), None);
        if placed.None? {
          FinishRun(run, Failed);
        } else {
          events, nextEvent := placed.value.events, placed.value.nextEvent;
          FinishRun(run, Blocked);
        }
      }
    }

    // ---- Failures and reviews ----

    method RecordFailure(run: int, code: string, failed: set<int>, detection: Option<Detection>)
      requires State().IsRunning(run)
      modifies this`watermarks, this`events, this`nextEvent, this`runs
      ensures State() == Store.RecordFailure(old(State()), run, code, failed, detection)
    {
      hide MarkStale, OpenEvents, FailedScope;
      var affected := FailedScope(runs[run].scope, failed);
      var stale := code in STALE_CODES && |affected| == 1;
      if stale {
        var s := TheSeries(affected);
        var detected := code == "BLOCKED_BOUNDED_REVISION_REQUIRED" && detection.Some?
          && OpenEvents(events, s, detection.value.newVersion) == {};
        if detected && detection.value.oldVersion == detection.value.newVersion {
          return;
        }
        watermarks := MarkStale(watermarks, s.inst);
        if detected {
          events := events[nextEvent := Event(s, detection.value.oldVersion, detection.value.newVersion, Detected,
            BoundedReconciliationV1, LegacyState, None, map[])];
          nextEvent := nextEvent + 1;
        }
      }
      FinishRun(run, if "BLOCKED" <= code then Blocked else Failed);
    }

    method ReviewRevision(id: int, approve: bool)
      modifies this`events
      ensures State() == Review(old(State()), id, approve)
    {
      if id in events {
        var e := events[id];
        if e.policy == RevisionWarningV2 && e.status == ReviewPending
            && e.review in {PendingReview, ReviewedKeepCurrent} {
          events := events[id := e.(review := if approve then ApplyApproved else ReviewedKeepCurrent)];
        }
      }
    }

    // ---- Any sequence of runs ----

    method Perform(txn: Txn)
      modifies this
      ensures State() == Step(old(State()), catalog, txn)
    {
      hide Store.RunIncremental, Store.CommitAcquired, Store.RunBounded, Store.RecordFailure, Review, RefetchAllowed,
        RefetchRefusal;
      if Performable(State(), txn) {
        match txn
        case StartRun(run, trigger, scope) => StartRun(run, trigger, scope);
        case Incremental(run, items, now) => RunIncremental(run, items, now);
        case FullRefetch(run, item, rejected) =>
          if RefetchAllowed(State(), item, rejected) {
            var _, _ := CommitAcquired(run, [item], Refetching(item.inst));
          } else {
            FinishRun(run, RefetchRefusal(State(), item, rejected));
          }
        case Onboard(run, item) =>
          if |item.bars| < 2 {
            FinishRun(run, Blocked);
          } else {
            var _, _ := CommitAcquired(run, [item], Bootstrapping);
          }
        case Bounded(run, s, chart, approved) => RunBounded(run, s, chart, approved);
        case Failure(run, code, failed, detection) => RecordFailure(run, code, failed, detection);
        case ReviewEvent(id, approve) => ReviewRevision(id, approve);
      }
    }
  }

  lemma {:induction false} OpenEventsExist(events: map<int, Event>, s: Series, version: int)
    ensures OpenEvents(events, s, version) <= events.Keys
  {
  }

  /** A store that starts empty keeps every law of the store through any sequence of runs. */
  method Serve(catalog: Catalog, txns: seq<Txn>) returns (store: MarketStore)
    ensures store.catalog == catalog && store.State() == RunAll(EMPTY, catalog, txns)
    ensures StoreLaws.Inv(store.State(), catalog) && StoreLaws.Backed(store.curated, store.raw)
    ensures EventLaws.EventsInv(store.State())
  {
    hide Step, StoreLaws.Inv, StoreLaws.Backed, EventLaws.EventsInv;
    store := new MarketStore(catalog);
    for i := 0 to |txns|
      invariant fresh(store) && store.catalog == catalog && store.State() == RunAll(EMPTY, catalog, txns[..i])
    {
      assert txns[..i + 1][..i] == txns[..i];
      store.Perform(txns[i]);
    }
    assert txns[..|txns|] == txns;
    StoreLaws.EveryRunIsConsistent(catalog, txns);
    EventLaws.EventsStayWellKept(catalog, txns);
  }
}
