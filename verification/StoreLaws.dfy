/** What every transaction, and so every run of transactions from the empty store, keeps. */
module StoreLaws {
  import opened Types
  import opened Derive
  import opened Store
  import Revision
  import RollUp

  // ---- What a transaction does to the market tables ----

  datatype Write = Write(commit: Commit, staged: map<Key, Bar>, scope: Scope)

  /** Every row the write puts in or takes out belongs to an instrument of its scope. */
  ghost predicate Confined(w: Write) {
    && (forall k :: k in w.staged ==> w.scope.Has(k.inst))
    && (w.commit.Replaced? ==> w.scope.Has(w.commit.inst))
    && (w.commit.Patched? ==> w.scope.Has(w.commit.inst))
  }

  /** The transaction wrote this, under a run that was open before and is finished after. */
  ghost predicate Writes(db: Db, catalog: Catalog, after: Db, w: Write) {
    && Confined(w)
    && db.IsRunning(w.commit.run) && w.commit.run in after.runs && after.runs[w.commit.run].status == Passed
    && Accepts(db.market, catalog, w.commit, w.staged, w.scope)
    && after.market == Written(db.market, catalog, w.commit, w.staged, w.scope)
  }

  /** Runs are never forgotten, and a finished run stays as it is. */
  ghost predicate RunsMoveOn(db: Db, after: Db) {
    forall r :: r in db.runs ==> r in after.runs && (db.runs[r].status != Running ==> after.runs[r] == db.runs[r])
  }

  lemma {:induction false} StagedBelong(items: seq<Item>)
    ensures forall k :: k in Staging(StagedRows(items)) ==> InstrumentsOf(items).Has(k.inst)
  {
    forall k | k in Staging(StagedRows(items)) ensures InstrumentsOf(items).Has(k.inst) {
      StagingComesFromRows(StagedRows(items), k);
      var row :| row in StagedRows(items) && row.key == k;
      RowsComeFromItems(items, row);
    }
  }

  lemma {:induction false} StagingComesFromRows(rows: seq<StagedRow>, k: Key)
    requires k in Staging(rows)
    ensures exists row :: row in rows && row.key == k && row.bar == Staging(rows)[k]
  {
    var n := |rows| - 1;
    if rows[n].key == k {
      assert rows[n] in rows;
    } else {
      StagingComesFromRows(rows[..n], k);
      var row :| row in rows[..n] && row.key == k && row.bar == Staging(rows[..n])[k];
      assert row in rows;
    }
  }

  lemma {:induction false} RowsComeFromItems(items: seq<Item>, row: StagedRow)
    requires row in StagedRows(items)
    ensures exists item :: item in items && row in RowsOf(item) && row.key.inst == item.inst
  {
    var n := |items| - 1;
    if row in RowsOf(items[n]) {
      assert items[n] in items;
    } else {
      RowsComeFromItems(items[..n], row);
      var item :| item in items[..n] && row in RowsOf(item) && row.key.inst == item.inst;
      assert item in items;
    }
  }

  lemma {:induction false} CommitWrites(db: Db, catalog: Catalog, run: int, items: seq<Item>,
      mode: Mode) returns (w: Write)
    requires Committable(db, catalog, run, items, mode)
    requires mode.Refetching? ==> InstrumentsOf(items).Has(mode.inst)
    ensures Writes(db, catalog, Committed(db, catalog, run, items, mode), w)
    ensures w == Write(CommitOf(run, mode), Staging(StagedRows(items)), InstrumentsOf(items))
  {
    hide Written, Accepts, Advanced;
    w := Write(CommitOf(run, mode), Staging(StagedRows(items)), InstrumentsOf(items));
    StagedBelong(items);
  }

  lemma {:induction false} BoundedWrites(db: Db, catalog: Catalog, run: int, s: Series, page: seq<Bar>,
      c: Revision.Comparison,
      steps: seq<StepDecision>, approved: Option<int>) returns (w: Write)
    requires BoundedCommittable(db, catalog, run, s, page, c, steps, approved)
    ensures Writes(db, catalog, BoundedApplied(db, catalog, run, s, page, c, steps, approved), w)
    ensures w == Write(BoundedCommit(run, s, c), Staging(StagedRows([BoundedItem(s, page)])), Only({s.inst}))
  {
    hide Written, Accepts, PlaceEvent, RevisedWatermark, MarkApplied;
    w := Write(BoundedCommit(run, s, c), Staging(StagedRows([BoundedItem(s, page)])), Only({s.inst}));
    StagedBelong([BoundedItem(s, page)]);
    assert InstrumentsOf([BoundedItem(s, page)]) == Only({s.inst});
  }

  /** A transaction either leaves the market tables alone or makes exactly one write. */
  lemma {:induction false} StepWrites(db: Db, catalog: Catalog, txn: Txn) returns (w: Option<Write>)
    ensures w.None? ==> Step(db, catalog, txn).market == db.market
    ensures w.Some? ==> Writes(db, catalog, Step(db, catalog, txn), w.value)
  {
    hide Committable, Committed, RunBounded, GateOf, RecordWarning, RecordFailure, RefetchAllowed, Writes;
    w := None;
    if Performable(db, txn) {
      match txn
      case Incremental(run, items, now) =>
        if GateOf(db.watermarks, items, now).Warn? {
          WarningIsQuiet(db, run, GateOf(db.watermarks, items, now));
        } else if GateOf(db.watermarks, items, now).Proceed? && Committable(db, catalog, run, items, Incrementally) {
          var write := CommitWrites(db, catalog, run, items, Incrementally);
          w := Some(write);
        }
      case FullRefetch(run, item, rejected) =>
        if RefetchAllowed(db, item, rejected) && Committable(db, catalog, run, [item], Refetching(item.inst)) {
          var write := CommitWrites(db, catalog, run, [item], Refetching(item.inst));
          w := Some(write);
        }
      case Onboard(run, item) =>
        if |item.bars| >= 2 && Committable(db, catalog, run, [item], Bootstrapping) {
          var write := CommitWrites(db, catalog, run, [item], Bootstrapping);
          w := Some(write);
        }
      case Bounded(run, s, chart, approved) =>
        w := RunBoundedWrites(db, catalog, run, s, chart, approved);
      case Failure(run, code, failed, detection) => FailureIsQuiet(db, run, code, failed, detection);
      case StartRun(_, _, _) =>
      case ReviewEvent(_, _) =>
    }
  }

  lemma {:induction false} RunBoundedWrites(db: Db, catalog: Catalog, run: int, s: Series,
      chart: int -> seq<Bar>, approved: Option<int>)
    returns (w: Option<Write>)
    requires db.IsRunning(run)
    ensures w.None? ==> RunBounded(db, catalog, run, s, chart, approved).market == db.market
    ensures w.Some? ==> Writes(db, catalog, RunBounded(db, catalog, run, s, chart, approved), w.value)
  {
    hide BoundedCommittable, BoundedApplied, RecordUnresolved, RevisionState, View, Decisions,
      Found, Writes;
    w := None;
    var state := RevisionState(db, s, approved);
    if state.Some? && Found(db, s, chart, state.value).failed.None? {
      var steps := Found(db, s, chart, state.value).steps;
      var page, final := Revision.LastPage(chart, steps), steps[|steps| - 1];
      if final.decision != Revision.ReadyToApply {
        UnresolvedIsQuiet(db, run, s, final, Decisions(steps));
      } else if BoundedCommittable(db, catalog, run, s, page, final, Decisions(steps), approved) {
        var write := BoundedWrites(db, catalog, run, s, page, final, Decisions(steps), approved);
        w := Some(write);
      }
    }
  }

  // ---- Warnings, failures, reviews and blocked revisions change no market data ----

  lemma {:induction false} WarningIsQuiet(db: Db, run: int, gate: Gate)
    requires db.IsRunning(run) && gate.Warn?
    ensures RecordWarning(db, run, gate.series, gate.oldVersion, gate.newVersion).market == db.market
    ensures RecordWarning(db, run, gate.series, gate.oldVersion, gate.newVersion).watermarks == db.watermarks
  {
  }

  lemma {:induction false} FailureIsQuiet(db: Db, run: int, code: string, failed: set<int>,
      detection: Option<Detection>)
    requires db.IsRunning(run)
    ensures RecordFailure(db, run, code, failed, detection).market == db.market
  {
  }

  lemma {:induction false} UnresolvedIsQuiet(db: Db, run: int, s: Series, c: Revision.Comparison,
      steps: seq<StepDecision>)
    ensures RecordUnresolved(db, run, s, c, steps).market == db.market
    ensures RecordUnresolved(db, run, s, c, steps).watermarks == db.watermarks
  {
  }

  lemma {:induction false} CommitMovesOn(db: Db, catalog: Catalog, run: int, items: seq<Item>, mode: Mode)
    ensures RunsMoveOn(db, CommitAcquired(db, catalog, run, items, mode))
  {
    hide Committable, Written, Advanced;
  }

  lemma {:induction false} IncrementalMovesOn(db: Db, catalog: Catalog, run: int, items: seq<Item>, now: int)
    requires db.IsRunning(run)
    ensures RunsMoveOn(db, RunIncremental(db, catalog, run, items, now))
  {
    hide GateOf, CommitAcquired, OpenEvents, AppendSteps;
    CommitMovesOn(db, catalog, run, items, Incrementally);
  }

  lemma {:induction false} BoundedMovesOn(db: Db, catalog: Catalog, run: int, s: Series,
      chart: int -> seq<Bar>, approved: Option<int>)
    requires db.IsRunning(run)
    ensures RunsMoveOn(db, RunBounded(db, catalog, run, s, chart, approved))
  {
    hide RevisionState, View, Decisions, Found, BoundedCommittable, PlaceEvent, Written,
      RevisedWatermark, MarkApplied;
  }

  lemma {:induction false} FailureMovesOn(db: Db, run: int, code: string, failed: set<int>,
      detection: Option<Detection>)
    requires db.IsRunning(run)
    ensures RunsMoveOn(db, RecordFailure(db, run, code, failed, detection))
  {
  }

  /** No transaction forgets a run or touches a finished one. */
  lemma {:induction false} StepMovesRunsOn(db: Db, catalog: Catalog, txn: Txn)
    ensures RunsMoveOn(db, Step(db, catalog, txn))
  {
    hide RunIncremental, RunBounded, RecordFailure, CommitAcquired, RefetchAllowed;
    if Performable(db, txn) {
      match txn
      case Incremental(run, items, now) => IncrementalMovesOn(db, catalog, run, items, now);
      case FullRefetch(run, item, rejected) => CommitMovesOn(db, catalog, run, [item], Refetching(item.inst));
      case Onboard(run, item) => CommitMovesOn(db, catalog, run, [item], Bootstrapping);
      case Bounded(run, s, chart, approved) => BoundedMovesOn(db, catalog, run, s, chart, approved);
      case Failure(run, code, failed, detection) => FailureMovesOn(db, run, code, failed, detection);
      case StartRun(_, _, _) =>
      case ReviewEvent(_, _) =>
    }
  }

  // ---- The log ----

  /** The rows one run left in the log. */
  function RowsOfRun(raw: Raw, run: int): map<Key, Bar> {
    map k | k in (set rk | rk in raw && rk.run == run :: rk.key) :: raw[RawKey(run, k)]
  }

  /** The curated rows rebuilt from nothing but the commits and the log. */
  function Replay(commits: seq<Commit>, raw: Raw): Curated {
    if commits == [] then map[]
    else
      var last := commits[|commits| - 1];
      ApplyCommit(last, Replay(commits[..|commits| - 1], raw), RowsOfRun(raw, last.run))
  }

  lemma {:induction false} ReplayIgnoresOtherRuns(commits: seq<Commit>, raw: Raw, run: int, rows: map<Key, Bar>)
    requires forall c :: c in commits ==> c.run != run
    ensures Replay(commits, raw + RawRows(run, rows)) == Replay(commits, raw)
  {
    if commits != [] {
      var n := |commits| - 1;
      hide ApplyCommit, RawRows;
      ReplayIgnoresOtherRuns(commits[..n], raw, run, rows);
      assert commits[n] in commits;
      OtherRunsRows(raw, run, rows, commits[n].run);
    }
  }

  lemma {:induction false} OtherRunsRows(raw: Raw, run: int, rows: map<Key, Bar>, other: int)
    requires other != run
    ensures RowsOfRun(raw + RawRows(run, rows), other) == RowsOfRun(raw, other)
  {
  }

  lemma {:induction false} OwnRows(raw: Raw, run: int, rows: map<Key, Bar>)
    requires forall rk :: rk in raw ==> rk.run != run
    ensures RowsOfRun(raw + RawRows(run, rows), run) == rows
  {
    var grown := raw + RawRows(run, rows);
    forall k ensures RawKey(run, k) in grown <==> k in rows { }
    assert forall k :: k in RowsOfRun(grown, run) <==> RawKey(run, k) in grown;
  }

  /** Every curated row names a run whose log row at the same key carries the same values. */
  ghost predicate Backed(curated: Curated, raw: Raw) {
    forall k :: k in curated ==>
      RawKey(curated[k].run, k) in raw && curated[k] == CuratedRow(curated[k].run, raw[RawKey(curated[k].run, k)])
  }

  /** A replay is backed by the log, whatever the commits. */
  lemma {:induction false} ReplayIsBacked(commits: seq<Commit>, raw: Raw)
    ensures Backed(Replay(commits, raw), raw)
  {
    if commits != [] {
      var last := commits[|commits| - 1];
      ReplayIsBacked(commits[..|commits| - 1], raw);
      ApplyKeepsBacked(last, Replay(commits[..|commits| - 1], raw), raw);
    }
  }

  lemma {:induction false} ApplyKeepsBacked(c: Commit, curated: Curated, raw: Raw)
    requires Backed(curated, raw)
    ensures Backed(ApplyCommit(c, curated, RowsOfRun(raw, c.run)), raw)
  {
    var rows := RowsOfRun(raw, c.run);
    assert forall k :: k in rows ==> RawKey(c.run, k) in raw && rows[k] == raw[RawKey(c.run, k)];
    var after := ApplyCommit(c, curated, rows);
    forall k | k in after
      ensures RawKey(after[k].run, k) in raw && after[k] == CuratedRow(after[k].run, raw[RawKey(after[k].run, k)])
    {
      if k in Taken(c, rows) {
        assert after[k] == CuratedRow(c.run, rows[k]);
      } else {
        assert k in curated && after[k] == curated[k];
      }
    }
  }

  // ---- The invariant ----

  /** Only finished, successful runs have rows in the log or stand in the commit list. */
  ghost predicate LogIsSettled(db: Db) {
    && (forall rk :: rk in db.market.raw ==> rk.run in db.runs && db.runs[rk.run].status == Passed)
    && (forall c :: c in db.market.commits ==> c.run in db.runs && db.runs[c.run].status == Passed)
  }

  ghost predicate PricesAreValid(curated: Curated) { forall k :: k in curated ==> curated[k].content.ohlc.Valid() }

  /** Both derived tables are what a rebuild of every instrument from the curated rows would give. */
  ghost predicate DerivedIsFresh(m: Market, catalog: Catalog) {
    && Current(m.fourHour, DERIVATION_VERSION) == FromScratch(FourHours, m.curated, catalog)
    && Current(m.daily, DERIVATION_VERSION) == FromScratch(Days, m.curated, catalog)
  }

  ghost predicate Inv(db: Db, catalog: Catalog) {
    && LogIsSettled(db)
    && db.market.curated == Replay(db.market.commits, db.market.raw)
    && PricesAreValid(db.market.curated)
    && DerivedIsFresh(db.market, catalog)
  }

  lemma {:induction false} WriteKeepsLog(db: Db, catalog: Catalog, after: Db, w: Write)
    requires LogIsSettled(db) && Writes(db, catalog, after, w) && RunsMoveOn(db, after)
    ensures LogIsSettled(after)
  {
  }

  lemma {:induction false} WriteKeepsReplay(db: Db, catalog: Catalog, w: Write)
    requires LogIsSettled(db) && db.IsRunning(w.commit.run)
    requires db.market.curated == Replay(db.market.commits, db.market.raw)
    ensures var m := Written(db.market, catalog, w.commit, w.staged, w.scope);
      m.curated == Replay(m.commits, m.raw)
  {
    hide Rebuilt, ApplyCommit;
    var commits, raw := db.market.commits, db.market.raw;
    ReplayIgnoresOtherRuns(commits, raw, w.commit.run, w.staged);
    OwnRows(raw, w.commit.run, w.staged);
    assert (commits + [w.commit])[..|commits|] == commits;
  }

  lemma {:induction false} WriteKeepsPrices(m: Market, catalog: Catalog, w: Write)
    requires PricesAreValid(m.curated) && Accepts(m, catalog, w.commit, w.staged, w.scope)
    ensures PricesAreValid(ApplyCommit(w.commit, m.curated, w.staged))
  {
  }

  /** Outside its scope a write changes no curated row. */
  lemma {:induction false} WriteIsConfined(curated: Curated, w: Write)
    requires Confined(w)
    ensures Outside(w.scope, ApplyCommit(w.commit, curated, w.staged)) == Outside(w.scope, curated)
  {
  }

  lemma {:induction false} WriteKeepsDerived(m: Market, catalog: Catalog, w: Write)
    requires Confined(w) && DerivedIsFresh(m, catalog)
    ensures DerivedIsFresh(Written(m, catalog, w.commit, w.staged, w.scope), catalog)
  {
    hide Rebuilt, FromScratch, Current, ApplyCommit;
    WriteIsConfined(m.curated, w);
    var after := ApplyCommit(w.commit, m.curated, w.staged);
    ScopedRebuildEqualsFullRebuild(FourHours, m.fourHour, DERIVATION_VERSION, m.curated, after, catalog, w.scope);
    ScopedRebuildEqualsFullRebuild(Days, m.daily, DERIVATION_VERSION, m.curated, after, catalog, w.scope);
  }

  lemma {:induction false} StepKeepsInvariant(db: Db, catalog: Catalog, txn: Txn)
    requires Inv(db, catalog)
    ensures Inv(Step(db, catalog, txn), catalog)
  {
    hide Step, Written, Confined, Accepts, DerivedIsFresh, PricesAreValid, Replay;
    var after := Step(db, catalog, txn);
    var w := StepWrites(db, catalog, txn);
    StepMovesRunsOn(db, catalog, txn);
    if w.Some? {
      WriteKeepsLog(db, catalog, after, w.value);
      WriteKeepsReplay(db, catalog, w.value);
      WriteKeepsPrices(db.market, catalog, w.value);
      WriteKeepsDerived(db.market, catalog, w.value);
      WrittenCurated(db.market, catalog, w.value);
    }
  }

  lemma {:induction false} WrittenCurated(m: Market, catalog: Catalog, w: Write)
    ensures Written(m, catalog, w.commit, w.staged, w.scope).curated == ApplyCommit(w.commit, m.curated, w.staged)
  {
  }

  lemma {:induction false} EmptyStoreIsConsistent(catalog: Catalog)
    ensures Inv(EMPTY, catalog)
  {
  }

  /**
   Over any run of transactions from the empty store: the curated rows are the replay of the commits over the
   log, every one backed by the run it names, its prices valid, and both derived tables equal a full rebuild.
   */
  lemma {:induction false} EveryRunIsConsistent(catalog: Catalog, txns: seq<Txn>)
    ensures var db := RunAll(EMPTY, catalog, txns);
      Inv(db, catalog) && Backed(db.market.curated, db.market.raw)
  {
    hide Step, Inv, Backed;
    InvariantHolds(catalog, txns);
    var db := RunAll(EMPTY, catalog, txns);
    InvariantIsBacked(db, catalog);
  }

  lemma {:induction false} InvariantIsBacked(db: Db, catalog: Catalog)
    requires Inv(db, catalog)
    ensures Backed(db.market.curated, db.market.raw)
  {
    ReplayIsBacked(db.market.commits, db.market.raw);
  }

  lemma {:induction false} InvariantHolds(catalog: Catalog, txns: seq<Txn>)
    ensures Inv(RunAll(EMPTY, catalog, txns), catalog)
  {
    hide Step, Inv;
    if txns == [] {
      EmptyStoreIsConsistent(catalog);
    } else {
      InvariantHolds(catalog, txns[..|txns| - 1]);
      StepKeepsInvariant(RunAll(EMPTY, catalog, txns[..|txns| - 1]), catalog, txns[|txns| - 1]);
    }
  }

  // ---- The log only grows ----

  ghost predicate Extends(after: Raw, before: Raw) {
    forall rk :: rk in before ==> rk in after && after[rk] == before[rk]
  }

  lemma {:induction false} StepGrowsLog(db: Db, catalog: Catalog, txn: Txn)
    ensures Extends(Step(db, catalog, txn).market.raw, db.market.raw)
    ensures db.market.commits <= Step(db, catalog, txn).market.commits
  {
    hide Step, Rebuilt, ApplyCommit, DerivedKeysFit, Confined;
    var w := StepWrites(db, catalog, txn);
    if w.Some? {
      GrownLog(db.market.raw, w.value.commit.run, w.value.staged);
    }
  }

  lemma {:induction false} GrownLog(raw: Raw, run: int, staged: map<Key, Bar>)
    requires RawAccepts(raw, run, staged)
    ensures Extends(raw + RawRows(run, staged), raw)
  {
  }

  /** No row of the log is ever changed or removed, and no commit is ever taken back. */
  lemma {:induction false} LogOnlyGrows(db: Db, catalog: Catalog, txns: seq<Txn>)
    ensures Extends(RunAll(db, catalog, txns).market.raw, db.market.raw)
    ensures db.market.commits <= RunAll(db, catalog, txns).market.commits
  {
    hide Step;
    if txns != [] {
      LogOnlyGrows(db, catalog, txns[..|txns| - 1]);
      StepGrowsLog(RunAll(db, catalog, txns[..|txns| - 1]), catalog, txns[|txns| - 1]);
    }
  }

  // ---- What a commit leaves alone ----

  /** Curated rows and derived bars of other instruments, and derived bars of other versions, are untouched. */
  lemma {:induction false} OtherInstrumentsAreUntouched(db: Db, catalog: Catalog, txn: Txn) returns (w: Option<Write>)
    ensures var after := Step(db, catalog, txn);
      && (w.None? ==> after.market == db.market)
      && (w.Some? ==>
            && Outside(w.value.scope, after.market.curated) == Outside(w.value.scope, db.market.curated)
            && SameOutside(after.market.fourHour, db.market.fourHour, w.value.scope)
            && SameOutside(after.market.daily, db.market.daily, w.value.scope))
  {
    hide Step, Rebuilt, ApplyCommit, Accepts;
    w := StepWrites(db, catalog, txn);
    if w.Some? {
      WriteIsConfined(db.market.curated, w.value);
      var curated := ApplyCommit(w.value.commit, db.market.curated, w.value.staged);
      RebuildStaysInScope(FourHours, db.market.fourHour, curated, catalog, w.value.scope);
      RebuildStaysInScope(Days, db.market.daily, curated, catalog, w.value.scope);
    }
  }

  ghost predicate SameOutside(after: Table, before: Table, scope: Scope) {
    forall s: Derive.StoredBar :: s.version != DERIVATION_VERSION || !scope.Has(s.bar.inst) ==>
        (s in after <==> s in before)
  }

  lemma {:induction false} RebuildStaysInScope(level: Level, table: Table, curated: Curated, catalog: Catalog,
      scope: Scope)
    ensures SameOutside(Rebuilt(level, table, DERIVATION_VERSION, curated, catalog, scope), table, scope)
  {
  }

  // ---- The derived tables of a store that has run ----

  /** Every derived bar of a reachable store has valid prices. */
  lemma {:induction false} DerivedPricesAreValid(catalog: Catalog, txns: seq<Txn>, b: Derived)
    requires var m := RunAll(EMPTY, catalog, txns).market;
      b in Current(m.fourHour, DERIVATION_VERSION) || b in Current(m.daily, DERIVATION_VERSION)
    ensures b.ohlc.Valid()
  {
    hide RunAll, Current, FromScratch, Replay, LogIsSettled;
    InvariantHolds(catalog, txns);
    var m := RunAll(EMPTY, catalog, txns).market;
    if b in FromScratch(FourHours, m.curated, catalog) {
      RollUp.StoredBarsAreValid(FourHours, m.curated, catalog, b);
    } else {
      RollUp.StoredBarsAreValid(Days, m.curated, catalog, b);
    }
  }

  /**
   In a reachable store the daily bar of a session that has its date to itself is stored, the 4-hour bars of the
   session are stored, and the daily bar is their roll-up.
   */
  lemma {:induction false} StoredSessionsRollUp(catalog: Catalog, txns: seq<Txn>, inst: int, basis: Basis, iv: Interval)
    requires var rows := Join(RunAll(EMPTY, catalog, txns).market.curated, catalog, AllInstruments);
      RollUp.SoleInterval(rows, inst, iv) && RollUp.Session(rows, inst, basis, iv) != {}
    ensures var m := RunAll(EMPTY, catalog, txns).market;
      var rows := Join(m.curated, catalog, AllInstruments);
      var s, v := RollUp.Session(rows, inst, basis, iv), VerificationOf(catalog, inst);
      && RollUp.IsSession(s, iv) && OneSeries(s)
      && RollUp.DayBar(s, inst, basis, iv, v) in Current(m.daily, DERIVATION_VERSION)
      && (forall b :: RollUp.InBucket(s, iv, b) != {} ==>
            RollUp.BucketBar(s, inst, basis, iv, v, b) in Current(m.fourHour, DERIVATION_VERSION))
      && RollUp.RollsUp(RollUp.DayBar(s, inst, basis, iv, v), RollUp.BarsOfSession(s, inst, basis, iv, v),
          RollUp.Buckets(iv))
  {
    hide RunAll, Current, FromScratch, Replay, LogIsSettled, RollUp.RollsUp, RollUp.BucketBar, RollUp.DayBar,
        RollUp.InBucket,
      RollUp.Session, RollUp.SoleInterval, RollUp.BarsOfSession, RollUp.Buckets, Join, RollUp.IsSession;
    InvariantHolds(catalog, txns);
    RollUp.StoredDaysAreRolledUp(RunAll(EMPTY, catalog, txns).market.curated, catalog, inst, basis, iv);
  }
}
