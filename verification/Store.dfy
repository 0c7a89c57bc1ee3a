/**
 The bar store and its transactions. Every transaction is atomic: where the code would raise inside one,
 the market tables stay as they were and only the run is marked.
 */
module Store {
  import opened Sets
  import opened Types
  import opened Derive
  import Quarantine
  import Revision

  const DERIVATION_VERSION := "db3_accepted_1h_calendar_v1"
  const FULL_REFETCH_TRIGGER := "manual_db3_full_refetch"
  const BOUNDED_TRIGGERS := {"manual_db3_bounded_revision", "manual_db3_approved_revision_apply"}
  const STALE_CODES := {"BLOCKED_FULL_REFETCH_REQUIRED", "BLOCKED_BOUNDED_REVISION_REQUIRED"}

  // ---- Rows ----

  datatype Series = Series(inst: int, basis: Basis)

  datatype RawKey = RawKey(run: int, key: Key)

  /** The append-only log: what every run observed. */
  type Raw = map<RawKey, Bar>

  /** How a run changed the curated rows: by upsert, by replacing an instrument, or by replacing a range. */
  datatype Commit =
    | Upserted(run: int)
    | Replaced(run: int, inst: int)
    | Patched(run: int, inst: int, range: Revision.Range)

  datatype Market = Market(raw: Raw, curated: Curated, fourHour: Table, daily: Table, commits: seq<Commit>)

  datatype DataStatus = Active | StaleDataVersion

  datatype Watermark = Watermark(latestSeen: int, latestComplete: int, version: Option<int>, lastRun: int,
      status: DataStatus)

  datatype RunStatus = Running | Passed | Failed | Blocked

  datatype RunRow = RunRow(trigger: string, status: RunStatus, scope: set<Series>)

  datatype EventStatus = Detected | Discovering | ReviewPending | ReadyToApply | Applied | BlockedFullRefetch

  datatype Policy = BoundedReconciliationV1 | RevisionWarningV2

  datatype ReviewStatus = LegacyState | PendingReview | ReviewedKeepCurrent | ApplyApproved | ReviewApplied

  datatype StepDecision = WarningRecorded | Compared(decision: Revision.Decision)

  datatype Event = Event(series: Series, oldVersion: int, newVersion: int, status: EventStatus, policy: Policy,
    review: ReviewStatus, affected: Option<Revision.Range>, steps: map<int, StepDecision>)
  {
    predicate Open() { status in {Detected, Discovering, ReviewPending, ReadyToApply} }
  }

  datatype Db = Db(market: Market, watermarks: map<Series, Watermark>, runs: map<int, RunRow>,
    events: map<int, Event>, nextEvent: int)
  {
    predicate IsRunning(run: int) { run in runs && runs[run].status == Running }

    /** UPDATE ops.ingestion_run ... WHERE status='RUNNING'. */
    function Finish(run: int, status: RunStatus): Db {
      if IsRunning(run) then this.(runs := runs[run := runs[run].(status := status)]) else this
    }
  }

  const EMPTY := Db(Market(map[], map[], {}, {}, []), map[], map[], map[], 1)

  // ---- Staging ----

  /** What a run acquired for one instrument. */
  datatype Item = Item(inst: int, basis: Basis, bars: seq<Bar>) {
    function SeriesKey(): Series { Series(inst, basis) }
  }

  datatype StagedRow = StagedRow(key: Key, bar: Bar)

  function RowsOf(item: Item): seq<StagedRow> {
    seq(|item.bars|, i requires 0 <= i < |item.bars| =>
      StagedRow(Key(item.inst, item.bars[i].time, item.bars[i].basis), item.bars[i]))
  }

  function StagedRows(items: seq<Item>): seq<StagedRow> {
    if items == [] then [] else StagedRows(items[..|items| - 1]) + RowsOf(items[|items| - 1])
  }

  /** The primary key of the staging table. */
  predicate DistinctRows(rows: seq<StagedRow>) {
    forall i, j :: 0 <= i < j < |rows| ==> rows[i].key != rows[j].key
  }

  function Staging(rows: seq<StagedRow>): map<Key, Bar> {
    if rows == [] then map[] else Staging(rows[..|rows| - 1])[rows[|rows| - 1].key := rows[|rows| - 1].bar]
  }

  function InstrumentsOf(items: seq<Item>): Scope { Only(set item | item in items :: item.inst) }

  // ---- Writing the market tables ----

  function CuratedRow(run: int, bar: Bar): Row {
    var quality := if bar.content.isComplete then QualityPass else NotEvaluated;
    Row(bar.content, bar.dataVersion, run, bar.retrievedAt, quality)
  }

  function CuratedRows(run: int, staged: map<Key, Bar>): Curated { map k | k in staged :: CuratedRow(run, staged[k]) }

  function RawRows(run: int, staged: map<Key, Bar>): Raw {
    map rk | rk in (set k | k in staged :: RawKey(run, k)) :: staged[rk.key]
  }

  function InRangeOf(staged: map<Key, Bar>, range: Revision.Range): map<Key, Bar> {
    map k | k in staged && range.Has(k.time) :: staged[k]
  }

  function Without(curated: Curated, inst: int): Curated { map k | k in curated && k.inst != inst :: curated[k] }

  function WithoutRange(curated: Curated, inst: int, range: Revision.Range): Curated {
    map k | k in curated && !(k.inst == inst && range.Has(k.time)) :: curated[k]
  }

  /** The rows of a run that a commit puts into the curated table. */
  function Taken(commit: Commit, staged: map<Key, Bar>): map<Key, Bar> {
    if commit.Patched? then InRangeOf(staged, commit.range) else staged
  }

  /** The curated rows a commit leaves in place before it writes its own. */
  function Cleared(commit: Commit, curated: Curated): Curated {
    match commit
    case Upserted(_) => curated
    case Replaced(_, inst) => Without(curated, inst)
    case Patched(_, inst, range) => WithoutRange(curated, inst, range)
  }

  function ApplyCommit(commit: Commit, curated: Curated, staged: map<Key, Bar>): Curated {
    Cleared(commit, curated) + CuratedRows(commit.run, Taken(commit, staged))
  }

  function Written(m: Market, catalog: Catalog, commit: Commit, staged: map<Key, Bar>, scope: Scope): Market {
    var curated := ApplyCommit(commit, m.curated, staged);
    Market(m.raw + RawRows(commit.run, staged), curated,
      Rebuilt(FourHours, m.fourHour, DERIVATION_VERSION, curated, catalog, scope),
      Rebuilt(Days, m.daily, DERIVATION_VERSION, curated, catalog, scope),
      m.commits + [commit])
  }

  /** Both derived tables accept the groups of these instruments: no two groups share a primary key. */
  predicate DerivedKeysFit(curated: Curated, catalog: Catalog, scope: Scope) {
    JoinShape(curated, catalog, scope);
    DistinctKeys(FourHours, Join(curated, catalog, scope)) && DistinctKeys(Days, Join(curated, catalog, scope))
  }

  predicate RawAccepts(raw: Raw, run: int, staged: map<Key, Bar>) { forall k :: k in staged ==> RawKey(run, k) !in raw }

  /** The CHECK constraints of the curated table. */
  predicate PricesValid(staged: map<Key, Bar>) { forall k :: k in staged ==> staged[k].content.ohlc.Valid() }

  /** No constraint of a market table rejects the write. */
  predicate Accepts(m: Market, catalog: Catalog, commit: Commit, staged: map<Key, Bar>, scope: Scope) {
    && RawAccepts(m.raw, commit.run, staged)
    && PricesValid(Taken(commit, staged))
    && DerivedKeysFit(ApplyCommit(commit, m.curated, staged), catalog, scope)
  }

  // ---- Incremental, full-refetch and first commits ----

  datatype Mode = Incrementally | Refetching(inst: int) | Bootstrapping

  predicate IsStale(watermarks: map<Series, Watermark>, s: Series) {
    s in watermarks && watermarks[s].status == StaleDataVersion
  }

  /** The guard inside prepare_full_refetch. */
  predicate RefetchGuard(db: Db, run: int, inst: int) {
    && db.IsRunning(run) && db.runs[run].trigger == FULL_REFETCH_TRIGGER
    && (IsStale(db.watermarks, Series(inst, NativeOhlc)) || IsStale(db.watermarks, Series(inst, BidAskMid)))
  }

  function TimesSeen(bars: seq<Bar>): set<int> { set b | b in bars :: b.time }

  function TimesComplete(bars: seq<Bar>): set<int> { set b | b in bars && b.content.isComplete :: b.time }

  predicate HasCompleteBar(item: Item) { TimesSeen(item.bars) != {} && TimesComplete(item.bars) != {} }

  /** The first version any bar carries. */
  function FirstVersion(bars: seq<Bar>): Option<int> {
    if bars == [] then None
    else if bars[0].dataVersion.Some? then bars[0].dataVersion
    else FirstVersion(bars[1..])
  }

  function WatermarkOf(run: int, item: Item): Watermark
    requires HasCompleteBar(item)
  {
    Watermark(Max(TimesSeen(item.bars)), Max(TimesComplete(item.bars)), FirstVersion(item.bars), run, Active)
  }

  function Advanced(watermarks: map<Series, Watermark>, run: int, items: seq<Item>): map<Series, Watermark>
    requires forall item :: item in items ==> HasCompleteBar(item)
  {
    if items == [] then watermarks
    else
      var last := items[|items| - 1];
      Advanced(watermarks, run, items[..|items| - 1])[last.SeriesKey() := WatermarkOf(run, last)]
  }

  function CommitOf(run: int, mode: Mode): Commit {
    if mode.Refetching? then Replaced(run, mode.inst) else Upserted(run)
  }

  /** Nothing in the commit transaction raises. */
  predicate Committable(db: Db, catalog: Catalog, run: int, items: seq<Item>, mode: Mode) {
    && db.IsRunning(run)
    && DistinctRows(StagedRows(items))
    && (mode.Refetching? ==> RefetchGuard(db, run, mode.inst))
    && Accepts(db.market, catalog, CommitOf(run, mode), Staging(StagedRows(items)), InstrumentsOf(items))
    && (forall item :: item in items ==> HasCompleteBar(item))
    && (forall item :: item in items ==> (item.SeriesKey() in db.watermarks <==> !mode.Bootstrapping?))
  }

  function Committed(db: Db, catalog: Catalog, run: int, items: seq<Item>, mode: Mode): Db
    requires Committable(db, catalog, run, items, mode)
  {
    db.(market := Written(db.market, catalog, CommitOf(run, mode), Staging(StagedRows(items)), InstrumentsOf(items)),
        watermarks := Advanced(db.watermarks, run, items)).Finish(run, Passed)
  }

  function CommitAcquired(db: Db, catalog: Catalog, run: int, items: seq<Item>, mode: Mode): Db {
    if Committable(db, catalog, run, items, mode) then Committed(db, catalog, run, items, mode)
    else db.Finish(run, Failed)
  }

  // ---- Counts reported by a commit ----

  function InsertedKeys(curated: Curated, staged: map<Key, Bar>): set<Key> { staged.Keys - curated.Keys }

  /** Existing rows whose values or data version the staged rows change. */
  function UpdatedKeys(curated: Curated, staged: map<Key, Bar>): set<Key> {
    set k | k in staged && k in curated
      && (curated[k].content != staged[k].content || curated[k].dataVersion != staged[k].dataVersion)
  }

  /** Rows of the instrument that an authoritative response no longer holds. */
  function RemovedKeys(curated: Curated, staged: map<Key, Bar>, inst: int): set<Key> {
    set k | k in curated && k.inst == inst && k !in staged
  }

  datatype Counts = Counts(inserted: nat, updated: nat, removed: nat)

  function CountsOf(curated: Curated, staged: map<Key, Bar>, mode: Mode): Counts {
    Counts(|InsertedKeys(curated, staged)|, |UpdatedKeys(curated, staged)|,
      if mode.Refetching? then |RemovedKeys(curated, staged, mode.inst)| else 0)
  }

  // ---- The incremental gate ----

  datatype Gate = Proceed | Warn(series: Series, oldVersion: int, newVersion: int) | Refuse(blocked: bool)

  function GateItem(watermarks: map<Series, Watermark>, item: Item, now: int): Gate
    requires item.SeriesKey() in watermarks
  {
    var versions := Revision.Versions(item.bars);
    var known := watermarks[item.SeriesKey()].version;
    if |item.bars| < 2 || TimesComplete(item.bars) == {} then Refuse(false)
    else if |versions| > 1 then Refuse(false)
    else if exists b :: b in item.bars && b.content.isComplete && b.time > now then Refuse(false)
    else if known.Some? && versions != {} && Min(versions) != known.value then
      Warn(item.SeriesKey(), known.value, Min(versions))
    else Proceed
  }

  /** The first instrument that does not pass decides. */
  function GateFrom(watermarks: map<Series, Watermark>, items: seq<Item>, now: int): Gate
    requires forall item :: item in items ==> item.SeriesKey() in watermarks
  {
    if items == [] then Proceed
    else
      var first := GateItem(watermarks, items[0], now);
      if first.Proceed? then GateFrom(watermarks, items[1..], now) else first
  }

  /** Only series with an ACTIVE watermark have a state to start from. */
  predicate AllActive(watermarks: map<Series, Watermark>, items: seq<Item>) {
    forall item :: item in items ==> item.SeriesKey() in watermarks && watermarks[item.SeriesKey()].status == Active
  }

  function GateOf(watermarks: map<Series, Watermark>, items: seq<Item>, now: int): Gate {
    if AllActive(watermarks, items) then GateFrom(watermarks, items, now) else Refuse(true)
  }

  // ---- Revision events ----

  function OpenEvents(events: map<int, Event>, s: Series, version: int): set<int> {
    set id | id in events && events[id].series == s && events[id].newVersion == version && events[id].Open()
  }

  function LastStep(steps: map<int, StepDecision>): int {
    if steps.Keys == {} then 0 else Max(steps.Keys)
  }

  function Numbered(offset: int, decisions: seq<StepDecision>): map<int, StepDecision> {
    if decisions == [] then map[]
    else
      var n := |decisions|;
      Numbered(offset, decisions[..n - 1])[offset + n := decisions[n - 1]]
  }

  /** New steps are numbered after the last existing one. */
  function AppendSteps(e: Event, decisions: seq<StepDecision>): Event {
    e.(steps := e.steps + Numbered(LastStep(e.steps), decisions))
  }

  function RecordWarning(db: Db, run: int, s: Series, oldVersion: int, newVersion: int): Db
    requires db.IsRunning(run)
  {
    var open := OpenEvents(db.events, s, newVersion);
    var mine := set id | id in open && db.events[id].policy == RevisionWarningV2
        && db.events[id].status == ReviewPending;
    if s !in db.runs[run].scope then db.Finish(run, Failed)
    else if open == {} then
      var e := Event(s, oldVersion, newVersion, ReviewPending, RevisionWarningV2, PendingReview, None, map[]);
      db.(events := db.events[db.nextEvent := AppendSteps(e, [WarningRecorded])], nextEvent := db.nextEvent + 1)
        .Finish(run, Passed)
    else if mine == {} then db.Finish(run, Failed)
    else
      var id := Min(mine);
      db.(events := db.events[id := AppendSteps(db.events[id], [WarningRecorded])]).Finish(run, Passed)
  }

  function RunIncremental(db: Db, catalog: Catalog, run: int, items: seq<Item>, now: int): Db
    requires db.IsRunning(run)
  {
    match GateOf(db.watermarks, items, now)
    case Refuse(blocked) => db.Finish(run, if blocked then Blocked else Failed)
    case Warn(s, from, to) => RecordWarning(db, run, s, from, to)
    case Proceed => CommitAcquired(db, catalog, run, items, Incrementally)
  }

  // ---- Full refetch and onboarding ----

  function KeysOf(curated: Curated, s: Series): set<int> {
    set k | k in curated && k.inst == s.inst && k.basis == s.basis :: k.time
  }

  /** A refetch must reach back to the oldest stored row, carry one data version, and pass the quarantine. */
  predicate RefetchAllowed(db: Db, item: Item, rejected: seq<Quarantine.Rejected>) {
    var s := item.SeriesKey();
    var existing := KeysOf(db.market.curated, s);
    var observed := TimesSeen(item.bars) + Quarantine.RejectedTimes(rejected);
    var versions := Revision.Versions(item.bars) + (set r | r in rejected && r.version.Some? :: r.version.value);
    && IsStale(db.watermarks, s) && existing != {}
    && Quarantine.Quarantinable(TimesSeen(item.bars), rejected)
    && |item.bars| >= 2 && observed != {} && Min(observed) <= Min(existing)
    && |versions| == 1
  }

  /** Refusals over the state of the series or the reach of the history block the run; the others fail it. */
  function RefetchRefusal(db: Db, item: Item, rejected: seq<Quarantine.Rejected>): RunStatus {
    var existing := KeysOf(db.market.curated, item.SeriesKey());
    var observed := TimesSeen(item.bars) + Quarantine.RejectedTimes(rejected);
    if !IsStale(db.watermarks, item.SeriesKey()) || existing == {} then Blocked
    else if !Quarantine.Quarantinable(TimesSeen(item.bars), rejected) then Failed
    else if |item.bars| < 2 || observed == {} || Min(observed) > Min(existing) then Blocked
    else Failed
  }

  function RunFullRefetch(db: Db, catalog: Catalog, run: int, item: Item, rejected: seq<Quarantine.Rejected>): Db
    requires db.IsRunning(run)
  {
    if RefetchAllowed(db, item, rejected) then CommitAcquired(db, catalog, run, [item], Refetching(item.inst))
    else db.Finish(run, RefetchRefusal(db, item, rejected))
  }

  function RunOnboarding(db: Db, catalog: Catalog, run: int, item: Item): Db
    requires db.IsRunning(run)
  {
    if |item.bars| < 2 then db.Finish(run, Blocked) else CommitAcquired(db, catalog, run, [item], Bootstrapping)
  }

  // ---- Bounded revisions ----

  /** The curated rows of one series, as the comparison reads them. */
  function View(curated: Curated, s: Series): Revision.Stored {
    map t | t in KeysOf(curated, s) ::
        Revision.StoredBar(curated[Key(s.inst, t, s.basis)].content, curated[Key(s.inst, t, s.basis)].dataVersion)
  }

  /** The state a bounded revision starts from; None where loading it is refused. */
  function RevisionState(db: Db, s: Series, approved: Option<int>): Option<int> {
    if s !in db.watermarks || db.watermarks[s].version.None? then None
    else if approved.None? then
      if db.watermarks[s].status == StaleDataVersion then db.watermarks[s].version else None
    else if approved.value !in db.events then None
    else
      var e := db.events[approved.value];
      if e.series == s && db.watermarks[s].status == Active && db.watermarks[s].version == Some(e.oldVersion)
        && e.status == ReviewPending && e.policy == RevisionWarningV2 && e.review == ApplyApproved
      then db.watermarks[s].version else None
  }

  /** The affected range, or the last row of the window when nothing is affected. */
  function ApplyRange(c: Revision.Comparison): Revision.Range {
    if c.affected.Some? then c.affected.value else Revision.Range(c.compared.last, c.compared.last)
  }

  /** The recorded steps are the comparisons made. */
  function Decisions(steps: seq<Revision.Comparison>): seq<StepDecision> {
    seq(|steps|, i requires 0 <= i < |steps| => Compared(steps[i].decision))
  }

  datatype Placed = Placed(events: map<int, Event>, id: int, nextEvent: int)

  /** The approved event, else the open event of this version, else a new event. */
  function PlaceEvent(db: Db, s: Series, c: Revision.Comparison, status: EventStatus, steps: seq<StepDecision>,
      approved: Option<int>)
    : Option<Placed>
  {
    var undecided := set id | id in OpenEvents(db.events, s, c.newVersion) && db.events[id].status != ReviewPending;
    if approved.Some? then
      if approved.value in db.events && Approves(db.events[approved.value], s, c)
      then Some(Placed(UpdatedEvent(db.events, approved.value, c, status, steps), approved.value, db.nextEvent))
      else None
    else if undecided != {} then
      Some(Placed(UpdatedEvent(db.events, Min(undecided), c, status, steps), Min(undecided), db.nextEvent))
    else if status == ReadyToApply && OpenEvents(db.events, s, c.newVersion) != {} then None
    else
      var e := Event(s, c.oldVersion, c.newVersion, status, BoundedReconciliationV1, LegacyState, c.affected, map[]);
      Some(Placed(db.events[db.nextEvent := AppendSteps(e, steps)], db.nextEvent, db.nextEvent + 1))
  }

  predicate Approves(e: Event, s: Series, c: Revision.Comparison) {
    && e.series == s && e.oldVersion == c.oldVersion && e.newVersion == c.newVersion
    && e.status == ReviewPending && e.policy == RevisionWarningV2 && e.review == ApplyApproved
  }

  function UpdatedEvent(events: map<int, Event>, id: int, c: Revision.Comparison, status: EventStatus,
      steps: seq<StepDecision>)
    : map<int, Event>
    requires id in events
  {
    events[id := AppendSteps(events[id].(oldVersion := c.oldVersion, status := status, affected := c.affected), steps)]
  }

  /** The guard inside prepare_bounded_revision: it compares the event's range, NULL included, with the one passed. */
  predicate BoundedGuard(db: Db, run: int, e: Event, inst: int, range: Revision.Range) {
    && db.IsRunning(run) && db.runs[run].trigger in BOUNDED_TRIGGERS
    && e.status == ReadyToApply && e.series.inst == inst
    && e.affected == Some(range)
    && Series(inst, e.series.basis) in db.watermarks
    && var status := db.watermarks[Series(inst, e.series.basis)].status;
       || (e.policy == BoundedReconciliationV1 && status == StaleDataVersion)
       || (e.policy == RevisionWarningV2 && status == Active && e.review == ApplyApproved)
  }

  function BoundedItem(s: Series, page: seq<Bar>): Item { Item(s.inst, s.basis, page) }

  function BoundedCommit(run: int, s: Series, c: Revision.Comparison): Commit { Patched(run, s.inst, ApplyRange(c)) }

  predicate BoundedCommittable(db: Db, catalog: Catalog, run: int, s: Series, page: seq<Bar>, c: Revision.Comparison,
      steps: seq<StepDecision>, approved: Option<int>)
  {
    var items := [BoundedItem(s, page)];
    var placed := PlaceEvent(db, s, c, ReadyToApply, steps, approved);
    && page != [] && DistinctRows(StagedRows(items))
    && placed.Some? && placed.value.id in placed.value.events
    && BoundedGuard(db, run, placed.value.events[placed.value.id], s.inst, ApplyRange(c))
    && Accepts(db.market, catalog, BoundedCommit(run, s, c), Staging(StagedRows(items)), Only({s.inst}))
    && s in db.watermarks
  }

  function Later(a: int, b: int): int { if a < b then b else a }

  /** GREATEST of the old watermark and the page's; a page without a complete bar moves only latestSeen. */
  function RevisedWatermark(w: Watermark, run: int, page: seq<Bar>, version: int): Watermark
    requires page != []
  {
    assert page[0] in page && page[0].time in TimesSeen(page);
    Watermark(Later(w.latestSeen, Max(TimesSeen(page))),
      if TimesComplete(page) == {} then w.latestComplete else Later(w.latestComplete, Max(TimesComplete(page))),
      Some(version), run, Active)
  }

  function MarkApplied(events: map<int, Event>, id: int): map<int, Event>
    requires id in events
  {
    var e := events[id];
    events[id := e.(status := Applied, review := if e.policy == RevisionWarningV2 then ReviewApplied else e.review)]
  }

  function BoundedApplied(db: Db, catalog: Catalog, run: int, s: Series, page: seq<Bar>, c: Revision.Comparison,
      steps: seq<StepDecision>, approved: Option<int>): Db
    requires BoundedCommittable(db, catalog, run, s, page, c, steps, approved)
  {
    var placed := PlaceEvent(db, s, c, ReadyToApply, steps, approved).value;
    var staged := Staging(StagedRows([BoundedItem(s, page)]));
    db.(market := Written(db.market, catalog, BoundedCommit(run, s, c), staged, Only({s.inst})),
        watermarks := db.watermarks[s := RevisedWatermark(db.watermarks[s], run, page, c.newVersion)],
        events := MarkApplied(placed.events, placed.id), nextEvent := placed.nextEvent).Finish(run, Passed)
  }

  function CommitBounded(db: Db, catalog: Catalog, run: int, s: Series, page: seq<Bar>, c: Revision.Comparison,
      steps: seq<StepDecision>, approved: Option<int>): Db
  {
    if BoundedCommittable(db, catalog, run, s, page, c, steps, approved)
    then BoundedApplied(db, catalog, run, s, page, c, steps, approved)
    else db.Finish(run, Failed)
  }

  function RecordUnresolved(db: Db, run: int, s: Series, c: Revision.Comparison, steps: seq<StepDecision>): Db {
    var placed := PlaceEvent(db, s, c, BlockedFullRefetch, steps, None);
    if placed.None? then db.Finish(run, Failed)
    else db.(events := placed.value.events, nextEvent := placed.value.nextEvent).Finish(run, Blocked)
  }

  /** What the expansion loop of a bounded revision run finds: `chart` answers the windows. */
  function Found(db: Db, s: Series, chart: int -> seq<Bar>, oldVersion: int): (d: Revision.Discovery)
    ensures d.failed.None? ==> d.steps != []
    ensures |d.steps| <= |Revision.WINDOW_COUNTS|
  {
    Revision.Discover(chart, View(db.market.curated, s), oldVersion)
  }

  /** One bounded revision run: widen the window until it decides, then apply the last window or block. */
  function RunBounded(db: Db, catalog: Catalog, run: int, s: Series, chart: int -> seq<Bar>, approved: Option<int>): Db
    requires db.IsRunning(run)
  {
    var state := RevisionState(db, s, approved);
    if state.None? then db
    else
      var d := Found(db, s, chart, state.value);
      if d.failed.Some? then db.Finish(run, Failed)
      else
        var final := d.steps[|d.steps| - 1];
        if final.decision == Revision.ReadyToApply
        then CommitBounded(db, catalog, run, s, Revision.LastPage(chart, d.steps), final, Decisions(d.steps), approved)
        else RecordUnresolved(db, run, s, final, Decisions(d.steps))
  }

  // ---- Failures and reviews ----

  datatype Detection = Detection(oldVersion: int, newVersion: int)

  function FailedScope(scope: set<Series>, failed: set<int>): set<Series> {
    set s | s in scope && (failed == {} || s.inst in failed)
  }

  /** UPDATE ops.watermark SET data_status='STALE_DATA_VERSION' WHERE instrument_id=... */
  function MarkStale(watermarks: map<Series, Watermark>, inst: int): map<Series, Watermark> {
    map s | s in watermarks :: if s.inst == inst then watermarks[s].(status := StaleDataVersion) else watermarks[s]
  }

  function TheSeries(scope: set<Series>): Series
    requires |scope| == 1
  {
    LoneMember(scope);
    var s :| s in scope && forall t :: t in scope ==> t == s;
    s
  }

  function RecordFailure(db: Db, run: int, code: string, failed: set<int>, detection: Option<Detection>): Db
    requires db.IsRunning(run)
  {
    var affected := FailedScope(db.runs[run].scope, failed);
    var status := if "BLOCKED" <= code then Blocked else Failed;
    if code in STALE_CODES && |affected| == 1 then
      var s := TheSeries(affected);
      var marked := db.(watermarks := MarkStale(db.watermarks, s.inst)).Finish(run, status);
      if code != "BLOCKED_BOUNDED_REVISION_REQUIRED" || detection.None? then marked
      else if OpenEvents(db.events, s, detection.value.newVersion) != {} then marked
      else if detection.value.oldVersion == detection.value.newVersion then db
      else
        var e := Event(s, detection.value.oldVersion, detection.value.newVersion, Detected, BoundedReconciliationV1,
            LegacyState, None, map[]);
        marked.(events := db.events[db.nextEvent := e], nextEvent := db.nextEvent + 1)
    else db.Finish(run, status)
  }

  /** A human decision on a pending warning event; it can still be changed while the event keeps the current data. */
  function Review(db: Db, id: int, approve: bool): Db {
    if id in db.events && db.events[id].policy == RevisionWarningV2 && db.events[id].status == ReviewPending
      && db.events[id].review in {PendingReview, ReviewedKeepCurrent}
    then
      var decided := if approve then ApplyApproved else ReviewedKeepCurrent;
      db.(events := db.events[id := db.events[id].(review := decided)])
    else db
  }

  lemma {:induction false} LoneMember(scope: set<Series>)
    requires |scope| == 1
    ensures exists s :: s in scope && forall t :: t in scope ==> t == s
  {
    var s := Member(scope);
    forall t | t in scope ensures t == s {
      if t != s {
        SubsetSize({s, t}, scope);
      }
    }
  }

  // ---- Transactions ----

  datatype Txn =
    | StartRun(run: int, trigger: string, scope: set<Series>)
    | Incremental(run: int, items: seq<Item>, now: int)
    | FullRefetch(run: int, item: Item, rejected: seq<Quarantine.Rejected>)
    | Onboard(run: int, item: Item)
    | Bounded(run: int, series: Series, chart: int -> seq<Bar>, approved: Option<int>)
    | Failure(run: int, code: string, failed: set<int>, detection: Option<Detection>)
    | ReviewEvent(event: int, approve: bool)

  predicate Performable(db: Db, txn: Txn) {
    match txn
    case StartRun(run, _, _) => run !in db.runs
    case ReviewEvent(_, _) => true
    case _ => db.IsRunning(txn.run)
  }

  /** A run acts only while its row says RUNNING; anything else leaves the store alone. */
  function Step(db: Db, catalog: Catalog, txn: Txn): Db {
    if !Performable(db, txn) then db
    else
      match txn
      case StartRun(run, trigger, scope) => db.(runs := db.runs[run := RunRow(trigger, Running, scope)])
      case Incremental(run, items, now) => RunIncremental(db, catalog, run, items, now)
      case FullRefetch(run, item, rejected) => RunFullRefetch(db, catalog, run, item, rejected)
      case Onboard(run, item) => RunOnboarding(db, catalog, run, item)
      case Bounded(run, s, chart, approved) => RunBounded(db, catalog, run, s, chart, approved)
      case Failure(run, code, failed, detection) => RecordFailure(db, run, code, failed, detection)
      case ReviewEvent(id, approve) => Review(db, id, approve)
  }

  function RunAll(db: Db, catalog: Catalog, txns: seq<Txn>): Db {
    if txns == [] then db else Step(RunAll(db, catalog, txns[..|txns| - 1]), catalog, txns[|txns| - 1])
  }
}
