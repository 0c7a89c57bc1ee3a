/** Whole revisions, from the first bar to the decision: applied, refused for ever, or applied too early. */
module RevisionRuns {
  import opened Sets
  import opened Types
  import opened Derive
  import opened Store
  import opened Samples
  import opened SampleRuns
  import Acquisition
  import CommitLaws
  import Revision
  import WatermarkLaws

  const LAST := 3600 * 23

  /** Half past the last hour of the session, or just after the session is proved to be over. */
  function Time(finished: bool): int { if finished then CLOSE + 60 * DELAY else LAST + 1800 }

  /** What an incremental run stores of the last hour. */
  function Observed(finished: bool, last: Content): Content { if finished then last else Open(last) }

  // ---- The runs of the example ----

  const ONBOARDED := Onboarded(23, LAST + 1800)

  function Updating(finished: bool): Item {
    Acquired(3, 23, Observed(finished, FLAT), Some(1), Time(finished))
  }

  /** The same data version again; after the session its last bar is finished. */
  function Updated(finished: bool): Db { Next(ONBOARDED, 2, Updating(finished), Time(finished)) }

  function Warning(finished: bool, last: Content): Item {
    Acquired(if finished then 4 else 3, 23, Observed(finished, last), Some(2), Time(finished))
  }

  /** The next run meets version 2. */
  function Warned(finished: bool, last: Content): Db {
    Next(Updated(finished), 3, Warning(finished, last), Time(finished))
  }

  /** A human approves applying the revision. */
  function Reviewed(finished: bool, last: Content): Db {
    Step(Warned(finished, last), CATALOG, ReviewEvent(1, true))
  }

  function Starting(finished: bool, last: Content): Db {
    Step(Reviewed(finished, last), CATALOG, StartRun(4, "manual_db3_approved_revision_apply", {SERIES}))
  }

  /** The page holds the whole day and calls every row complete. */
  function Page(finished: bool, last: Content): seq<Bar> { HourBars(0, 23, last, Some(2), Time(finished)) }

  function Chart(finished: bool, last: Content): int -> seq<Bar> { (count: int) => Page(finished, last) }

  /** The approved event leads to a bounded run under the approving trigger. */
  function Revised(finished: bool, last: Content): Db {
    Step(Starting(finished, last), CATALOG, Bounded(4, SERIES, Chart(finished, last), Some(1)))
  }

  // ---- Up to the review ----

  lemma {:induction false} UpdatedStands(finished: bool)
    ensures var db := Updated(finished);
      && Stands(db, 2, Mark(2, 23, Observed(finished, FLAT), Some(1)))
      && Stores(db.market.curated, 23, Observed(finished, FLAT)) && db.market.commits == [Upserted(1), Upserted(2)]
    ensures Acquisition.Acquires(ONBOARDED.market.curated, CATALOG, Updating(finished),
        Served(23, FLAT, Some(1), Time(finished)))
  {
    hide Next, Onboarded, Stores, Acquisition.Acquires, ApplyCommit, Acquired, Staged;
    OnboardedStands(23, LAST + 1800);
    if finished {
      AcquiresFinished(ONBOARDED.market.curated, OPEN, FLAT, Some(1), Time(finished));
    } else {
      AcquiresOpen(ONBOARDED.market.curated, 23, OPEN, 23, FLAT, Some(1), Time(finished));
    }
    NextStands(ONBOARDED, 1, Mark(1, 23, OPEN, Some(1)), 3, 23, Observed(finished, FLAT), Some(1), Time(finished));
    UpsertExtends(ONBOARDED.market.curated, 23, OPEN, 2, 3, 23, Observed(finished, FLAT), Some(1), Time(finished));
  }

  lemma {:induction false} WarningIsAcquired(finished: bool, last: Content)
    requires last.isComplete
    ensures Acquisition.Acquires(Updated(finished).market.curated, CATALOG, Warning(finished, last),
        Served(23, last, Some(2), Time(finished)))
  {
    hide Updated, Stores, Acquisition.Acquires, Acquired;
    UpdatedStands(finished);
    var curated := Updated(finished).market.curated;
    if finished {
      AcquiresFinished(curated, FLAT, last, Some(2), Time(finished));
    } else {
      AcquiresOpen(curated, 23, OPEN, 23, last, Some(2), Time(finished));
    }
  }

  function Pending(review: ReviewStatus): Event {
    Event(SERIES, 1, 2, ReviewPending, RevisionWarningV2, review, None, map[1 := WarningRecorded])
  }

  lemma {:induction false} NewVersionWarns(finished: bool, last: Content, w: Watermark)
    requires w.status == Active && w.version == Some(1)
    ensures GateOf(map[SERIES := w], [Warning(finished, last)], Time(finished)) == Warn(SERIES, 1, 2)
  {
    hide Revision.Versions, TimesComplete, HourBars;
    var item, watermarks := Warning(finished, last), map[SERIES := w];
    var from := if finished then 4 else 3;
    ItemOfBars(from, 23, Observed(finished, last), Some(2), Time(finished), 0);
    VersionsOfBars(from, 23, Observed(finished, last), Some(2), Time(finished));
    BarsAre(from, 23, Observed(finished, last), Some(2), Time(finished));
    CompleteUpTo(from, 23, Observed(finished, last), Some(2), Time(finished));
    assert Min({2}) == 2;
    assert GateItem(watermarks, item, Time(finished)) == Warn(SERIES, 1, 2);
  }

  lemma {:induction false} WarnedStands(finished: bool, last: Content)
    ensures var before, db := Updated(finished), Warned(finished, last);
      && db.market == before.market && db.watermarks == before.watermarks
      && db.events == map[1 := Pending(PendingReview)] && db.nextEvent == 2
      && forall r :: r in db.runs ==> r <= 3
  {
    hide Updated, GateOf, CommitAcquired, Warning, Stores, Acquisition.Acquires;
    UpdatedStands(finished);
    NewVersionWarns(finished, last, Mark(2, 23, Observed(finished, FLAT), Some(1)));
    var e := Event(SERIES, 1, 2, ReviewPending, RevisionWarningV2, PendingReview, None, map[]);
    assert [WarningRecorded][..0] == [];
    assert Numbered(0, [WarningRecorded][..0]) == map[];
    assert AppendSteps(e, [WarningRecorded]) == Pending(PendingReview);
    assert OpenEvents(map[], SERIES, 2) == {};
  }

  /** The store before the bounded run. */
  ghost predicate Awaits(db: Db, finished: bool) {
    && Stores(db.market.curated, 23, Observed(finished, FLAT)) && db.market.commits == [Upserted(1), Upserted(2)]
    && (forall rk :: rk in db.market.raw ==> rk.run <= 2)
    && db.watermarks == map[SERIES := Mark(2, 23, Observed(finished, FLAT), Some(1))]
    && db.events == map[1 := Pending(ApplyApproved)]
    && db.IsRunning(4) && db.runs[4].trigger in BOUNDED_TRIGGERS
    && RevisionState(db, SERIES, Some(1)) == Some(1)
  }

  lemma {:induction false} StartingAwaits(finished: bool, last: Content)
    ensures Awaits(Starting(finished, last), finished)
  {
    hide Updated, Warned, Stores, Acquisition.Acquires, Acquired;
    UpdatedStands(finished);
    WarnedStands(finished, last);
  }

  // ---- The bounded run ----

  /** The stored rows match the new page up to its last row. */
  lemma {:induction false} StoredMatch(curated: Curated, finished: bool, last: Content)
    requires Stores(curated, 23, Observed(finished, FLAT)) && last.isComplete
    ensures var page, stored := Page(finished, last), Revision.StoredWindow(View(curated, SERIES), 0, LAST);
      && Revision.MatchesUpToLast(page, stored, 2) && LAST in stored
      && stored[LAST].content == Observed(finished, FLAT)
  {
    hide View, HourBars, Revision.Versions, Revision.StoredWindow, Stores, Hours;
    var page, stored := Page(finished, last), Revision.StoredWindow(View(curated, SERIES), 0, LAST);
    BarsAreSeries(0, 23, last, Some(2), Time(finished));
    BarsAre(0, 23, last, Some(2), Time(finished));
    VersionsOfBars(0, 23, last, Some(2), Time(finished));
    TimesOfBars(0, 23, last, Some(2), Time(finished));
    StoredHours(curated, Observed(finished, FLAT));
    HourIn(0, 23, LAST);
    forall i | 0 <= i < |page| - 1 ensures page[i].time in stored && stored[page[i].time].content == page[i].content {
      assert page[i] in page;
      HourIn(0, 23, page[i].time);
    }
  }

  lemma {:induction false} StoredHours(curated: Curated, last: Content)
    requires Stores(curated, 23, last)
    ensures var stored := Revision.StoredWindow(View(curated, SERIES), 0, LAST);
      && stored.Keys == Hours(0, 23)
      && forall t :: t in stored ==> stored[t].content == if t == LAST then last else FLAT
  {
    hide View, Hours;
    var stored := Revision.StoredWindow(View(curated, SERIES), 0, LAST);
    forall t ensures t in stored <==> t in Hours(0, 23)
      ensures t in stored ==> stored[t].content == if t == LAST then last else FLAT
    {
      CommitLaws.ViewHas(curated, SERIES, t);
      HourIn(0, 23, t);
    }
  }

  /** The last row is affected unless it is stored, complete, with the content of the page. */
  function LastRange(finished: bool, last: Content): Option<Revision.Range> {
    if last == Observed(finished, FLAT) then None else Some(Revision.Range(LAST, LAST))
  }

  /** The first window decides: ready to apply. */
  lemma {:induction false} FirstWindowDecides(db: Db, finished: bool, last: Content) returns (c: Revision.Comparison)
    requires Stores(db.market.curated, 23, Observed(finished, FLAT)) && last.isComplete
    ensures Found(db, SERIES, Chart(finished, last), 1) == Revision.Discovery([c], None)
    ensures c.decision == Revision.ReadyToApply && c.affected == LastRange(finished, last)
    ensures c.oldVersion == 1 && c.newVersion == 2
  {
    hide Revision.Compare, Revision.StoredWindow, Revision.MatchesUpToLast, View, HourBars, Stores;
    var page, view := Page(finished, last), View(db.market.curated, SERIES);
    BarsAreSeries(0, 23, last, Some(2), Time(finished));
    BarIn(0, 23, last, Some(2), Time(finished), 23);
    StoredMatch(db.market.curated, finished, last);
    Revision.MatchingPageIsReady(page, Revision.StoredWindow(view, 0, LAST), 1, 2, 96);
    c := Revision.CompareStep(page, view, 1, 96).value;
  }

  /** The last row of the page goes in where it differs. */
  lemma {:induction false} CanApply(db: Db, finished: bool, last: Content, c: Revision.Comparison,
      steps: seq<StepDecision>)
    requires Awaits(db, finished) && last.ohlc.Valid() && LastRange(finished, last).Some?
    requires c.affected == LastRange(finished, last) && c.oldVersion == 1 && c.newVersion == 2
    ensures BoundedCommittable(db, CATALOG, 4, SERIES, Page(finished, last), c, steps, Some(1))
  {
    hide DerivedKeysFit, Staging, StagedRows, DistinctRows, HourBars, AppendSteps, Stores, ApplyCommit;
    StagedIs(0, 23, last, Some(2), Time(finished));
    PricesOfBars(0, 23, last, Some(2), Time(finished));
    BarsAreSeries(0, 23, last, Some(2), Time(finished));
    KeptIdentity(Pending(ApplyApproved), c, steps);
    KeysAlwaysFit(ApplyCommit(BoundedCommit(4, SERIES, c), db.market.curated,
        Staged(0, 23, last, Some(2), Time(finished))), Only({1}));
  }

  lemma {:induction false} KeptIdentity(e: Event, c: Revision.Comparison, steps: seq<StepDecision>)
    ensures var after :=
        AppendSteps(e.(oldVersion := c.oldVersion, status := ReadyToApply, affected := c.affected), steps);
      && after.status == ReadyToApply && after.affected == c.affected && after.series == e.series
      && after.policy == e.policy && after.review == e.review
  {
  }

  /** The last row is replaced, the version installed, the event closed, and the last hour called complete. */
  ghost predicate RevisionTaken(after: Db, last: Content) {
    var k := Key(1, LAST, NativeOhlc);
    && 4 in after.runs && after.runs[4].status == Passed
    && after.market.commits == [Upserted(1), Upserted(2), Patched(4, 1, Revision.Range(LAST, LAST))]
    && after.events.Keys == {1} && after.events[1].status == Applied && after.events[1].review == ReviewApplied
    && SERIES in after.watermarks && after.watermarks[SERIES].version == Some(2)
    && after.watermarks[SERIES].latestComplete == LAST
    && k in after.market.curated && after.market.curated[k].content == last
  }

  lemma {:induction false} AppliedRun(db: Db, finished: bool, last: Content, c: Revision.Comparison,
      steps: seq<StepDecision>)
    requires BoundedCommittable(db, CATALOG, 4, SERIES, Page(finished, last), c, steps, Some(1))
    requires Awaits(db, finished) && last.isComplete && LastRange(finished, last).Some?
    requires c.affected == LastRange(finished, last) && c.newVersion == 2
    ensures RevisionTaken(BoundedApplied(db, CATALOG, 4, SERIES, Page(finished, last), c, steps, Some(1)), last)
  {
    hide Rebuilt, Staging, StagedRows, DistinctRows, HourBars, Accepts, ApplyCommit, PlaceEvent, MarkApplied,
      BoundedGuard, Stores, RevisionState, HasCompleteBar;
    AppliedEvent(db, c, steps);
    AppliedRow(db.market.curated, finished, last);
    ItemOfBars(0, 23, last, Some(2), Time(finished), 4);
  }

  lemma {:induction false} AppliedEvent(db: Db, c: Revision.Comparison, steps: seq<StepDecision>)
    requires db.events == map[1 := Pending(ApplyApproved)]
    requires PlaceEvent(db, SERIES, c, ReadyToApply, steps, Some(1)).Some?
    ensures var placed := PlaceEvent(db, SERIES, c, ReadyToApply, steps, Some(1)).value;
      && placed.id in placed.events
      && var after := MarkApplied(placed.events, placed.id);
         after.Keys == {1} && after[1].status == Applied && after[1].review == ReviewApplied
  {
    hide AppendSteps;
    KeptIdentity(Pending(ApplyApproved), c, steps);
  }

  lemma {:induction false} AppliedRow(curated: Curated, finished: bool, last: Content)
    ensures var k, range := Key(1, LAST, NativeOhlc), Revision.Range(LAST, LAST);
      var after := ApplyCommit(Patched(4, 1, range), curated, Staged(0, 23, last, Some(2), Time(finished)));
      k in after && after[k].content == last
  {
    hide Staged, Hours;
    StagedIs(0, 23, last, Some(2), Time(finished));
    HourIn(0, 23, LAST);
    var k := Key(1, LAST, NativeOhlc);
    assert k in InRangeOf(Staged(0, 23, last, Some(2), Time(finished)), Revision.Range(LAST, LAST));
  }

  /** The run, from any store that stands as the example does before it. */
  lemma {:induction false} RunOfStarting(db: Db, finished: bool, last: Content)
    requires Awaits(db, finished) && last.isComplete && last.ohlc.Valid()
    ensures CommitLaws.EndsReady(db, SERIES, Chart(finished, last), Some(1))
    ensures var after := RunBounded(db, CATALOG, 4, SERIES, Chart(finished, last), Some(1));
      if finished && last == FLAT then after == db.Finish(4, Failed) else RevisionTaken(after, last)
  {
    hide Found, RevisionState, Stores, HourBars, RunBounded, RevisionTaken, BoundedApplied, BoundedCommittable;
    var c := FirstWindowDecides(db, finished, last);
    assert CommitLaws.StepsOf(db, SERIES, Chart(finished, last), Some(1)) == [c];
    if finished && last == FLAT {
      CommitLaws.UnchangedContentIsNeverApplied(db, CATALOG, 4, SERIES, Chart(finished, last), Some(1));
    } else {
      CanApply(db, finished, last, c, Decisions([c]));
      AppliedRun(db, finished, last, c, Decisions([c]));
      ReadyRun(db, finished, last, c);
    }
  }

  lemma {:induction false} ReadyRun(db: Db, finished: bool, last: Content, c: Revision.Comparison)
    requires db.IsRunning(4) && RevisionState(db, SERIES, Some(1)) == Some(1)
    requires Found(db, SERIES, Chart(finished, last), 1) == Revision.Discovery([c], None)
    requires c.decision == Revision.ReadyToApply
    requires BoundedCommittable(db, CATALOG, 4, SERIES, Page(finished, last), c, Decisions([c]), Some(1))
    ensures RunBounded(db, CATALOG, 4, SERIES, Chart(finished, last), Some(1))
      == BoundedApplied(db, CATALOG, 4, SERIES, Page(finished, last), c, Decisions([c]), Some(1))
  {
    hide RevisionState, Found, BoundedCommittable, BoundedApplied, HourBars, Decisions;
  }

  // ---- What becomes of an approved revision ----

  /** Both incremental runs of the example acquire what the provider serves from the overlap on. */
  ghost predicate AcquiredAsServed(finished: bool, last: Content) {
    && Acquisition.Acquires(ONBOARDED.market.curated, CATALOG, Updating(finished),
        Served(23, FLAT, Some(1), Time(finished)))
    && Acquisition.Acquires(Updated(finished).market.curated, CATALOG, Warning(finished, last),
        Served(23, last, Some(2), Time(finished)))
  }

  /**
   From the empty store: onboard, update, meet a new data version, approve its application, run the revision, before
   or after the last hour is finished. Where the last row is stored complete and the provider changed no content, the
   run fails and leaves everything as it was, although the comparison was ready to apply. In every other case the
   last row is replaced, the version installed and the event closed.
   */
  lemma {:induction false} ApprovedRevision(finished: bool, last: Content)
    requires last.isComplete && last.ohlc.Valid()
    ensures AcquiredAsServed(finished, last)
    ensures CommitLaws.EndsReady(Starting(finished, last), SERIES, Chart(finished, last), Some(1))
    ensures finished && last == FLAT ==> Revised(finished, last) == Starting(finished, last).Finish(4, Failed)
    ensures !(finished && last == FLAT) ==> RevisionTaken(Revised(finished, last), last)
  {
    hide Starting, Updated, Updating, Warning, Found, RevisionState, Stores, RunBounded, RevisionTaken,
      CommitLaws.EndsReady, LastRange, Pending, Acquisition.Acquires;
    UpdatedStands(finished);
    WarningIsAcquired(finished, last);
    StartingAwaits(finished, last);
    RunOfStarting(Starting(finished, last), finished, last);
  }

  /**
   Before the session is over the applied page names an hour complete that still goes on: the complete watermark
   moves from an hour that is over to one that is not.
   */
  lemma {:induction false} RevisionCompletesAnOpenHour(last: Content)
    requires last.isComplete && last.ohlc.Valid()
    ensures var before, after := Starting(false, last), Revised(false, last);
      && SERIES in before.watermarks && SERIES in after.watermarks
      && WatermarkLaws.HourIsOver(before.watermarks[SERIES].latestComplete, Time(false))
      && !WatermarkLaws.HourIsOver(after.watermarks[SERIES].latestComplete, Time(false))
  {
    hide Starting, Revised, AcquiredAsServed, CommitLaws.EndsReady, Stores, RevisionState;
    StartingAwaits(false, last);
    ApprovedRevision(false, last);
  }
}
