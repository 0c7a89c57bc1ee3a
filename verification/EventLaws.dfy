/** Revision events: step numbers, one open event a version, and approval before application. */
module EventLaws {
  import opened Sets
  import opened Types
  import opened Store
  import CommitLaws
  import Derive
  import Revision

  // ---- Step numbers ----

  lemma {:induction false} NumberedKeys(offset: int, decisions: seq<StepDecision>)
    ensures forall k :: k in Numbered(offset, decisions) <==> offset < k <= offset + |decisions|
    ensures forall i :: 0 <= i < |decisions| ==> Numbered(offset, decisions)[offset + i + 1] == decisions[i]
    ensures |Numbered(offset, decisions)| == |decisions|
  {
    if decisions != [] {
      var n := |decisions|;
      NumberedKeys(offset, decisions[..n - 1]);
      assert offset + n !in Numbered(offset, decisions[..n - 1]);
    }
  }

  /** Whatever steps an event already owns, new ones never collide with them and change none of them. */
  lemma {:induction false} StepsNeverCollide(e: Event, decisions: seq<StepDecision>)
    ensures e.steps.Keys !! Numbered(LastStep(e.steps), decisions).Keys
    ensures var after := AppendSteps(e, decisions);
      && (forall k :: k in e.steps ==> k in after.steps && after.steps[k] == e.steps[k])
      && |after.steps| == |e.steps| + |decisions|
  {
    var last := LastStep(e.steps);
    var added := Numbered(last, decisions);
    NumberedKeys(last, decisions);
    assert forall k :: k in e.steps ==> k <= last;
    assert (e.steps + added).Keys == e.steps.Keys + added.Keys;
    assert |e.steps + added| == |(e.steps + added).Keys| && |e.steps| == |e.steps.Keys| && |added| == |added.Keys|;
  }

  /** The steps of an event are numbered 1, 2, ... without gaps. */
  ghost predicate Contiguous(steps: map<int, StepDecision>) {
    forall k :: k in steps <==> 1 <= k <= |steps|
  }

  lemma {:induction false} LastOfContiguous(steps: map<int, StepDecision>)
    requires Contiguous(steps)
    ensures LastStep(steps) == |steps|
  {
    if steps.Keys != {} {
      var k := Member(steps.Keys);
      assert |steps| in steps;
    } else {
      assert |steps| == |steps.Keys|;
    }
  }

  lemma {:induction false} AppendKeepsContiguous(e: Event, decisions: seq<StepDecision>)
    requires Contiguous(e.steps)
    ensures Contiguous(AppendSteps(e, decisions).steps)
  {
    LastOfContiguous(e.steps);
    NumberedKeys(LastStep(e.steps), decisions);
    StepsNeverCollide(e, decisions);
  }

  // ---- The life of an event ----

  /** A warning event waits for review until an approved apply; the older policy knows no review. */
  predicate Lifecycle(e: Event) {
    match e.policy
    case RevisionWarningV2 =>
      (e.status == ReviewPending && e.review in {PendingReview, ReviewedKeepCurrent, ApplyApproved})
      || (e.status == Applied && e.review == ReviewApplied)
    case BoundedReconciliationV1 => e.review == LegacyState && e.status != ReviewPending
  }

  ghost predicate WellKept(e: Event) { Lifecycle(e) && Contiguous(e.steps) }

  /** Two open events of the same version of the same series. */
  predicate Compete(a: Event, b: Event) { a.Open() && b.Open() && a.series == b.series && a.newVersion == b.newVersion }

  ghost predicate OneOpenEventAVersion(events: map<int, Event>) {
    forall i, j :: i in events && j in events && Compete(events[i], events[j]) ==> i == j
  }

  ghost predicate EventsInv(db: Db) {
    && (forall id :: id in db.events ==> id < db.nextEvent && WellKept(db.events[id]))
    && OneOpenEventAVersion(db.events)
  }

  /** An existing event moves on: same series and version, and it does not reopen. */
  lemma {:induction false} MoveOn(db: Db, id: int, e: Event)
    requires EventsInv(db) && id in db.events && WellKept(e)
    requires e.series == db.events[id].series && e.newVersion == db.events[id].newVersion
    requires e.Open() ==> db.events[id].Open()
    ensures EventsInv(db.(events := db.events[id := e]))
  {
  }

  /** A new event of a version that has no open event, or that is born closed. */
  lemma {:induction false} BeBorn(db: Db, e: Event)
    requires EventsInv(db) && WellKept(e)
    requires e.Open() ==> OpenEvents(db.events, e.series, e.newVersion) == {}
    ensures EventsInv(db.(events := db.events[db.nextEvent := e], nextEvent := db.nextEvent + 1))
  {
    hide WellKept;
    forall i | i in db.events && e.Open() && db.events[i].Open()
      ensures !(db.events[i].series == e.series && db.events[i].newVersion == e.newVersion)
    {
      assert i !in OpenEvents(db.events, e.series, e.newVersion);
    }
  }

  lemma {:induction false} OneStep(e: Event)
    requires e.steps == map[] && Lifecycle(e)
    ensures WellKept(e)
  {
  }

  lemma {:induction false} AppendedIsWellKept(e: Event, decisions: seq<StepDecision>)
    requires Lifecycle(e) && Contiguous(e.steps)
    ensures WellKept(AppendSteps(e, decisions))
  {
    hide Contiguous, Numbered, LastStep;
    AppendKeepsContiguous(e, decisions);
  }

  lemma {:induction false} WarningKeepsEvents(db: Db, run: int, s: Series, oldVersion: int, newVersion: int)
    requires EventsInv(db) && db.IsRunning(run)
    ensures EventsInv(RecordWarning(db, run, s, oldVersion, newVersion))
  {
    hide Contiguous, Numbered, LastStep, OneOpenEventAVersion;
    var open := OpenEvents(db.events, s, newVersion);
    var mine := set id | id in open && db.events[id].policy == RevisionWarningV2
        && db.events[id].status == ReviewPending;
    if open == {} {
      var e := Event(s, oldVersion, newVersion, ReviewPending, RevisionWarningV2, PendingReview, None, map[]);
      EmptyStepsAreContiguous();
      AppendedIsWellKept(e, [WarningRecorded]);
      BeBorn(db, AppendSteps(e, [WarningRecorded]));
    } else if mine != {} {
      AppendedIsWellKept(db.events[Min(mine)], [WarningRecorded]);
      MoveOn(db, Min(mine), AppendSteps(db.events[Min(mine)], [WarningRecorded]));
    }
  }

  lemma {:induction false} EmptyStepsAreContiguous()
    ensures Contiguous(map[])
  {
  }

  /** Placing a comparison on an event, as a step towards applying it or as a refusal. */
  lemma {:induction false} PlaceKeepsEvents(db: Db, s: Series, c: Revision.Comparison, steps: seq<StepDecision>)
    requires EventsInv(db)
    ensures var placed := PlaceEvent(db, s, c, BlockedFullRefetch, steps, None);
      placed.Some? ==> EventsInv(db.(events := placed.value.events, nextEvent := placed.value.nextEvent))
  {
    hide Contiguous, Numbered, LastStep, OneOpenEventAVersion;
    var undecided := set id | id in OpenEvents(db.events, s, c.newVersion) && db.events[id].status != ReviewPending;
    if undecided != {} {
      var e := db.events[Min(undecided)].(
        oldVersion := c.oldVersion, status := BlockedFullRefetch, affected := c.affected);
      AppendedIsWellKept(e, steps);
      MoveOn(db, Min(undecided), AppendSteps(e, steps));
    } else {
      var e := Event(s, c.oldVersion, c.newVersion, BlockedFullRefetch, BoundedReconciliationV1, LegacyState,
          c.affected, map[]);
      EmptyStepsAreContiguous();
      AppendedIsWellKept(e, steps);
      BeBorn(db, AppendSteps(e, steps));
    }
  }

  /** Applying a revision closes the event it was placed on. */
  lemma {:induction false} ApplyKeepsEvents(db: Db, s: Series, c: Revision.Comparison, steps: seq<StepDecision>,
      approved: Option<int>)
    requires EventsInv(db) && PlaceEvent(db, s, c, ReadyToApply, steps, approved).Some?
    ensures var placed := PlaceEvent(db, s, c, ReadyToApply, steps, approved).value;
      placed.id in placed.events
          && EventsInv(db.(events := MarkApplied(placed.events, placed.id), nextEvent := placed.nextEvent))
  {
    hide Contiguous, Numbered, LastStep, OneOpenEventAVersion;
    var undecided := set id | id in OpenEvents(db.events, s, c.newVersion) && db.events[id].status != ReviewPending;
    if approved.Some? {
      AppliedEvent(db, approved.value, c, steps);
    } else if undecided != {} {
      AppliedEvent(db, Min(undecided), c, steps);
    } else {
      var e := Event(s, c.oldVersion, c.newVersion, ReadyToApply, BoundedReconciliationV1, LegacyState, c.affected,
          map[]);
      EmptyStepsAreContiguous();
      AppendedIsWellKept(e, steps);
      var closed := AppendSteps(e, steps).(status := Applied);
      BeBorn(db, closed);
      assert db.events[db.nextEvent := AppendSteps(e, steps)][db.nextEvent := closed]
          == db.events[db.nextEvent := closed];
    }
  }

  lemma {:induction false} AppliedEvent(db: Db, id: int, c: Revision.Comparison, steps: seq<StepDecision>)
    requires EventsInv(db) && id in db.events
    ensures EventsInv(db.(events := MarkApplied(UpdatedEvent(db.events, id, c, ReadyToApply, steps), id)))
  {
    hide Contiguous, Numbered, LastStep, OneOpenEventAVersion;
    var before := db.events[id];
    AppendedIsWellKept(before, steps);
    var closed := AppendSteps(before.(oldVersion := c.oldVersion, affected := c.affected), steps)
      .(status := Applied, review := if before.policy == RevisionWarningV2 then ReviewApplied else before.review);
    MoveOn(db, id, closed);
    assert MarkApplied(UpdatedEvent(db.events, id, c, ReadyToApply, steps), id) == db.events[id := closed];
  }

  lemma {:induction false} FailureKeepsEvents(db: Db, run: int, code: string, failed: set<int>,
      detection: Option<Detection>)
    requires EventsInv(db) && db.IsRunning(run)
    ensures EventsInv(RecordFailure(db, run, code, failed, detection))
  {
    hide OneOpenEventAVersion, MarkStale, OpenEvents, FailedScope, WellKept;
    var affected := FailedScope(db.runs[run].scope, failed);
    if code in STALE_CODES && |affected| == 1 && detection.Some? {
      var s := TheSeries(affected);
      var e := Event(s, detection.value.oldVersion, detection.value.newVersion, Detected, BoundedReconciliationV1,
          LegacyState, None, map[]);
      OneStep(e);
      if OpenEvents(db.events, s, detection.value.newVersion) == {} {
        BeBorn(db, e);
      }
    }
  }

  lemma {:induction false} ReviewKeepsEvents(db: Db, id: int, approve: bool)
    requires EventsInv(db)
    ensures EventsInv(Review(db, id, approve))
  {
  }

  lemma {:induction false} CommitKeepsEvents(db: Db, catalog: Derive.Catalog, run: int, items: seq<Item>, mode: Mode)
    ensures CommitAcquired(db, catalog, run, items, mode).events == db.events
    ensures CommitAcquired(db, catalog, run, items, mode).nextEvent == db.nextEvent
  {
    hide Committable, Written, Advanced;
  }

  lemma {:induction false} BoundedKeepsEvents(db: Db, catalog: Derive.Catalog, run: int, s: Series,
      chart: int -> seq<Bar>, approved: Option<int>)
    requires EventsInv(db) && db.IsRunning(run)
    ensures EventsInv(RunBounded(db, catalog, run, s, chart, approved))
  {
    hide RevisionState, View, Decisions, Found, PlaceEvent, Written, Accepts, BoundedGuard, OneOpenEventAVersion,
      MarkApplied, StagedRows, DistinctRows, WellKept, RevisedWatermark;
    var state := RevisionState(db, s, approved);
    if state.Some? && Found(db, s, chart, state.value).failed.None? {
      var found := Found(db, s, chart, state.value).steps;
      var final, steps := found[|found| - 1], Decisions(found);
      PlaceKeepsEvents(db, s, final, steps);
      if PlaceEvent(db, s, final, ReadyToApply, steps, approved).Some? {
        ApplyKeepsEvents(db, s, final, steps, approved);
      }
    }
  }

  lemma {:induction false} StepKeepsEvents(db: Db, catalog: Derive.Catalog, txn: Txn)
    requires EventsInv(db)
    ensures EventsInv(Step(db, catalog, txn))
  {
    hide GateOf, CommitAcquired, RecordWarning, RunBounded, RecordFailure, Review, RefetchAllowed,
      OneOpenEventAVersion, WellKept;
    if Performable(db, txn) {
      match txn
      case Incremental(run, items, now) =>
        CommitKeepsEvents(db, catalog, run, items, Incrementally);
        var gate := GateOf(db.watermarks, items, now);
        if gate.Warn? {
          WarningKeepsEvents(db, run, gate.series, gate.oldVersion, gate.newVersion);
        }
      case FullRefetch(run, item, rejected) => CommitKeepsEvents(db, catalog, run, [item], Refetching(item.inst));
      case Onboard(run, item) => CommitKeepsEvents(db, catalog, run, [item], Bootstrapping);
      case Bounded(run, s, chart, approved) => BoundedKeepsEvents(db, catalog, run, s, chart, approved);
      case Failure(run, code, failed, detection) => FailureKeepsEvents(db, run, code, failed, detection);
      case ReviewEvent(id, approve) => ReviewKeepsEvents(db, id, approve);
      case StartRun(_, _, _) =>
    }
  }

  /** Over any run of transactions: steps are gapless, a version has one open event, every event keeps its lifecycle. */
  lemma {:induction false} EventsStayWellKept(catalog: Derive.Catalog, txns: seq<Txn>)
    ensures EventsInv(RunAll(EMPTY, catalog, txns))
  {
    hide Step;
    if txns != [] {
      EventsStayWellKept(catalog, txns[..|txns| - 1]);
      StepKeepsEvents(RunAll(EMPTY, catalog, txns[..|txns| - 1]), catalog, txns[|txns| - 1]);
    }
  }

  // ---- Approval comes before application ----

  predicate Approved(e: Event) { e.policy == RevisionWarningV2 && e.review in {ApplyApproved, ReviewApplied} }

  /** Only a review approves an event; nothing else turns an unapproved one into an approved or applied one. */
  lemma {:induction false} ApprovalNeedsReview(db: Db, catalog: Derive.Catalog, txn: Txn, id: int)
    requires EventsInv(db) && id in Step(db, catalog, txn).events && Approved(Step(db, catalog, txn).events[id])
    requires !(id in db.events && Approved(db.events[id]))
    ensures txn == ReviewEvent(id, true)
  {
    hide GateOf, CommitAcquired, RecordWarning, RunBounded, RecordFailure, RefetchAllowed, OneOpenEventAVersion,
      WellKept;
    match txn
    case Incremental(run, items, now) =>
      CommitKeepsEvents(db, catalog, run, items, Incrementally);
      var gate := GateOf(db.watermarks, items, now);
      if gate.Warn? && db.IsRunning(run) {
        WarningApprovesNothing(db, run, gate.series, gate.oldVersion, gate.newVersion, id);
      }
    case FullRefetch(run, item, rejected) => CommitKeepsEvents(db, catalog, run, [item], Refetching(item.inst));
    case Onboard(run, item) => CommitKeepsEvents(db, catalog, run, [item], Bootstrapping);
    case Bounded(run, s, chart, approved) =>
      if db.IsRunning(run) {
        BoundedApprovesNothing(db, catalog, run, s, chart, approved, id);
      }
    case Failure(run, code, failed, detection) =>
      if db.IsRunning(run) {
        FailureApprovesNothing(db, run, code, failed, detection, id);
      }
    case ReviewEvent(other, approve) =>
    case StartRun(_, _, _) =>
  }

  ghost predicate NoNewApproval(db: Db, after: Db, id: int) {
    id in after.events && Approved(after.events[id]) ==> id in db.events && Approved(db.events[id])
  }

  lemma {:induction false} WarningApprovesNothing(db: Db, run: int, s: Series, oldVersion: int, newVersion: int,
      id: int)
    requires db.IsRunning(run)
    ensures NoNewApproval(db, RecordWarning(db, run, s, oldVersion, newVersion), id)
  {
  }

  lemma {:induction false} FailureApprovesNothing(db: Db, run: int, code: string, failed: set<int>,
      detection: Option<Detection>, id: int)
    requires db.IsRunning(run)
    ensures NoNewApproval(db, RecordFailure(db, run, code, failed, detection), id)
  {
  }

  lemma {:induction false} PlacingApprovesNothing(db: Db, s: Series, c: Revision.Comparison, status: EventStatus,
      steps: seq<StepDecision>,
      approved: Option<int>, id: int)
    requires EventsInv(db)
    ensures var placed := PlaceEvent(db, s, c, status, steps, approved);
      placed.Some? ==>
        && placed.value.id in placed.value.events
        && NoNewApproval(db, db.(events := placed.value.events), id)
        && NoNewApproval(db, db.(events := MarkApplied(placed.value.events, placed.value.id)), id)
  {
    hide Numbered, LastStep, OneOpenEventAVersion, Contiguous;
    var undecided := set id | id in OpenEvents(db.events, s, c.newVersion) && db.events[id].status != ReviewPending;
    if undecided != {} {
      assert WellKept(db.events[Min(undecided)]);
    }
  }

  lemma {:induction false} BoundedApprovesNothing(db: Db, catalog: Derive.Catalog, run: int, s: Series,
      chart: int -> seq<Bar>, approved: Option<int>, id: int)
    requires EventsInv(db) && db.IsRunning(run)
    ensures NoNewApproval(db, RunBounded(db, catalog, run, s, chart, approved), id)
  {
    hide RevisionState, View, Decisions, Found, PlaceEvent, Written, Accepts, BoundedGuard, EventsInv,
      MarkApplied, StagedRows, DistinctRows, RevisedWatermark;
    var state := RevisionState(db, s, approved);
    if state.Some? && Found(db, s, chart, state.value).failed.None? {
      var found := Found(db, s, chart, state.value).steps;
      var final, steps := found[|found| - 1], Decisions(found);
      PlacingApprovesNothing(db, s, final, BlockedFullRefetch, steps, None, id);
      PlacingApprovesNothing(db, s, final, ReadyToApply, steps, approved, id);
    }
  }

  /** Over any run: a warning event that was applied, or that may be applied, was approved in a review before. */
  lemma {:induction false} AppliedMeansApproved(catalog: Derive.Catalog, txns: seq<Txn>, id: int)
    requires var db := RunAll(EMPTY, catalog, txns); id in db.events && Approved(db.events[id])
    ensures ReviewEvent(id, true) in txns
  {
    hide Step;
    if txns != [] {
      var earlier, last := txns[..|txns| - 1], txns[|txns| - 1];
      var db := RunAll(EMPTY, catalog, earlier);
      EventsStayWellKept(catalog, earlier);
      if id in db.events && Approved(db.events[id]) {
        AppliedMeansApproved(catalog, earlier, id);
        assert ReviewEvent(id, true) in earlier;
      } else {
        ApprovalNeedsReview(db, catalog, last, id);
        assert last in txns;
      }
    }
  }

  // ---- When a ready revision is applied ----

  lemma {:induction false} GuardPasses(db: Db, run: int, s: Series, c: Revision.Comparison,
      steps: seq<StepDecision>, approved: Option<int>)
    requires EventsInv(db) && PlaceEvent(db, s, c, ReadyToApply, steps, approved).Some?
    requires db.IsRunning(run) && db.runs[run].trigger in BOUNDED_TRIGGERS && RevisionState(db, s, approved).Some?
    ensures var placed := PlaceEvent(db, s, c, ReadyToApply, steps, approved).value;
      placed.id in placed.events
      && (BoundedGuard(db, run, placed.events[placed.id], s.inst, ApplyRange(c)) <==> c.affected.Some?)
  {
  }

  /**
   Exactly when a ready comparison is applied: where no table constraint rejects the rows and the event can be
   placed, the commit goes through if and only if the comparison found an affected range.
   */
  lemma {:induction false} AppliedExactlyWhenAffected(db: Db, catalog: Derive.Catalog, run: int, s: Series,
      chart: int -> seq<Bar>, approved: Option<int>)
    requires EventsInv(db) && db.IsRunning(run) && db.runs[run].trigger in BOUNDED_TRIGGERS
    requires CommitLaws.EndsReady(db, s, chart, approved)
    requires var found := CommitLaws.StepsOf(db, s, chart, approved);
      var page, c := Revision.LastPage(chart, found), found[|found| - 1];
      && PlaceEvent(db, s, c, ReadyToApply, Decisions(found), approved).Some?
      && page != [] && DistinctRows(StagedRows([BoundedItem(s, page)]))
      && Accepts(db.market, catalog, BoundedCommit(run, s, c), Staging(StagedRows([BoundedItem(s, page)])),
           Derive.Only({s.inst}))
    ensures var found := CommitLaws.StepsOf(db, s, chart, approved);
      var c, after := found[|found| - 1], RunBounded(db, catalog, run, s, chart, approved);
      && (c.affected.Some? ==> after.market.commits == db.market.commits + [BoundedCommit(run, s, c)])
      && (c.affected.None? ==> after == db.Finish(run, Failed))
  {
    hide Accepts, Found, View, Decisions, StagedRows, DistinctRows, Staging, PlaceEvent, MarkApplied,
      RevisedWatermark, Derive.Rebuilt, EventsInv, BoundedGuard, ApplyCommit;
    var found := CommitLaws.StepsOf(db, s, chart, approved);
    GuardPasses(db, run, s, found[|found| - 1], Decisions(found), approved);
  }
}
