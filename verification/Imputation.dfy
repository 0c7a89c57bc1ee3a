/** The bounded C2 imputation planner: at most one two-hour gap, always between actual bars. */
module Imputation {
  import opened Sets
  import opened Types

  const MAX_CONSECUTIVE_MISSING := 2
  const MAX_MISSING_PER_SESSION := 2

  const C2_ETF_KEYS := {"spy", "iwm", "efa", "eem", "vnq", "shy", "ief", "tlt", "tip", "lqd", "gld"}

  /** The one reviewed gap of an instrument: which bars may be filled, from which bar, in which version. */
  datatype Scope = Scope(sessionDate: int, missingTimes: seq<int>, sourceTime: int, dataVersion: int)

  /** 29 July 2026, 13:30 and 14:30 UTC, filled from 28 July 2026, 19:30 UTC. */
  const GAP_DATE := 20663
  const GAP_TIMES := [1785331800, 1785335400]
  const GAP_SOURCE := 1785267000

  function ConfirmedScope(key: string): Option<Scope> {
    if key == "tip" then Some(Scope(GAP_DATE, GAP_TIMES, GAP_SOURCE, 29759068))
    else if key == "gld" then Some(Scope(GAP_DATE, GAP_TIMES, GAP_SOURCE, 29749768))
    else None
  }

  /** An actual bar; `lineage` says whether its payload hash and artifact path are well formed. */
  datatype Actual = Actual(bar: Bar, lineage: bool)

  datatype Reason = SessionOpenRowsMissing | InternalRowsMissing

  datatype Imputed = Imputed(
    time: int, ohlc: Ohlc, reason: Reason, sourceTime: int,
    gapIndex: int, gapCount: int, candidateVersion: int, sourceVersion: int)

  datatype Status =
    | PassNoImputation
    | PassWithImputationWarning
    | BlockedImputationScope
    | BlockedCalendarNotVerified
    | BlockedExpectedSessionInvalid
    | BlockedExpectedSessionDuplicate
    | BlockedActualDuplicate
    | BlockedActualQuality
    | BlockedDailyCloseSourceMissing
    | BlockedMissingPerSessionLimit
    | BlockedConsecutiveMissingLimit
    | BlockedUnapprovedImputationScope
    | BlockedDataVersionIdentity
    | BlockedUnapprovedImputationDataVersion
    | BlockedRightActualAnchorMissing
    | BlockedSessionStartWithoutPreviousActual
    | BlockedLeftActualAnchorMissing
    | BlockedUnapprovedImputationSource
    | BlockedSourceLineageMissing

  datatype Plan = Plan(status: Status, expectedCount: nat, actualCount: nat, imputed: seq<Imputed>)

  function Blocked(code: Status, expected: nat, actual: nat): Plan { Plan(code, expected, actual, []) }

  predicate ValidActual(a: Actual) { a.bar.content.isComplete && a.bar.content.ohlc.Valid() }

  // ---- Indexing the session ----

  /** Two actual bars for the same expected slot. */
  ghost predicate HasDuplicate(expected: seq<int>, actuals: seq<Actual>) {
    exists i, j :: 0 <= i < j < |actuals| && actuals[i].bar.time == actuals[j].bar.time
        && actuals[i].bar.time in expected
  }

  /** `byTime` holds exactly the actual bars of the expected slots. */
  ghost predicate Indexes(expected: seq<int>, actuals: seq<Actual>, byTime: map<int, Actual>) {
    && (forall a :: a in actuals && a.bar.time in expected ==> a.bar.time in byTime && byTime[a.bar.time] == a)
    && (forall t :: t in byTime ==> t in expected && byTime[t] in actuals && byTime[t].bar.time == t)
  }

  /** The dictionary of actual bars by time, restricted to the expected slots. */
  function ByTime(expected: seq<int>, actuals: seq<Actual>): map<int, Actual> {
    if actuals == [] then map[]
    else
      var n := |actuals| - 1;
      var earlier := ByTime(expected, actuals[..n]);
      var a := actuals[n];
      if a.bar.time in expected then earlier[a.bar.time := a] else earlier
  }

  lemma {:induction false} ByTimeIndexes(expected: seq<int>, actuals: seq<Actual>)
    requires !HasDuplicate(expected, actuals)
    ensures Indexes(expected, actuals, ByTime(expected, actuals))
  {
    if actuals != [] {
      var n := |actuals| - 1;
      assert forall i :: 0 <= i < n ==> actuals[..n][i] == actuals[i];
      ByTimeIndexes(expected, actuals[..n]);
      assert actuals == actuals[..n] + [actuals[n]];
      var earlier := ByTime(expected, actuals[..n]);
      assert forall t :: t in earlier ==> exists j :: 0 <= j < n && actuals[j] == earlier[t];
    }
  }

  method IndexActuals(expected: seq<int>, actuals: seq<Actual>) returns (byTime: map<int, Actual>, duplicate: bool)
    ensures duplicate <==> HasDuplicate(expected, actuals)
    ensures !duplicate ==> byTime == ByTime(expected, actuals)
  {
    byTime := map[];
    for i := 0 to |actuals|
      invariant !HasDuplicate(expected, actuals[..i])
      invariant byTime == ByTime(expected, actuals[..i])
    {
      var a := actuals[i];
      ByTimeIndexes(expected, actuals[..i]);
      assert actuals[..i + 1] == actuals[..i] + [a];
      assert actuals[..i + 1][..i] == actuals[..i];
      if a.bar.time in byTime {
        var j :| 0 <= j < i && actuals[j] == byTime[a.bar.time];
        return byTime, true;
      }
      if a.bar.time in expected {
        NewSlot(expected, actuals[..i], byTime, a);
        byTime := byTime[a.bar.time := a];
      }
    }
    assert actuals[..|actuals|] == actuals;
    duplicate := false;
  }

  lemma {:induction false} NewSlot(expected: seq<int>, actuals: seq<Actual>, byTime: map<int, Actual>, a: Actual)
    requires !HasDuplicate(expected, actuals) && Indexes(expected, actuals, byTime) && a.bar.time !in byTime
    ensures !HasDuplicate(expected, actuals + [a])
  {
  }

  function MissingIndexes(expected: seq<int>, byTime: map<int, Actual>, upto: nat): (r: seq<int>)
    requires upto <= |expected|
    ensures forall i :: i in r <==> 0 <= i < upto && expected[i] !in byTime
    ensures StrictlyIncreasing(r)
  {
    if upto == 0 then []
    else
      var earlier := MissingIndexes(expected, byTime, upto - 1);
      if expected[upto - 1] !in byTime then
        assert forall k :: 0 <= k < |earlier| ==> earlier[k] in earlier;
        earlier + [upto - 1]
      else earlier
  }

  function Flatten(runs: seq<seq<int>>): seq<int> {
    if runs == [] then [] else Flatten(runs[..|runs| - 1]) + runs[|runs| - 1]
  }

  predicate Consecutive(run: seq<int>) {
    run != [] && forall i :: 0 <= i < |run| ==> run[i] == run[0] + i
  }

  predicate Separated(left: seq<int>, right: seq<int>) {
    left != [] && right != [] && right[0] != left[|left| - 1] + 1
  }

  /** Maximal runs of consecutive indexes. */
  ghost predicate MaximalRuns(runs: seq<seq<int>>, missing: seq<int>) {
    && Flatten(runs) == missing
    && (forall k :: 0 <= k < |runs| ==> Consecutive(runs[k]))
    && (forall j, k :: 0 <= j < |runs| && k == j + 1 && k < |runs| ==> Separated(runs[j], runs[k]))
  }

  method GroupRuns(missing: seq<int>) returns (runs: seq<seq<int>>)
    ensures MaximalRuns(runs, missing)
  {
    runs := [];
    for i := 0 to |missing|
      invariant MaximalRuns(runs, missing[..i])
    {
      assert missing[..i + 1] == missing[..i] + [missing[i]];
      ghost var before := runs;
      var n := |runs|;
      if n == 0 {
        runs := [[missing[i]]];
        assert runs[..0] == before;
      } else {
        var last := runs[n - 1];
        assert Consecutive(last);
        if missing[i] != last[|last| - 1] + 1 {
          runs := runs + [[missing[i]]];
          assert runs[..n] == before;
        } else {
          runs := runs[..n - 1] + [last + [missing[i]]];
          assert runs[..n - 1] == before[..n - 1];
        }
      }
    }
    assert missing[..|missing|] == missing;
  }

  // ---- Planning ----

  /** Everything a plan is made from, once the expected slots are sorted. */
  datatype Session = Session(
    date: int,
    expected: seq<int>,
    byTime: map<int, Actual>,
    previous: Option<Actual>,
    previousTime: Option<int>)

  /** The last actual bar before a gap: inside the session, or the previous session's terminal bar. */
  function LeftAnchor(s: Session, first: int): Option<Actual>
    requires 0 <= first < |s.expected|
  {
    if first == 0 then
      if s.previous.Some? && s.previousTime == Some(s.previous.value.bar.time) then s.previous else None
    else if s.expected[first - 1] in s.byTime then Some(s.byTime[s.expected[first - 1]])
    else None
  }

  /** A gap may be filled: an actual bar on each side, one data version, the approved source, known lineage. */
  predicate Fillable(s: Session, run: seq<int>, scope: Scope) {
    && run != [] && 0 <= run[0] < |s.expected| && 0 <= run[|run| - 1] + 1 < |s.expected|
    && var left := LeftAnchor(s, run[0]);
       var right := s.expected[run[|run| - 1] + 1];
       && right in s.byTime && s.byTime[right].bar.dataVersion == Some(scope.dataVersion)
       && left.Some? && ValidActual(left.value)
       && left.value.bar.dataVersion == Some(scope.dataVersion)
       && left.value.bar.time == scope.sourceTime
       && left.value.lineage
  }

  function FilledRow(s: Session, run: seq<int>, scope: Scope, i: nat): Imputed
    requires Fillable(s, run, scope) && i < |run| && 0 <= run[i] < |s.expected|
  {
    var anchor := LeftAnchor(s, run[0]).value;
    var close := anchor.bar.content.ohlc.close;
    Imputed(s.expected[run[i]], Ohlc(close, close, close, close),
      if run[0] == 0 then SessionOpenRowsMissing else InternalRowsMissing,
      anchor.bar.time, i + 1, |run|, scope.dataVersion, anchor.bar.dataVersion.value)
  }

  function FilledRows(s: Session, run: seq<int>, scope: Scope): seq<Imputed>
    requires Fillable(s, run, scope) && forall i :: 0 <= i < |run| ==> 0 <= run[i] < |s.expected|
  {
    seq(|run|, i requires 0 <= i < |run| => FilledRow(s, run, scope, i))
  }

  /** The facts known about a gap when its turn comes: its neighbours are not missing. */
  ghost predicate Bounded(s: Session, run: seq<int>) {
    && Consecutive(run) && 0 <= run[0] && run[|run| - 1] + 1 < |s.expected|
    && (0 < run[0] ==> s.expected[run[0] - 1] in s.byTime)
    && s.expected[run[|run| - 1] + 1] in s.byTime
  }

  /** The previous session's terminal bar, valid and of the time the calendar gives. */
  predicate PreviousIsUsable(s: Session) {
    s.previous.Some? && ValidActual(s.previous.value) && s.previousTime == Some(s.previous.value.bar.time)
  }

  /** Why a gap between actual bars of the approved version is not filled: the first thing wrong on its left. */
  ghost predicate Stops(s: Session, run: seq<int>, scope: Scope, status: Status)
    requires run != [] && 0 <= run[0] < |s.expected|
  {
    var left := LeftAnchor(s, run[0]);
    if run[0] == 0 && !PreviousIsUsable(s) then status == BlockedSessionStartWithoutPreviousActual
    else
      && left.Some?
      && if left.value.bar.dataVersion != Some(scope.dataVersion) then status == BlockedDataVersionIdentity
         else if left.value.bar.time != scope.sourceTime then status == BlockedUnapprovedImputationSource
         else !left.value.lineage && status == BlockedSourceLineageMissing
  }

  ghost predicate OneVersion(s: Session, scope: Scope) {
    forall t :: t in s.byTime ==> s.byTime[t].bar.dataVersion == Some(scope.dataVersion)
  }

  method FillRun(s: Session, run: seq<int>, scope: Scope) returns (blocked: Option<Status>, rows: seq<Imputed>)
    requires Bounded(s, run)
    requires forall t :: t in s.byTime ==> ValidActual(s.byTime[t])
    ensures blocked.None? <==> Fillable(s, run, scope)
    ensures blocked.None? ==> rows == FilledRows(s, run, scope)
    ensures blocked.Some? ==> blocked.value in {
      BlockedDataVersionIdentity, BlockedSessionStartWithoutPreviousActual,
      BlockedUnapprovedImputationSource, BlockedSourceLineageMissing}
    ensures blocked.Some? && OneVersion(s, scope) ==> Stops(s, run, scope, blocked.value)
  {
    blocked, rows := None, [];
    var rightIndex := run[|run| - 1] + 1;
    if rightIndex >= |s.expected| || s.expected[rightIndex] !in s.byTime {
      return Some(BlockedRightActualAnchorMissing), [];
    }
    if s.byTime[s.expected[rightIndex]].bar.dataVersion != Some(scope.dataVersion) {
      return Some(BlockedDataVersionIdentity), [];
    }
    var left: Actual;
    var reason := SessionOpenRowsMissing;
    if run[0] == 0 {
      if s.previous.None? || !ValidActual(s.previous.value) || s.previousTime != Some(s.previous.value.bar.time) {
        return Some(BlockedSessionStartWithoutPreviousActual), [];
      }
      left := s.previous.value;
    } else {
      reason := InternalRowsMissing;
      ghost var leftTime := s.expected[run[0] - 1];
      assert leftTime in s.byTime && ValidActual(s.byTime[leftTime]);
      if s.expected[run[0] - 1] !in s.byTime || !ValidActual(s.byTime[s.expected[run[0] - 1]]) {
        return Some(BlockedLeftActualAnchorMissing), [];
      }
      left := s.byTime[s.expected[run[0] - 1]];
    }
    if left.bar.dataVersion != Some(scope.dataVersion) {
      return Some(BlockedDataVersionIdentity), [];
    }
    if left.bar.time != scope.sourceTime {
      return Some(BlockedUnapprovedImputationSource), [];
    }
    if !left.lineage {
      return Some(BlockedSourceLineageMissing), [];
    }
    for gap := 0 to |run|
      invariant rows == FilledRows(s, run, scope)[..gap]
    {
      var value := left.bar.content.ohlc.close;
      rows := rows + [Imputed(s.expected[run[gap]], Ohlc(value, value, value, value), reason,
        left.bar.time, gap + 1, |run|, scope.dataVersion, left.bar.dataVersion.value)];
    }
  }

  /** The approved gap is a single run of two neighbouring slots. */
  ghost predicate ApprovedGap(s: Session, scope: Scope, missing: seq<int>) {
    && |missing| == 2 && missing[1] == missing[0] + 1
    && Fillable(s, missing, scope)
  }

  lemma {:induction false} FewRuns(runs: seq<seq<int>>)
    requires forall k :: 0 <= k < |runs| ==> runs[k] != []
    ensures |runs| <= |Flatten(runs)|
    ensures |runs| == 1 ==> Flatten(runs) == runs[0]
    ensures |runs| == 2 ==> Flatten(runs) == runs[0] + runs[1]
  {
    if runs != [] {
      var front := runs[..|runs| - 1];
      assert forall k :: 0 <= k < |front| ==> front[k] == runs[k];
      FewRuns(front);
    }
  }

  lemma {:induction false} FlattenTwo(runs: seq<seq<int>>, missing: seq<int>)
    requires MaximalRuns(runs, missing) && |missing| == 2
    ensures if missing[1] == missing[0] + 1 then runs == [missing] else runs == [[missing[0]], [missing[1]]]
  {
    FewRuns(runs);
    if |runs| == 1 {
      assert Consecutive(runs[0]);
    } else {
      var left, right := runs[0], runs[1];
      assert Separated(left, right) && left + right == missing;
      assert left == [missing[0]] && right == [missing[1]];
    }
  }

  lemma {:induction false} FlattenOne(runs: seq<seq<int>>, missing: seq<int>)
    requires MaximalRuns(runs, missing) && |missing| == 1
    ensures runs == [missing]
  {
    FewRuns(runs);
  }

  /** The slots of a session in time order; None when a slot is listed twice. */
  function ExpectedSlots(times: seq<int>): seq<int> { Sorted(set t | t in times) }

  function SessionOf(date: int, times: seq<int>, actuals: seq<Actual>, previous: Option<Actual>,
      previousTime: Option<int>): Session {
    Session(date, ExpectedSlots(times), ByTime(ExpectedSlots(times), actuals), previous, previousTime)
  }

  function Missing(s: Session): seq<int> { MissingIndexes(s.expected, s.byTime, |s.expected|) }

  function MissingTimes(s: Session): seq<int> {
    var missing := Missing(s);
    seq(|missing|, i requires 0 <= i < |missing| =>
      assert missing[i] in missing; s.expected[missing[i]])
  }

  /** The evidence every plan needs: scope, verified calendar, distinct slots, clean bars, an actual close. */
  ghost predicate Sound(key: string, times: seq<int>, actuals: seq<Actual>, calendarVerified: bool, s: Session) {
    && key in C2_ETF_KEYS && calendarVerified
    && times != [] && |set t | t in times| == |times|
    && !HasDuplicate(s.expected, actuals)
    && (forall t :: t in s.byTime ==> ValidActual(s.byTime[t]))
    && s.expected != [] && s.expected[|s.expected| - 1] in s.byTime
  }

  /** The reviewed gap of this very session, in the reviewed data version, with both anchors in place. */
  ghost predicate Approved(key: string, s: Session) {
    && ConfirmedScope(key).Some?
    && var scope := ConfirmedScope(key).value;
       && s.date == scope.sessionDate
       && MissingTimes(s) == scope.missingTimes
       && (forall t :: t in s.byTime ==> s.byTime[t].bar.dataVersion == Some(scope.dataVersion))
       && ApprovedGap(s, scope, Missing(s))
  }

  lemma {:induction false} GapNeighbours(s: Session, run: seq<int>, missing: seq<int>)
    requires missing == Missing(s) && s.expected != [] && s.expected[|s.expected| - 1] in s.byTime
    requires Consecutive(run) && forall i :: 0 <= i < |run| ==> run[i] in missing
    requires run[0] - 1 !in missing && run[|run| - 1] + 1 !in missing
    ensures Bounded(s, run)
  {
  }

  /** Two separate single gaps can never both be filled: they would need the same left anchor. */
  lemma {:induction false} SeparateGapsAreNotFillable(s: Session, scope: Scope, a: int, b: int)
    requires StrictlyIncreasing(s.expected) && 0 <= a && a + 1 < b < |s.expected|
    requires forall t :: t in s.byTime ==> s.byTime[t].bar.time == t
    requires scope.sourceTime < s.expected[a]
    ensures !Fillable(s, [b], scope)
  {
  }

  lemma {:induction false} SessionIsIndexed(date: int, times: seq<int>, actuals: seq<Actual>,
      previous: Option<Actual>, previousTime: Option<int>)
    ensures StrictlyIncreasing(ExpectedSlots(times))
    ensures !HasDuplicate(ExpectedSlots(times), actuals) ==>
      Indexes(ExpectedSlots(times), actuals, ByTime(ExpectedSlots(times), actuals))
  {
    SortedIncreases(set t | t in times);
    if !HasDuplicate(ExpectedSlots(times), actuals) {
      ByTimeIndexes(ExpectedSlots(times), actuals);
    }
  }

  // ---- How a plan ends ----

  /** The gap is the reviewed one of the instrument: its date and its times. */
  predicate IsReviewed(key: string, s: Session) {
    && ConfirmedScope(key).Some?
    && s.date == ConfirmedScope(key).value.sessionDate && MissingTimes(s) == ConfirmedScope(key).value.missingTimes
  }

  /** Not two bars of different versions, and none without one. */
  ghost predicate Agree(s: Session) {
    && (forall t :: t in s.byTime ==> s.byTime[t].bar.dataVersion.Some?)
    && (forall t, u :: t in s.byTime && u in s.byTime ==> s.byTime[t].bar.dataVersion == s.byTime[u].bar.dataVersion)
  }

  /** Two slots apart: the second is never filled, for its anchor is not the approved source. */
  ghost predicate GapStops(s: Session, scope: Scope, status: Status)
    requires |Missing(s)| == 2
  {
    var missing := Missing(s);
    assert missing[0] in missing;
    if missing[1] == missing[0] + 1 then Stops(s, missing, scope, status)
    else if Fillable(s, [missing[0]], scope) then status == BlockedUnapprovedImputationSource
    else Stops(s, [missing[0]], scope, status)
  }

  /** How a plan over sound evidence ends, in the order of the checks. */
  ghost predicate GapEnds(key: string, s: Session, status: Status) {
    var missing := Missing(s);
    if missing == [] then status == PassNoImputation
    else if |missing| > 2 then status == BlockedMissingPerSessionLimit
    else if !IsReviewed(key, s) then status == BlockedUnapprovedImputationScope
    else if !Agree(s) then status == BlockedDataVersionIdentity
    else if !OneVersion(s, ConfirmedScope(key).value) then status == BlockedUnapprovedImputationDataVersion
    else if Approved(key, s) then status == PassWithImputationWarning
    else |missing| == 2 && GapStops(s, ConfirmedScope(key).value, status)
  }

  /** How a plan ends: the first check that fails names it. */
  ghost predicate Ends(key: string, times: seq<int>, actuals: seq<Actual>, calendarVerified: bool, s: Session,
      status: Status)
  {
    if key !in C2_ETF_KEYS then status == BlockedImputationScope
    else if !calendarVerified then status == BlockedCalendarNotVerified
    else if times == [] then status == BlockedExpectedSessionInvalid
    else if exists i, j :: 0 <= i < j < |times| && times[i] == times[j] then status == BlockedExpectedSessionDuplicate
    else if HasDuplicate(s.expected, actuals) then status == BlockedActualDuplicate
    else if exists t :: t in s.byTime && !ValidActual(s.byTime[t]) then status == BlockedActualQuality
    else
      && s.expected != []
      && if s.expected[|s.expected| - 1] !in s.byTime then status == BlockedDailyCloseSourceMissing
         else GapEnds(key, s, status)
  }

  lemma {:induction false} RepeatedTimes(times: seq<int>)
    ensures |set t | t in times| <= |times|
    ensures |set t | t in times| != |times| <==> exists i, j :: 0 <= i < j < |times| && times[i] == times[j]
  {
    if times != [] {
      var n := |times| - 1;
      RepeatedTimes(times[..n]);
      assert times == times[..n] + [times[n]];
      var before := set t | t in times[..n];
      assert (set t | t in times) == before + {times[n]};
      if times[n] in before {
        var i :| 0 <= i < n && times[..n][i] == times[n];
        assert times[i] == times[n];
      }
      if i, j :| 0 <= i < j < n && times[..n][i] == times[..n][j] {
        assert times[i] == times[j];
      }
      if i, j :| 0 <= i < j < |times| && times[i] == times[j] {
        assert times[..n][i] == times[i] && times[..n][i] in times[..n];
        assert j < n ==> times[..n][j] == times[j];
      }
    }
  }

  method PlanSessionImputation(key: string, date: int, times: seq<int>, actuals: seq<Actual>,
      calendarVerified: bool, previous: Option<Actual>, previousTime: Option<int>)
    returns (plan: Plan)
    ensures var s := SessionOf(date, times, actuals, previous, previousTime);
      && (plan.status == PassNoImputation <==> Sound(key, times, actuals, calendarVerified, s) && Missing(s) == [])
      && (plan.status == PassWithImputationWarning <==>
            Sound(key, times, actuals, calendarVerified, s) && Approved(key, s))
      && (plan.status == PassWithImputationWarning ==>
            plan.imputed == FilledRows(s, Missing(s), ConfirmedScope(key).value))
    ensures plan.status != PassWithImputationWarning ==> plan.imputed == []
    ensures plan.status !in
      {BlockedConsecutiveMissingLimit, BlockedRightActualAnchorMissing, BlockedLeftActualAnchorMissing}
    ensures Ends(key, times, actuals, calendarVerified, SessionOf(date, times, actuals, previous, previousTime),
        plan.status)
    ensures plan.expectedCount == |times|
    ensures plan.status !in {BlockedImputationScope, BlockedCalendarNotVerified, BlockedExpectedSessionInvalid,
      BlockedExpectedSessionDuplicate, BlockedActualDuplicate} ==>
      plan.actualCount == |SessionOf(date, times, actuals, previous, previousTime).byTime|
  {
    hide Sound, Approved, FilledRows, GapEnds;
    var refused, s := CheckSession(key, date, times, actuals, calendarVerified, previous, previousTime);
    if refused.Some? {
      return refused.value;
    }
    plan := PlanGap(key, s);
  }

  predicate SlotsAreFine(key: string, times: seq<int>, calendarVerified: bool) {
    key in C2_ETF_KEYS && calendarVerified && times != [] && |set t | t in times| == |times|
  }

  ghost predicate BarsAreFine(s: Session, actuals: seq<Actual>) {
    !HasDuplicate(s.expected, actuals) && forall t :: t in s.byTime ==> ValidActual(s.byTime[t])
  }

  lemma {:induction false} EndsAtSlots(key: string, times: seq<int>, actuals: seq<Actual>, calendarVerified: bool,
      s: Session)
    ensures !SlotsAreFine(key, times, calendarVerified) ==> !Sound(key, times, actuals, calendarVerified, s)
    ensures key !in C2_ETF_KEYS ==> Ends(key, times, actuals, calendarVerified, s, BlockedImputationScope)
    ensures key in C2_ETF_KEYS && !calendarVerified ==>
      Ends(key, times, actuals, calendarVerified, s, BlockedCalendarNotVerified)
    ensures key in C2_ETF_KEYS && calendarVerified && times == [] ==>
      Ends(key, times, actuals, calendarVerified, s, BlockedExpectedSessionInvalid)
    ensures key in C2_ETF_KEYS && calendarVerified && times != [] && |set t | t in times| != |times| ==>
      Ends(key, times, actuals, calendarVerified, s, BlockedExpectedSessionDuplicate)
  {
    RepeatedTimes(times);
  }

  lemma {:induction false} EndsAtBars(key: string, times: seq<int>, actuals: seq<Actual>, calendarVerified: bool,
      s: Session)
    requires SlotsAreFine(key, times, calendarVerified) && s.expected != []
    ensures HasDuplicate(s.expected, actuals) ==>
      Ends(key, times, actuals, calendarVerified, s, BlockedActualDuplicate)
      && !Sound(key, times, actuals, calendarVerified, s)
    ensures !HasDuplicate(s.expected, actuals) && (exists t :: t in s.byTime && !ValidActual(s.byTime[t])) ==>
      Ends(key, times, actuals, calendarVerified, s, BlockedActualQuality)
      && !Sound(key, times, actuals, calendarVerified, s)
    ensures BarsAreFine(s, actuals) && s.expected[|s.expected| - 1] !in s.byTime ==>
      Ends(key, times, actuals, calendarVerified, s, BlockedDailyCloseSourceMissing)
      && !Sound(key, times, actuals, calendarVerified, s)
    ensures BarsAreFine(s, actuals) && s.expected[|s.expected| - 1] in s.byTime ==>
      && Sound(key, times, actuals, calendarVerified, s)
      && forall status :: GapEnds(key, s, status) ==> Ends(key, times, actuals, calendarVerified, s, status)
  {
    hide HasDuplicate, ValidActual, GapEnds;
    RepeatedTimes(times);
  }

  method CheckSession(key: string, date: int, times: seq<int>, actuals: seq<Actual>,
      calendarVerified: bool, previous: Option<Actual>, previousTime: Option<int>)
    returns (refused: Option<Plan>, s: Session)
    ensures refused.None? <==>
      Sound(key, times, actuals, calendarVerified, SessionOf(date, times, actuals, previous, previousTime))
    ensures refused.None? ==> s == SessionOf(date, times, actuals, previous, previousTime)
    ensures refused.None? ==> StrictlyIncreasing(s.expected) && forall t :: t in s.byTime ==> s.byTime[t].bar.time == t
    ensures refused.Some? ==> refused.value.imputed == [] && refused.value.status in {
      BlockedImputationScope, BlockedCalendarNotVerified, BlockedExpectedSessionInvalid,
          BlockedExpectedSessionDuplicate,
      BlockedActualDuplicate, BlockedActualQuality, BlockedDailyCloseSourceMissing}
    ensures var t := SessionOf(date, times, actuals, previous, previousTime);
      && (refused.Some? ==> Ends(key, times, actuals, calendarVerified, t, refused.value.status))
      && (refused.None? ==> forall status :: GapEnds(key, t, status) ==>
            Ends(key, times, actuals, calendarVerified, t, status))
      && (refused.Some? ==> refused.value.expectedCount == |times|)
      && (refused.Some? && refused.value.status in {BlockedActualQuality, BlockedDailyCloseSourceMissing} ==>
            refused.value.actualCount == |t.byTime|)
    ensures refused.None? ==> |s.expected| == |times| && s.expected != [] && s.expected[|s.expected| - 1] in s.byTime
    ensures refused.None? ==> forall t :: t in s.byTime ==> ValidActual(s.byTime[t])
  {
    hide GapEnds, HasDuplicate, ValidActual, Ends, Sound;
    ghost var whole := SessionOf(date, times, actuals, previous, previousTime);
    EndsAtSlots(key, times, actuals, calendarVerified, whole);
    var unique := set t | t in times;
    var expected := Sorted(unique);
    var n := |times|;
    s := Session(date, expected, map[], previous, previousTime);
    if key !in C2_ETF_KEYS {
      return Some(Blocked(BlockedImputationScope, n, 0)), s;
    }
    if !calendarVerified {
      return Some(Blocked(BlockedCalendarNotVerified, n, 0)), s;
    }
    if times == [] {
      return Some(Blocked(BlockedExpectedSessionInvalid, n, 0)), s;
    }
    if |unique| != |times| {
      return Some(Blocked(BlockedExpectedSessionDuplicate, n, 0)), s;
    }
    assert times[0] in unique && |expected| == |unique|;
    EndsAtBars(key, times, actuals, calendarVerified, whole);
    var byTime, duplicate := IndexActuals(expected, actuals);
    SessionIsIndexed(date, times, actuals, previous, previousTime);
    if duplicate {
      return Some(Blocked(BlockedActualDuplicate, n, |byTime|)), s;
    }
    if exists t :: t in byTime && !ValidActual(byTime[t]) {
      return Some(Blocked(BlockedActualQuality, n, |byTime|)), s;
    }
    if expected[|expected| - 1] !in byTime {
      return Some(Blocked(BlockedDailyCloseSourceMissing, n, |byTime|)), s;
    }
    s := Session(date, expected, byTime, previous, previousTime);
    refused := None;
  }

  method PlanGap(key: string, s: Session) returns (plan: Plan)
    requires StrictlyIncreasing(s.expected) && s.expected != [] && s.expected[|s.expected| - 1] in s.byTime
    requires forall t :: t in s.byTime ==> ValidActual(s.byTime[t]) && s.byTime[t].bar.time == t
    ensures plan.status == PassNoImputation <==> Missing(s) == []
    ensures plan.status == PassWithImputationWarning <==> Approved(key, s)
    ensures plan.status == PassWithImputationWarning ==>
      plan.imputed == FilledRows(s, Missing(s), ConfirmedScope(key).value)
    ensures plan.status != PassWithImputationWarning ==> plan.imputed == []
    ensures plan.status !in
      {BlockedConsecutiveMissingLimit, BlockedRightActualAnchorMissing, BlockedLeftActualAnchorMissing}
    ensures GapEnds(key, s, plan.status) && plan.expectedCount == |s.expected| && plan.actualCount == |s.byTime|
  {
    hide MaximalRuns, Fillable, FilledRows, LeftAnchor, ValidActual, StrictlyIncreasing, GapStops;
    var n: nat, m: nat := |s.expected|, |s.byTime|;
    var missing := MissingIndexes(s.expected, s.byTime, n);
    if missing == [] {
      return Plan(PassNoImputation, n, m, []);
    }
    if |missing| > MAX_MISSING_PER_SESSION {
      return Blocked(BlockedMissingPerSessionLimit, n, m);
    }
    var runs := GroupRuns(missing);
    if |missing| == 1 { FlattenOne(runs, missing); } else { FlattenTwo(runs, missing); }
    if exists k :: 0 <= k < |runs| && |runs[k]| > MAX_CONSECUTIVE_MISSING {
      return Blocked(BlockedConsecutiveMissingLimit, n, m);
    }
    var confirmed := ConfirmedScope(key);
    if confirmed.None? || s.date != confirmed.value.sessionDate || MissingTimes(s) != confirmed.value.missingTimes {
      return Blocked(BlockedUnapprovedImputationScope, n, m);
    }
    var scope := confirmed.value;
    var wrongVersion := CheckVersions(s, scope.dataVersion);
    if wrongVersion.Some? {
      return Blocked(wrongVersion.value, n, m);
    }
    plan := FillGap(s, scope, missing, runs);
  }

  method CheckVersions(s: Session, approved: int) returns (wrong: Option<Status>)
    requires s.byTime.Keys != {}
    ensures wrong.None? <==> forall t :: t in s.byTime ==> s.byTime[t].bar.dataVersion == Some(approved)
    ensures wrong.Some? ==> wrong.value in {BlockedDataVersionIdentity, BlockedUnapprovedImputationDataVersion}
    ensures wrong == Some(BlockedDataVersionIdentity) <==> !Agree(s)
  {
    AgreedVersions(s);
    var versions := set t | t in s.byTime :: s.byTime[t].bar.dataVersion;
    SingleVersion(s, versions, approved);
    if None in versions || |versions| != 1 {
      return Some(BlockedDataVersionIdentity);
    }
    if versions != {Some(approved)} {
      return Some(BlockedUnapprovedImputationDataVersion);
    }
    wrong := None;
  }

  lemma {:induction false} AgreedVersions(s: Session)
    requires s.byTime.Keys != {}
    ensures var versions := set t | t in s.byTime :: s.byTime[t].bar.dataVersion;
      Agree(s) <==> None !in versions && |versions| == 1
  {
    var versions := set t | t in s.byTime :: s.byTime[t].bar.dataVersion;
    var some := Member(s.byTime.Keys);
    var v := s.byTime[some].bar.dataVersion;
    assert v in versions;
    if Agree(s) {
      assert versions == {v};
    }
    if None !in versions && |versions| == 1 {
      forall w | w in versions ensures w == v {
        if w != v { SubsetSize({v, w}, versions); }
      }
      forall t | t in s.byTime ensures s.byTime[t].bar.dataVersion == v {
        assert s.byTime[t].bar.dataVersion in versions;
      }
    }
  }

  /** One data version on every actual bar is the same as a singleton version set. */
  lemma {:induction false} SingleVersion(s: Session, versions: set<Option<int>>, version: int)
    requires s.byTime.Keys != {} && versions == set t | t in s.byTime :: s.byTime[t].bar.dataVersion
    ensures versions == {Some(version)} <==> forall t :: t in s.byTime ==> s.byTime[t].bar.dataVersion == Some(version)
  {
    var some := Member(s.byTime.Keys);
    assert s.byTime[some].bar.dataVersion in versions;
    if forall t :: t in s.byTime ==> s.byTime[t].bar.dataVersion == Some(version) {
      assert versions == {Some(version)};
    }
    if versions == {Some(version)} {
      forall t | t in s.byTime ensures s.byTime[t].bar.dataVersion == Some(version) {
        assert s.byTime[t].bar.dataVersion in versions;
      }
    }
  }

  method FillGap(s: Session, scope: Scope, missing: seq<int>, runs: seq<seq<int>>) returns (plan: Plan)
    requires StrictlyIncreasing(s.expected) && s.expected != [] && s.expected[|s.expected| - 1] in s.byTime
    requires forall t :: t in s.byTime ==> ValidActual(s.byTime[t]) && s.byTime[t].bar.time == t
    requires missing == Missing(s) && MissingTimes(s) == scope.missingTimes
    requires |missing| == 2 && scope.sourceTime < scope.missingTimes[0]
    requires MaximalRuns(runs, missing)
    ensures plan.status == PassWithImputationWarning <==> ApprovedGap(s, scope, missing)
    ensures plan.status == PassWithImputationWarning ==> plan.imputed == FilledRows(s, missing, scope)
    ensures plan.status == PassWithImputationWarning || plan.imputed == []
    ensures plan.status in {PassWithImputationWarning, BlockedDataVersionIdentity,
      BlockedSessionStartWithoutPreviousActual, BlockedUnapprovedImputationSource, BlockedSourceLineageMissing}
    ensures plan.status != PassWithImputationWarning && OneVersion(s, scope) ==> GapStops(s, scope, plan.status)
    ensures plan.expectedCount == |s.expected| && plan.actualCount == |s.byTime|
  {
    hide MaximalRuns, Missing, MissingTimes, StrictlyIncreasing, Fillable, ValidActual, LeftAnchor;
    var n: nat, m: nat := |s.expected|, |s.byTime|;
    RunsAreBounded(s, missing, runs);
    var imputed: seq<Imputed> := [];
    for i := 0 to |runs|
      invariant forall k :: 0 <= k < i ==> Fillable(s, runs[k], scope)
      invariant i == 0 ==> imputed == []
      invariant i == 1 ==> imputed == FilledRows(s, runs[0], scope)
    {
      var blocked, rows := FillRun(s, runs[i], scope);
      if blocked.Some? {
        GapIsFilledOnce(s, scope, missing, runs);
        if OneVersion(s, scope) {
          StoppedGap(s, scope, missing, runs, i, blocked.value);
        }
        return Blocked(blocked.value, n, m);
      }
      imputed := imputed + rows;
    }
    GapIsFilledOnce(s, scope, missing, runs);
    plan := Plan(PassWithImputationWarning, n, m, imputed);
  }

  lemma {:induction false} StoppedGap(s: Session, scope: Scope, missing: seq<int>, runs: seq<seq<int>>, i: nat,
      status: Status)
    requires StrictlyIncreasing(s.expected) && forall t :: t in s.byTime ==> s.byTime[t].bar.time == t
    requires s.expected != [] && s.expected[|s.expected| - 1] in s.byTime
    requires missing == Missing(s) && MissingTimes(s) == scope.missingTimes
    requires |missing| == 2 && scope.sourceTime < scope.missingTimes[0]
    requires MaximalRuns(runs, missing) && i < |runs| && (forall k :: 0 <= k < i ==> Fillable(s, runs[k], scope))
    requires runs[i] != [] && 0 <= runs[i][0] < |s.expected|
    requires !Fillable(s, runs[i], scope) && Stops(s, runs[i], scope, status) && OneVersion(s, scope)
    ensures GapStops(s, scope, status)
  {
    hide MaximalRuns, Missing, Fillable;
    FlattenTwo(runs, missing);
    GapBounds(s, missing);
    if missing[1] != missing[0] + 1 && i == 1 {
      LaterAnchor(s, scope, missing);
      assert runs[1] == [missing[1]] && runs[0] == [missing[0]];
      assert status == BlockedUnapprovedImputationSource;
    }
  }

  /** The bar left of the second of two separate slots is younger than the approved source. */
  lemma {:induction false} LaterAnchor(s: Session, scope: Scope, missing: seq<int>)
    requires StrictlyIncreasing(s.expected) && forall t :: t in s.byTime ==> s.byTime[t].bar.time == t
    requires missing == Missing(s) && |missing| == 2 && 0 <= missing[0] && missing[0] + 1 < missing[1] < |s.expected|
    requires scope.sourceTime < s.expected[missing[0]]
    ensures var left := LeftAnchor(s, missing[1]);
      && s.expected[missing[1] - 1] in s.byTime && left == Some(s.byTime[s.expected[missing[1] - 1]])
      && left.value.bar.time != scope.sourceTime
  {
    assert missing[1] - 1 !in missing;
  }

  lemma {:induction false} RunsAreBounded(s: Session, missing: seq<int>, runs: seq<seq<int>>)
    requires missing == Missing(s) && |missing| == 2 && MaximalRuns(runs, missing)
    requires s.expected != [] && s.expected[|s.expected| - 1] in s.byTime
    ensures forall k :: 0 <= k < |runs| ==> Bounded(s, runs[k])
  {
    FlattenTwo(runs, missing);
    assert missing[0] in missing && missing[1] in missing;
    forall k | 0 <= k < |runs| ensures Bounded(s, runs[k]) {
      GapNeighbours(s, runs[k], missing);
    }
  }

  /** All runs can be filled exactly when there is one run and it can. */
  lemma {:induction false} GapIsFilledOnce(s: Session, scope: Scope, missing: seq<int>, runs: seq<seq<int>>)
    requires StrictlyIncreasing(s.expected)
    requires forall t :: t in s.byTime ==> s.byTime[t].bar.time == t
    requires missing == Missing(s) && MissingTimes(s) == scope.missingTimes
    requires |missing| == 2 && scope.sourceTime < scope.missingTimes[0]
    requires MaximalRuns(runs, missing)
    ensures ApprovedGap(s, scope, missing) <==> forall k :: 0 <= k < |runs| ==> Fillable(s, runs[k], scope)
    ensures ApprovedGap(s, scope, missing) ==> runs == [missing]
  {
    hide MaximalRuns, Fillable, Missing, MissingTimes, StrictlyIncreasing;
    FlattenTwo(runs, missing);
    GapBounds(s, missing);
    if missing[1] == missing[0] + 1 {
      assert runs == [missing] && runs[0] == missing;
    } else {
      SeparateGapsAreNotFillable(s, scope, missing[0], missing[1]);
      assert runs == [[missing[0]], [missing[1]]] && runs[1] == [missing[1]];
    }
  }

  lemma {:induction false} GapBounds(s: Session, missing: seq<int>)
    requires missing == Missing(s) && |missing| == 2
    ensures 0 <= missing[0] < missing[1] < |s.expected|
    ensures |MissingTimes(s)| == 2 && MissingTimes(s)[0] == s.expected[missing[0]]
  {
    assert missing[0] in missing && missing[1] in missing;
  }

  // ---- The gap of record ----

  /** The bar the gap is filled from: of 28 July 2026, 19:30 UTC, valid, of the reviewed version, with its lineage. */
  predicate IsSource(a: Actual, version: int) {
    && a.bar.time == 1785267000 && a.bar.dataVersion == Some(version) && a.lineage
    && a.bar.content.isComplete && a.bar.content.ohlc.Valid()
  }

  /** It stands right before slot `i`: in the session, or as the terminal bar of the session before. */
  ghost predicate StandsBefore(s: Session, i: int, a: Actual)
    requires 0 <= i <= |s.expected|
  {
    if i == 0 then s.previous == Some(a) && s.previousTime == Some(a.bar.time)
    else s.expected[i - 1] in s.byTime && s.byTime[s.expected[i - 1]] == a
  }

  /** 29 July 2026 lacks the bars of 13:30 and 14:30 UTC and no others, before slot `i + 2`, all of one version. */
  ghost predicate Lacks(s: Session, i: int, version: int) {
    && s.date == 20663 && 0 <= i && i + 2 < |s.expected|
    && s.expected[i] == 1785331800 && s.expected[i + 1] == 1785335400
    && (forall t :: t in s.expected ==> (t in s.byTime <==> t != 1785331800 && t != 1785335400))
    && (forall t :: t in s.byTime ==> s.byTime[t].bar.dataVersion == Some(version))
  }

  /** The two instruments with a reviewed gap, each in the data version it was reviewed in. */
  predicate ReviewedIn(key: string, version: int) {
    (key == "tip" && version == 29759068) || (key == "gld" && version == 29749768)
  }

  ghost predicate GapOfRecord(key: string, s: Session, i: int, version: int, source: Actual) {
    ReviewedIn(key, version) && Lacks(s, i, version) && IsSource(source, version) && StandsBefore(s, i, source)
  }

  lemma {:induction false} TheTwoKeys(key: string)
    ensures ConfirmedScope(key).Some? <==> key == "tip" || key == "gld"
    ensures forall version :: ReviewedIn(key, version) ==>
      ConfirmedScope(key) == Some(Scope(20663, [1785331800, 1785335400], 1785267000, version))
    ensures ConfirmedScope(key).Some? ==> ReviewedIn(key, ConfirmedScope(key).value.dataVersion)
  {
    assert "tip"[0] == 't' && "gld"[0] == 'g';
  }

  lemma {:induction false} MissingAre(s: Session, i: nat)
    requires StrictlyIncreasing(s.expected) && i + 1 < |s.expected|
    requires forall t :: t in s.expected ==> (t in s.byTime <==> t != s.expected[i] && t != s.expected[i + 1])
    ensures Missing(s) == [i, i + 1] && MissingTimes(s) == [s.expected[i], s.expected[i + 1]]
  {
    var missing := Missing(s);
    forall k ensures k in missing <==> k == i || k == i + 1 {
      assert 0 <= k < |s.expected| ==> s.expected[k] in s.expected;
    }
    TwoInOrder(missing, i, i + 1);
  }

  lemma {:induction false} TwoInOrder(r: seq<int>, a: int, b: int)
    requires StrictlyIncreasing(r) && a < b && forall k :: k in r <==> k == a || k == b
    ensures r == [a, b]
  {
    SortedIsUnique(r, {a, b});
    SortedIsUnique([a, b], {a, b});
  }

  lemma {:induction false} RecordIsApproved(key: string, s: Session, i: int, version: int, source: Actual)
    requires StrictlyIncreasing(s.expected) && GapOfRecord(key, s, i, version, source)
    ensures Approved(key, s) && Missing(s) == [i, i + 1] && LeftAnchor(s, i) == Some(source)
  {
    hide Missing, MissingTimes;
    TheTwoKeys(key);
    MissingAre(s, i);
    assert s.expected[i + 2] in s.expected && s.expected[i] < s.expected[i + 1] < s.expected[i + 2];
  }

  lemma {:induction false} ApprovedIsRecord(key: string, s: Session) returns (i: int, version: int, source: Actual)
    requires StrictlyIncreasing(s.expected) && Approved(key, s)
    requires forall t :: t in s.byTime ==> t in s.expected
    ensures GapOfRecord(key, s, i, version, source)
  {
    TheTwoKeys(key);
    var missing := Missing(s);
    assert missing[0] in missing && missing[1] in missing;
    i, version, source := missing[0], ConfirmedScope(key).value.dataVersion, LeftAnchor(s, missing[0]).value;
    assert MissingTimes(s)[0] == s.expected[i] && MissingTimes(s)[1] == s.expected[i + 1];
    forall t | t in s.expected ensures t in s.byTime <==> t != 1785331800 && t != 1785335400 {
      var k :| 0 <= k < |s.expected| && s.expected[k] == t;
      assert k in missing <==> k == i || k == i + 1;
    }
  }

  /**
   Exactly what is approved: the one gap on record of either instrument, from the one source bar on record; and what
   is then filled in: two flat bars at that bar's close.
   */
  lemma {:induction false} ApprovedExactly(key: string, s: Session)
    requires StrictlyIncreasing(s.expected) && forall t :: t in s.byTime ==> t in s.expected
    ensures Approved(key, s) <==> exists i, version, source :: GapOfRecord(key, s, i, version, source)
    ensures forall i, version, source :: GapOfRecord(key, s, i, version, source) ==>
      RowsOfRecord(key, s, i, version, source)
  {
    hide Approved, Missing, GapOfRecord, StrictlyIncreasing;
    if Approved(key, s) {
      var i, version, source := ApprovedIsRecord(key, s);
    }
    forall i, version, source | GapOfRecord(key, s, i, version, source)
      ensures RowsOfRecord(key, s, i, version, source)
    {
      RecordIsApproved(key, s, i, version, source);
      FilledOfRecord(key, s, i, version, source);
    }
  }

  /** Both missing hours flat at the close of the source, the first of the two and the second. */
  ghost predicate RowsOfRecord(key: string, s: Session, i: int, version: int, source: Actual) {
    && Approved(key, s)
    && var c := source.bar.content.ohlc.close;
       var reason := if i == 0 then SessionOpenRowsMissing else InternalRowsMissing;
       FilledRows(s, Missing(s), ConfirmedScope(key).value) == [
         Imputed(1785331800, Ohlc(c, c, c, c), reason, 1785267000, 1, 2, version, version),
         Imputed(1785335400, Ohlc(c, c, c, c), reason, 1785267000, 2, 2, version, version)]
  }

  lemma {:induction false} FilledOfRecord(key: string, s: Session, i: int, version: int, source: Actual)
    requires GapOfRecord(key, s, i, version, source) && Approved(key, s)
    requires Missing(s) == [i, i + 1] && LeftAnchor(s, i) == Some(source)
    ensures RowsOfRecord(key, s, i, version, source)
  {
    hide Missing, MissingTimes, LeftAnchor;
    TheTwoKeys(key);
  }

  /**
   What an approved plan is: two neighbouring slots, never the terminal one, no slot both actual and filled,
   no slot neither, and every filled price is the close of the single actual bar on the left.
   */
  lemma {:induction false} ApprovedPlanIsBounded(key: string, s: Session)
    requires StrictlyIncreasing(s.expected) && s.expected != [] && s.expected[|s.expected| - 1] in s.byTime
    requires Approved(key, s)
    ensures var rows := FilledRows(s, Missing(s), ConfirmedScope(key).value);
      var anchor := LeftAnchor(s, Missing(s)[0]).value.bar;
      && |rows| == 2
      && (exists i :: 0 <= i < |s.expected| - 2 && s.expected[i] == rows[0].time && s.expected[i + 1] == rows[1].time)
      && (forall t :: t in s.expected ==> (t in s.byTime <==> t != rows[0].time && t != rows[1].time))
      && (forall r :: r in rows ==>
            && r.ohlc == Ohlc(anchor.content.ohlc.close, anchor.content.ohlc.close, anchor.content.ohlc.close,
                anchor.content.ohlc.close)
            && r.sourceTime == anchor.time && r.sourceTime < rows[0].time && r.ohlc.Valid())
  {
    var missing := Missing(s);
    var rows := FilledRows(s, missing, ConfirmedScope(key).value);
    assert missing[0] in missing && missing[1] in missing;
    assert MissingTimes(s)[0] == s.expected[missing[0]] == rows[0].time;
    assert MissingTimes(s)[1] == s.expected[missing[1]] == rows[1].time;
    forall t | t in s.expected ensures t in s.byTime <==> t != rows[0].time && t != rows[1].time {
      var i :| 0 <= i < |s.expected| && s.expected[i] == t;
      assert i in missing <==> i == missing[0] || i == missing[1];
    }
  }
}
