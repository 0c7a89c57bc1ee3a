/** What a comparison reports and decides, told by the provider's bars and the stored rows. */
module RevisionRules {
  import opened Sets
  import opened Types
  import opened Revision
  import Normalize

  // ---- The bars by time ----

  ghost predicate DistinctTimes(bars: seq<Bar>) {
    forall i, j :: 0 <= i < j < |bars| ==> bars[i].time != bars[j].time
  }

  lemma {:induction false} AddTime(bars: seq<Bar>)
    requires bars != []
    ensures var n := |bars| - 1; TimesOf(bars) == TimesOf(bars[..n]) + {bars[n].time}
  {
    var n := |bars| - 1;
    assert bars == bars[..n] + [bars[n]];
  }

  /** As many times as bars means that no time is repeated. */
  lemma {:induction false} TimesCountBars(bars: seq<Bar>)
    ensures |TimesOf(bars)| <= |bars|
    ensures |TimesOf(bars)| == |bars| <==> DistinctTimes(bars)
  {
    if bars != [] {
      hide TimesOf;
      var n := |bars| - 1;
      TimesCountBars(bars[..n]);
      AddTime(bars);
      LastTime(bars);
    } else {
      assert TimesOf(bars) == {};
    }
  }

  lemma {:induction false} LastTime(bars: seq<Bar>)
    requires bars != []
    ensures var n := |bars| - 1;
      DistinctTimes(bars) <==> DistinctTimes(bars[..n]) && bars[n].time !in TimesOf(bars[..n])
  {
    var n := |bars| - 1;
    forall b | DistinctTimes(bars) && b in bars[..n] ensures b.time != bars[n].time {
      var i :| 0 <= i < n && bars[..n][i] == b;
      assert bars[i] == b;
    }
    if DistinctTimes(bars[..n]) && bars[n].time !in TimesOf(bars[..n]) {
      forall i, j | 0 <= i < j < |bars| ensures bars[i].time != bars[j].time {
        assert bars[..n][i] == bars[i];
        assert bars[..n][i] in bars[..n];
        assert j < n ==> bars[..n][j] == bars[j];
      }
    }
  }

  /** A bar is found under its time. */
  lemma {:induction false} BarByTime(bars: seq<Bar>, b: Bar)
    requires DistinctTimes(bars) && b in bars
    ensures b.time in ByTime(bars) && ByTime(bars)[b.time] == b
  {
    var k :| 0 <= k < |bars| && bars[k] == b;
    Normalize.FirstInPage(map[], bars, k, |bars|);
    assert bars[..|bars|] == bars;
  }

  ghost predicate BarAt(bars: seq<Bar>, t: int) { exists b :: b in bars && b.time == t }

  lemma {:induction false} ByTimeIs(bars: seq<Bar>)
    requires DistinctTimes(bars)
    ensures forall t :: t in ByTime(bars) <==> BarAt(bars, t)
    ensures forall b :: b in bars ==> b.time in ByTime(bars) && ByTime(bars)[b.time] == b
    ensures forall t :: t in ByTime(bars) ==> ByTime(bars)[t] in bars && ByTime(bars)[t].time == t
  {
    forall b | b in bars ensures b.time in ByTime(bars) && ByTime(bars)[b.time] == b {
      BarByTime(bars, b);
    }
  }

  // ---- When there is no comparison ----

  ghost predicate Carries(bars: seq<Bar>, v: int) { exists b :: b in bars && b.dataVersion == Some(v) }

  lemma {:induction false} VersionsAre(bars: seq<Bar>)
    ensures forall v :: v in Versions(bars) <==> Carries(bars, v)
    ensures |Versions(bars)| == 1 <==> exists v :: OnlyVersion(bars, v)
    ensures forall v :: OnlyVersion(bars, v) ==> Versions(bars) != {} && Min(Versions(bars)) == v
  {
    forall v ensures v in Versions(bars) <==> Carries(bars, v) {
    }
    if |Versions(bars)| == 1 {
      var v := Member(Versions(bars));
      forall w | w in Versions(bars) ensures w == v {
        if w != v { SubsetSize({v, w}, Versions(bars)); }
      }
      assert OnlyVersion(bars, v);
    }
    forall v | OnlyVersion(bars, v) ensures Versions(bars) == {v} {
      forall w ensures w in Versions(bars) <==> w in {v} {
        assert w in Versions(bars) <==> Carries(bars, w);
      }
    }
  }

  /** The bars carry this version and no other. */
  ghost predicate OnlyVersion(bars: seq<Bar>, v: int) {
    Carries(bars, v) && forall w :: Carries(bars, w) ==> w == v
  }

  /** Exactly when a window is refused, and for what: the first of four reasons. */
  lemma {:induction false} RefusedWindows(bars: seq<Bar>, stored: Stored, oldVersion: int, requested: int,
      maximum: int, required: int)
    ensures var r := Compare(bars, stored, oldVersion, requested, maximum, required);
      && (r == Err(EmptyProviderWindow) <==> bars == [])
      && (r == Err(NonUniqueProviderWindow) <==> bars != [] && !DistinctTimes(bars))
      && (r == Err(MultipleOrMissingDataVersions) <==>
            bars != [] && DistinctTimes(bars) && forall v :: !OnlyVersion(bars, v))
      && (r == Err(DataVersionNotChanged) <==> bars != [] && DistinctTimes(bars) && OnlyVersion(bars, oldVersion))
      && (r.Ok? ==> DistinctTimes(bars) && OnlyVersion(bars, r.value.newVersion))
      && (r.Ok? ==> r.value.newVersion != oldVersion && r.value.oldVersion == oldVersion)
  {
    hide Report, Versions, TimesOf, OnlyVersion, DistinctTimes;
    TimesCountBars(bars);
    VersionsAre(bars);
    if bars != [] && DistinctTimes(bars) && |Versions(bars)| == 1 {
      NonEmptyByTime(bars);
      ReportedVersions(ByTime(bars), Order(bars), stored, oldVersion, Min(Versions(bars)), requested, maximum,
          required);
    }
  }

  lemma {:induction false} ReportedVersions(p: map<int, Bar>, ordered: seq<Bar>, stored: Stored, oldVersion: int,
      version: int, requested: int, maximum: int, required: int)
    requires p.Keys != {}
    ensures var c := Report(p, ordered, stored, oldVersion, version, requested, maximum, required);
      c.oldVersion == oldVersion && c.newVersion == version
  {
  }

  // ---- What a comparison reports ----

  ghost predicate Differs(bars: seq<Bar>, stored: Stored, t: int) {
    t in stored && exists b :: b in bars && b.time == t && b.content != stored[t].content
  }

  ghost predicate IsNew(bars: seq<Bar>, stored: Stored, t: int) { t !in stored && BarAt(bars, t) }

  ghost predicate IsRemoved(bars: seq<Bar>, stored: Stored, window: Range, t: int) {
    t in stored && window.first <= t <= window.last && !BarAt(bars, t)
  }

  /** From the earliest bar to the latest. */
  ghost predicate Bounds(window: Range, bars: seq<Bar>) {
    && BarAt(bars, window.first) && BarAt(bars, window.last)
    && forall b :: b in bars ==> window.first <= b.time <= window.last
  }

  ghost predicate Changes(bars: seq<Bar>, stored: Stored, window: Range, t: int) {
    Differs(bars, stored, t) || IsNew(bars, stored, t) || IsRemoved(bars, stored, window, t)
  }

  /** The affected range is the least that holds every change, and there is none without a change. */
  ghost predicate Spans(affected: Option<Range>, bars: seq<Bar>, stored: Stored, window: Range) {
    if affected.None? then forall t :: !Changes(bars, stored, window, t)
    else
      && Changes(bars, stored, window, affected.value.first) && Changes(bars, stored, window, affected.value.last)
      && forall t :: Changes(bars, stored, window, t) ==> affected.value.first <= t <= affected.value.last
  }

  /** The report lists the changes, each kind in time order, and bounds them. */
  lemma {:induction false} ReportedChanges(bars: seq<Bar>, stored: Stored, oldVersion: int, requested: int,
      maximum: int, required: int)
    requires Compare(bars, stored, oldVersion, requested, maximum, required).Ok?
    ensures var c := Compare(bars, stored, oldVersion, requested, maximum, required).value;
      && Bounds(c.compared, bars) && Spans(c.affected, bars, stored, c.compared)
      && StrictlyIncreasing(c.differences) && (forall t :: t in c.differences <==> Differs(bars, stored, t))
      && StrictlyIncreasing(c.newTimes) && (forall t :: t in c.newTimes <==> IsNew(bars, stored, t))
      && StrictlyIncreasing(c.removedTimes)
      && (forall t :: t in c.removedTimes <==> IsRemoved(bars, stored, c.compared, t))
      && c.providerRows == |bars|
      && c.versionOnlyRows == |OlderRows(bars, stored, c.newVersion)|
  {
    hide Compare, Report, Affected, Span, WindowOf, StrictlyIncreasing, Spans, Bounds, OlderRows;
    RefusedWindows(bars, stored, oldVersion, requested, maximum, required);
    CompareReports(bars, stored, oldVersion, requested, maximum, required);
    ByTimeIs(bars);
    var p, v := ByTime(bars), Min(Versions(bars));
    ReportIs(p, Order(bars), stored, oldVersion, v, requested, maximum, required);
    SortedIncreases(DifferenceTimes(p, stored));
    SortedIncreases(NewTimes(p, stored));
    SortedIncreases(RemovedTimes(p, stored, WindowOf(p.Keys)));
    WindowBounds(bars);
    SpanSpans(bars, stored);
    OlderRowsAre(bars, stored, v);
  }

  /** Stored rows with the same content under another version, or none. */
  function OlderRows(bars: seq<Bar>, stored: Stored, version: int): set<int> {
    set b | b in bars && b.time in stored && b.content == stored[b.time].content
      && stored[b.time].dataVersion != Some(version) :: b.time
  }

  lemma {:induction false} OlderRowsAre(bars: seq<Bar>, stored: Stored, version: int)
    requires DistinctTimes(bars)
    ensures VersionOnlyTimes(ByTime(bars), stored, version) == OlderRows(bars, stored, version)
  {
    ByTimeIs(bars);
  }

  lemma {:induction false} ReportIs(p: map<int, Bar>, ordered: seq<Bar>, stored: Stored, oldVersion: int, version: int,
      requested: int, maximum: int, required: int)
    requires p.Keys != {}
    ensures var c := Report(p, ordered, stored, oldVersion, version, requested, maximum, required);
      && c.compared == WindowOf(p.Keys) && c.affected == Span(Affected(p, stored, c.compared))
      && c.differences == Sorted(DifferenceTimes(p, stored)) && c.newTimes == Sorted(NewTimes(p, stored))
      && c.removedTimes == Sorted(RemovedTimes(p, stored, c.compared))
      && c.versionOnlyRows == |VersionOnlyTimes(p, stored, version)| && c.newVersion == version
      && c.providerRows == |p|
  {
  }

  lemma {:induction false} WindowBounds(bars: seq<Bar>)
    requires DistinctTimes(bars) && ByTime(bars).Keys != {}
    ensures Bounds(WindowOf(ByTime(bars).Keys), bars)
  {
    ByTimeIs(bars);
    var keys := ByTime(bars).Keys;
    assert Min(keys) in keys && Max(keys) in keys;
    assert BarAt(bars, Min(keys)) && BarAt(bars, Max(keys));
    forall b | b in bars ensures Min(keys) <= b.time <= Max(keys) {
      assert b.time in keys;
    }
  }

  lemma {:induction false} SpanSpans(bars: seq<Bar>, stored: Stored)
    requires DistinctTimes(bars) && ByTime(bars).Keys != {}
    ensures var p := ByTime(bars);
      var window := WindowOf(p.Keys);
      && Spans(Span(Affected(p, stored, window)), bars, stored, window)
      && (forall t :: t in DifferenceTimes(p, stored) <==> Differs(bars, stored, t))
      && (forall t :: t in NewTimes(p, stored) <==> IsNew(bars, stored, t))
      && (forall t :: t in RemovedTimes(p, stored, window) <==> IsRemoved(bars, stored, window, t))
  {
    hide WindowOf, Affected, Changes;
    var p := ByTime(bars);
    var window := WindowOf(p.Keys);
    ChangedTimes(bars, stored, window);
    LeastSpan(Affected(p, stored, window), bars, stored, window);
  }

  lemma {:induction false} ChangedTimes(bars: seq<Bar>, stored: Stored, window: Range)
    requires DistinctTimes(bars)
    ensures var p := ByTime(bars);
      && (forall t :: t in DifferenceTimes(p, stored) <==> Differs(bars, stored, t))
      && (forall t :: t in NewTimes(p, stored) <==> IsNew(bars, stored, t))
      && (forall t :: t in RemovedTimes(p, stored, window) <==> IsRemoved(bars, stored, window, t))
      && (forall t :: t in Affected(p, stored, window) <==> Changes(bars, stored, window, t))
  {
    ByTimeIs(bars);
    var p := ByTime(bars);
    hide ByTime, DistinctTimes;
    forall t ensures t in DifferenceTimes(p, stored) <==> Differs(bars, stored, t) {
    }
  }

  lemma {:induction false} LeastSpan(affected: set<int>, bars: seq<Bar>, stored: Stored, window: Range)
    requires forall t :: t in affected <==> Changes(bars, stored, window, t)
    ensures Spans(Span(affected), bars, stored, window)
  {
    hide Changes;
    if affected != {} {
      assert Changes(bars, stored, window, Min(affected)) && Changes(bars, stored, window, Max(affected));
    }
  }

  // ---- What it decides ----

  /** Provider rows that are complete and stored, and those of them with another content. */
  function Matched(bars: seq<Bar>, stored: Stored): set<int> {
    set b | b in bars && b.content.isComplete && b.time in stored :: b.time
  }

  function MatchedOtherwise(bars: seq<Bar>, stored: Stored): set<int> {
    set b | b in bars && b.content.isComplete && b.time in stored && b.content != stored[b.time].content :: b.time
  }

  /** At least four fifths of the matched complete rows differ, of enough to tell. */
  predicate LooksWhole(bars: seq<Bar>, stored: Stored, required: int) {
    var all, changed := |Matched(bars, stored)|, |MatchedOtherwise(bars, stored)|;
    all > 0 && all >= required && 10 * changed >= 8 * all
  }

  /** Rows of the provider inside the affected range. */
  function Inside(bars: seq<Bar>, affected: Option<Range>): set<int> {
    set b | b in bars && affected.Some? && affected.value.first <= b.time <= affected.value.last :: b.time
  }

  /** The first row compared is itself affected, so nothing before it is known to agree. */
  predicate AtTheEdge(c: Comparison) { c.affected.Some? && c.affected.value.first == c.compared.first }

  predicate TooMuch(c: Comparison, bars: seq<Bar>) {
    |c.removedTimes| > 64 || |Inside(bars, c.affected)| + |c.removedTimes| > 240
  }

  /**
   The decision and its reason, from the report alone: more than 64 rows gone or 240 rows affected, or a revision of
   the whole history, needs a full refetch; without an anchor before the affected rows a wider window is asked for,
   as long as there is one; otherwise the revision is ready, with or without a change.
   */
  lemma {:induction false} DecidedExactly(bars: seq<Bar>, stored: Stored, oldVersion: int, requested: int,
      maximum: int, required: int)
    requires Compare(bars, stored, oldVersion, requested, maximum, required).Ok?
    ensures var c := Compare(bars, stored, oldVersion, requested, maximum, required).value;
      var proven := c.stableAnchorRows >= required && !AtTheEdge(c);
      && (c.reason == RemovalLimitExceeded <==> |c.removedTimes| > 64)
      && (c.reason == AffectedRangeLimitExceeded <==> |c.removedTimes| <= 64 && TooMuch(c, bars))
      && (c.reason == WholeHistoryChangeSuspected <==> !TooMuch(c, bars) && LooksWhole(bars, stored, required))
      && (c.decision == Expand <==>
            !TooMuch(c, bars) && !LooksWhole(bars, stored, required) && !proven && requested < maximum)
      && (c.decision == ReadyToApply <==> !TooMuch(c, bars) && !LooksWhole(bars, stored, required) && proven)
      && (c.reason == StableBoundaryNotYetProven <==> c.decision == Expand)
      && (c.reason == NoContentChange <==> c.decision == ReadyToApply && c.affected.None?)
      && (c.reason == BoundedRangeIdentified <==> c.decision == ReadyToApply && c.affected.Some?)
  {
    hide Compare, Report, Affected, Span, WindowOf, TimesOf, Lists, Inside, Matched, MatchedOtherwise, Decide,
      DistinctTimes, OnlyVersion, InRange, MatchedComplete, CompletedDifferences, Order;
    RefusedWindows(bars, stored, oldVersion, requested, maximum, required);
    CompareReports(bars, stored, oldVersion, requested, maximum, required);
    CountedRows(bars, stored, WindowOf(ByTime(bars).Keys));
    VerdictOfReport(ByTime(bars), Order(bars), stored, oldVersion, Min(Versions(bars)), requested, maximum, required);
    var c := Compare(bars, stored, oldVersion, requested, maximum, required).value;
    DecisionTable(|c.removedTimes|, |Inside(bars, c.affected)| + |c.removedTimes|, |Matched(bars, stored)|,
      |MatchedOtherwise(bars, stored)|, c.stableAnchorRows, required, AtTheEdge(c), requested, maximum,
      c.affected.Some?);
  }

  lemma {:induction false} DecisionTable(removed: int, rows: int, matched: int, otherwise: int, anchor: int,
      required: int, atBoundary: bool, requested: int, maximum: int, changed: bool)
    requires 0 <= matched
    ensures var (decision, reason) :=
        Decide(removed, rows, matched, otherwise, anchor, required, atBoundary, requested, maximum, changed);
      var tooMuch, whole := removed > 64 || rows > 240, matched > 0 && matched >= required
          && 10 * otherwise >= 8 * matched;
      var proven := anchor >= required && !atBoundary;
      && (reason == RemovalLimitExceeded <==> removed > 64)
      && (reason == AffectedRangeLimitExceeded <==> removed <= 64 && tooMuch)
      && (reason == WholeHistoryChangeSuspected <==> !tooMuch && whole)
      && (decision == Expand <==> !tooMuch && !whole && !proven && requested < maximum)
      && (decision == ReadyToApply <==> !tooMuch && !whole && proven)
      && (reason == StableBoundaryNotYetProven <==> decision == Expand)
      && (reason == NoContentChange <==> decision == ReadyToApply && !changed)
      && (reason == BoundedRangeIdentified <==> decision == ReadyToApply && changed)
  {
  }

  lemma {:induction false} CountedRows(bars: seq<Bar>, stored: Stored, window: Range)
    requires DistinctTimes(bars)
    ensures var p := ByTime(bars);
      var span := Span(Affected(p, stored, window));
      && InRange(p, span) == Inside(bars, span) && MatchedComplete(p, stored) == Matched(bars, stored)
      && CompletedDifferences(p, stored) == MatchedOtherwise(bars, stored)
  {
    hide Affected, Span;
    ByTimeIs(bars);
  }

  lemma {:induction false} VerdictOfReport(p: map<int, Bar>, ordered: seq<Bar>, stored: Stored, oldVersion: int,
      version: int, requested: int, maximum: int, required: int)
    requires p.Keys != {}
    ensures var c := Report(p, ordered, stored, oldVersion, version, requested, maximum, required);
      && c.compared == WindowOf(p.Keys) && c.affected == Span(Affected(p, stored, c.compared))
      && (c.decision, c.reason) == Decide(|c.removedTimes|, |InRange(p, c.affected)| + |c.removedTimes|,
           |MatchedComplete(p, stored)|, |CompletedDifferences(p, stored)|, c.stableAnchorRows, required,
           AtTheEdge(c), requested, maximum, c.affected.Some?)
  {
    hide Decide, Affected, Span, WindowOf, InRange, MatchedComplete, CompletedDifferences, AnchorRows, Preceding;
  }
}
