/** Comparing a provider window with the stored bars, and deciding whether a bounded patch is proven. */
module Revision {
  import opened Sets
  import opened Types
  import Normalize
  import Paging

  const WINDOW_COUNTS := [96, 384, 1200]
  const MAXIMUM_COUNT := 1200
  const STABLE_ANCHOR_ROWS := 16
  const MAX_AFFECTED_ROWS := 240
  const MAX_REMOVED_ROWS := 64

  datatype StoredBar = StoredBar(content: Content, dataVersion: Option<int>)

  type Stored = map<int, StoredBar>

  datatype Decision = ReadyToApply | Expand | BlockedFullRefetch

  datatype Reason =
    | RemovalLimitExceeded
    | AffectedRangeLimitExceeded
    | WholeHistoryChangeSuspected
    | StableBoundaryNotYetProven
    | ComparisonLimitExceeded
    | NoContentChange
    | BoundedRangeIdentified

  datatype CompareError =
    EmptyProviderWindow | NonUniqueProviderWindow | MultipleOrMissingDataVersions | DataVersionNotChanged

  datatype Range = Range(first: int, last: int) {
    predicate Has(t: int) { first <= t <= last }
  }

  datatype Comparison = Comparison(
    decision: Decision,
    reason: Reason,
    oldVersion: int,
    newVersion: int,
    compared: Range,
    providerRows: nat,
    matchedRows: nat,
    versionOnlyRows: nat,
    stableAnchorRows: nat,
    affected: Option<Range>,
    differences: seq<int>,
    newTimes: seq<int>,
    removedTimes: seq<int>)

  // ---- What a comparison reports ----

  /** The provider's bars by time. Times are distinct wherever this is used. */
  function ByTime(bars: seq<Bar>): map<int, Bar> { Normalize.AddPage(map[], bars) }

  function TimesOf(bars: seq<Bar>): set<int> { set b | b in bars :: b.time }

  /** The bars of a dictionary in time order. */
  function Listing(m: map<int, Bar>): seq<Bar> {
    var keys := Sorted(m.Keys);
    seq(|keys|, i requires 0 <= i < |keys| => m[keys[i]])
  }

  function Order(bars: seq<Bar>): seq<Bar> { Listing(ByTime(bars)) }

  function DifferenceTimes(p: map<int, Bar>, stored: Stored): set<int> {
    set t | t in p && t in stored && p[t].content != stored[t].content
  }

  function NewTimes(p: map<int, Bar>, stored: Stored): set<int> { p.Keys - stored.Keys }

  function RemovedTimes(p: map<int, Bar>, stored: Stored, window: Range): set<int> {
    set t | t in stored && window.Has(t) && t !in p
  }

  function VersionOnlyTimes(p: map<int, Bar>, stored: Stored, version: int): set<int> {
    set t | t in p && t in stored && p[t].content == stored[t].content && stored[t].dataVersion != Some(version)
  }

  function Affected(p: map<int, Bar>, stored: Stored, window: Range): set<int> {
    DifferenceTimes(p, stored) + NewTimes(p, stored) + RemovedTimes(p, stored, window)
  }

  function Span(s: set<int>): Option<Range> {
    if s == {} then None else Some(Range(Min(s), Max(s)))
  }

  /** The bars before a boundary, all of them when there is none. */
  function Preceding(ordered: seq<Bar>, affected: Option<Range>): (r: seq<Bar>)
    ensures forall b :: b in r <==> b in ordered && (affected.None? || b.time < affected.value.first)
  {
    if ordered == [] then []
    else
      var n := |ordered| - 1;
      assert ordered == ordered[..n] + [ordered[n]];
      var earlier := Preceding(ordered[..n], affected);
      if affected.None? || ordered[n].time < affected.value.first then earlier + [ordered[n]] else earlier
  }

  predicate IsAnchor(b: Bar, stored: Stored) {
    b.time in stored && b.content.isComplete && b.content == stored[b.time].content
  }

  /** Matching complete bars, counted back from the end until the first that is not. */
  function AnchorRows(bars: seq<Bar>, stored: Stored): nat {
    if bars != [] && IsAnchor(bars[|bars| - 1], stored) then 1 + AnchorRows(bars[..|bars| - 1], stored) else 0
  }

  function CompleteSuffix(bars: seq<Bar>): nat {
    if bars != [] && bars[|bars| - 1].content.isComplete then 1 + CompleteSuffix(bars[..|bars| - 1]) else 0
  }

  function MatchedComplete(p: map<int, Bar>, stored: Stored): set<int> {
    set t | t in p && t in stored && p[t].content.isComplete
  }

  function CompletedDifferences(p: map<int, Bar>, stored: Stored): set<int> {
    set t | t in DifferenceTimes(p, stored) && p[t].content.isComplete
  }

  function InRange(p: map<int, Bar>, range: Option<Range>): set<int> {
    set t | t in p && range.Some? && range.value.Has(t)
  }

  /** The gates, in the order the code applies them. 0.80 of the matched complete rows is 4 in 5. */
  function Decide(removed: int, spanRows: int, matchedComplete: int, completedDifferences: int,
      anchor: int, required: int, atBoundary: bool, requested: int, maximum: int, changed: bool): (Decision, Reason)
  {
    if removed > MAX_REMOVED_ROWS then (BlockedFullRefetch, RemovalLimitExceeded)
    else if spanRows > MAX_AFFECTED_ROWS then (BlockedFullRefetch, AffectedRangeLimitExceeded)
    else if matchedComplete >= required && matchedComplete != 0 && 5 * completedDifferences >= 4 * matchedComplete then
      (BlockedFullRefetch, WholeHistoryChangeSuspected)
    else if anchor < required || atBoundary then
      if requested < maximum then (Expand, StableBoundaryNotYetProven)
      else (BlockedFullRefetch, ComparisonLimitExceeded)
    else (ReadyToApply, if changed then BoundedRangeIdentified else NoContentChange)
  }

  function Versions(bars: seq<Bar>): set<int> {
    set b | b in bars && b.dataVersion.Some? :: b.dataVersion.value
  }

  function WindowOf(times: set<int>): Range
    requires times != {}
  {
    Range(Min(times), Max(times))
  }

  function Compare(bars: seq<Bar>, stored: Stored, oldVersion: int, requested: int, maximum: int, required: int)
    : Result<Comparison, CompareError>
  {
    if bars == [] then Err(EmptyProviderWindow)
    else if |TimesOf(bars)| != |bars| then Err(NonUniqueProviderWindow)
    else if |Versions(bars)| != 1 then Err(MultipleOrMissingDataVersions)
    else
      var version := Min(Versions(bars));
      if version == oldVersion then Err(DataVersionNotChanged)
      else Ok(Report(ByTime(bars), Order(bars), stored, oldVersion, version, requested, maximum, required))
  }

  function Verdict(p: map<int, Bar>, stored: Stored, window: Range, anchor: int, required: int, requested: int,
      maximum: int)
    : (Decision, Reason)
  {
    var removed := RemovedTimes(p, stored, window);
    var span := Span(Affected(p, stored, window));
    Decide(|removed|, |InRange(p, span)| + |removed|, |MatchedComplete(p, stored)|,
      |CompletedDifferences(p, stored)|, anchor, required,
      span.Some? && span.value.first == window.first, requested, maximum, span.Some?)
  }

  function Report(p: map<int, Bar>, ordered: seq<Bar>, stored: Stored, oldVersion: int, version: int,
      requested: int, maximum: int, required: int): Comparison
    requires p.Keys != {}
  {
    var window := WindowOf(p.Keys);
    var removed := RemovedTimes(p, stored, window);
    var span := Span(Affected(p, stored, window));
    var anchor := AnchorRows(Preceding(ordered, span), stored);
    var verdict := Verdict(p, stored, window, anchor, required, requested, maximum);
    Comparison(verdict.0, verdict.1, oldVersion, version, window, |p|, |p.Keys * stored.Keys|,
      |VersionOnlyTimes(p, stored, version)|, anchor, span,
      Sorted(DifferenceTimes(p, stored)), Sorted(NewTimes(p, stored)), Sorted(removed))
  }

  // ---- The comparison as the code makes it ----

  /** `ordered` lists the provider's bars, each once, in time order. */
  ghost predicate Lists(ordered: seq<Bar>, p: map<int, Bar>) {
    && Times(ordered) == Sorted(p.Keys)
    && (forall i :: 0 <= i < |ordered| ==> ordered[i].time in p && p[ordered[i].time] == ordered[i])
  }

  lemma {:induction false} ListingLists(m: map<int, Bar>)
    requires Normalize.Keyed(m)
    ensures Lists(Listing(m), m)
  {
    var keys := Sorted(m.Keys);
    forall i | 0 <= i < |keys| ensures Listing(m)[i].time == keys[i] && keys[i] in m {
      assert keys[i] in m.Keys;
    }
  }

  lemma {:induction false} OrderIsSorted(bars: seq<Bar>)
    ensures Lists(Order(bars), ByTime(bars))
    ensures ByTime(bars).Keys == TimesOf(bars)
  {
    Normalize.AddPageKeyed(map[], bars);
    ListingLists(ByTime(bars));
  }

  /** `list` is the part of `chosen` met so far while walking `keys` in order. */
  ghost predicate Collected(list: seq<int>, chosen: set<int>, keys: seq<int>, i: nat)
    requires i <= |keys|
  {
    && StrictlyIncreasing(list)
    && (forall t :: t in list <==> t in chosen && t in keys[..i])
  }

  lemma {:induction false} CollectStep(list: seq<int>, chosen: set<int>, keys: seq<int>, i: nat)
    requires i < |keys| && StrictlyIncreasing(keys) && Collected(list, chosen, keys, i)
    ensures keys[i] in chosen ==> Collected(list + [keys[i]], chosen, keys, i + 1)
    ensures keys[i] !in chosen ==> Collected(list, chosen, keys, i + 1)
  {
    assert keys[..i + 1] == keys[..i] + [keys[i]];
    if keys[i] in chosen {
      forall k | 0 <= k < |list| ensures list[k] < keys[i] {
        assert list[k] in list;
      }
    }
  }

  lemma {:induction false} CollectedAll(list: seq<int>, chosen: set<int>, keys: seq<int>)
    requires Collected(list, chosen, keys, |keys|) && forall t :: t in chosen ==> t in keys
    ensures list == Sorted(chosen)
  {
    assert keys[..|keys|] == keys;
    SortedIsUnique(list, chosen);
  }

  /** The part of `keys` before `i` that was matched, and the part that was new. */
  lemma {:induction false} MatchedCount(p: map<int, Bar>, stored: Stored)
    ensures |p.Keys * stored.Keys| + |NewTimes(p, stored)| == |p.Keys|
  {
  }

  lemma {:induction false} KeysOf(ordered: seq<Bar>, p: map<int, Bar>, i: nat)
    requires Lists(ordered, p) && i < |ordered|
    ensures StrictlyIncreasing(Times(ordered)) && Times(ordered)[i] == ordered[i].time
    ensures ordered[i].time in p && p[ordered[i].time] == ordered[i]
  {
    SortedIncreases(p.Keys);
  }

  /** The main loop: every provider row is different, new, or matched (perhaps in an older version only). */
  method Classify(ordered: seq<Bar>, stored: Stored, version: int, ghost p: map<int, Bar>)
    returns (differences: seq<int>, versionOnly: seq<int>, newTimes: seq<int>, matched: nat)
    requires Lists(ordered, p)
    ensures differences == Sorted(DifferenceTimes(p, stored))
    ensures versionOnly == Sorted(VersionOnlyTimes(p, stored, version))
    ensures newTimes == Sorted(NewTimes(p, stored))
    ensures matched == |p.Keys * stored.Keys|
  {
    differences, versionOnly, newTimes, matched := [], [], [], 0;
    ghost var keys := Times(ordered);
    ghost var different := DifferenceTimes(p, stored);
    ghost var older := VersionOnlyTimes(p, stored, version);
    ghost var unseen := NewTimes(p, stored);
    for i := 0 to |ordered|
      invariant Collected(differences, different, keys, i)
      invariant Collected(versionOnly, older, keys, i)
      invariant Collected(newTimes, unseen, keys, i)
      invariant matched + |newTimes| == i
    {
      var bar := ordered[i];
      KeysOf(ordered, p, i);
      CollectStep(differences, different, keys, i);
      CollectStep(versionOnly, older, keys, i);
      CollectStep(newTimes, unseen, keys, i);
      if bar.time !in stored {
        newTimes := newTimes + [bar.time];
      } else {
        matched := matched + 1;
        if bar.content != stored[bar.time].content {
          differences := differences + [bar.time];
        } else if stored[bar.time].dataVersion != Some(version) {
          versionOnly := versionOnly + [bar.time];
        }
      }
    }
    CollectedAll(differences, different, keys);
    CollectedAll(versionOnly, older, keys);
    CollectedAll(newTimes, unseen, keys);
    MatchedCount(p, stored);
  }

  /** The anchor loop stops at the first row, from the newest, that is not a matching complete bar. */
  method CountAnchors(preceding: seq<Bar>, stored: Stored) returns (anchors: nat)
    ensures anchors == AnchorRows(preceding, stored)
  {
    anchors := 0;
    var i := |preceding|;
    assert preceding[..i] == preceding;
    while i > 0
      invariant 0 <= i <= |preceding|
      invariant anchors + AnchorRows(preceding[..i], stored) == AnchorRows(preceding, stored)
    {
      assert preceding[..i][..i - 1] == preceding[..i - 1];
      var bar := preceding[i - 1];
      if bar.time !in stored || !bar.content.isComplete || bar.content != stored[bar.time].content {
        break;
      }
      anchors := anchors + 1;
      i := i - 1;
    }
  }

  method CompareRevisionWindow(bars: seq<Bar>, stored: Stored, oldVersion: int, requested: int,
      maximum: int := MAXIMUM_COUNT, required: int := STABLE_ANCHOR_ROWS)
    returns (r: Result<Comparison, CompareError>)
    ensures r == Compare(bars, stored, oldVersion, requested, maximum, required)
  {
    if bars == [] {
      return Err(EmptyProviderWindow);
    }
    var times := TimesOf(bars);
    if |times| != |bars| {
      return Err(NonUniqueProviderWindow);
    }
    var versions := Versions(bars);
    if |versions| != 1 {
      return Err(MultipleOrMissingDataVersions);
    }
    var version := Min(versions);
    if version == oldVersion {
      return Err(DataVersionNotChanged);
    }
    NonEmptyByTime(bars);
    OrderIsSorted(bars);
    var c := CompareOrdered(ByTime(bars), Order(bars), stored, oldVersion, version, requested, maximum, required);
    r := Ok(c);
  }

  lemma {:induction false} NonEmptyByTime(bars: seq<Bar>)
    requires bars != []
    ensures ByTime(bars).Keys != {} && ByTime(bars).Keys == TimesOf(bars)
  {
  }

  method CompareOrdered(p: map<int, Bar>, ordered: seq<Bar>, stored: Stored, oldVersion: int, version: int,
      requested: int, maximum: int, required: int)
    returns (c: Comparison)
    requires p.Keys != {} && Lists(ordered, p)
    ensures c == Report(p, ordered, stored, oldVersion, version, requested, maximum, required)
  {
    var differences, versionOnly, newTimes, matched := Classify(ordered, stored, version, p);
    var window := WindowOf(p.Keys);
    var removed := RemovedTimes(p, stored, window);
    var span := Span(Affected(p, stored, window));
    var anchor := CountAnchors(Preceding(ordered, span), stored);
    var verdict := Verdict(p, stored, window, anchor, required, requested, maximum);
    c := Comparison(verdict.0, verdict.1, oldVersion, version, window, |p|, matched,
      |versionOnly|, anchor, span, differences, newTimes, Sorted(removed));
  }

  // ---- Soundness of a comparison ----

  /** A successful comparison reports on the provider's bars by time. */
  lemma {:induction false} CompareReports(bars: seq<Bar>, stored: Stored, oldVersion: int, requested: int,
      maximum: int, required: int)
    requires Compare(bars, stored, oldVersion, requested, maximum, required).Ok?
    ensures ByTime(bars).Keys != {} && ByTime(bars).Keys == TimesOf(bars) && |ByTime(bars)| == |bars|
    ensures Lists(Order(bars), ByTime(bars))
    ensures Compare(bars, stored, oldVersion, requested, maximum, required).value
      == Report(ByTime(bars), Order(bars), stored, oldVersion, Min(Versions(bars)), requested, maximum, required)
  {
    hide Report, Lists, Order;
    NonEmptyByTime(bars);
    OrderIsSorted(bars);
    assert |ByTime(bars)| == |ByTime(bars).Keys|;
  }

  lemma {:induction false} ReportAccounts(p: map<int, Bar>, ordered: seq<Bar>, stored: Stored, oldVersion: int,
      version: int,
      requested: int, maximum: int, required: int)
    requires p.Keys != {}
    ensures var c := Report(p, ordered, stored, oldVersion, version, requested, maximum, required);
      && c.providerRows == |p| == c.matchedRows + |c.newTimes|
      && |set t | t in stored && c.compared.Has(t)| == c.matchedRows + |c.removedTimes|
      && |c.differences| + c.versionOnlyRows <= c.matchedRows
  {
    var window := WindowOf(p.Keys);
    var both := p.Keys * stored.Keys;
    MatchedCount(p, stored);
    InsideCount(p, stored, window);
    var d, v := DifferenceTimes(p, stored), VersionOnlyTimes(p, stored, version);
    assert d !! v && d + v <= both;
    SubsetSize(d + v, both);
    assert |p| == |p.Keys|;
  }

  lemma {:induction false} InsideCount(p: map<int, Bar>, stored: Stored, window: Range)
    requires forall t :: t in p ==> window.Has(t)
    ensures |set t | t in stored && window.Has(t)| == |p.Keys * stored.Keys| + |RemovedTimes(p, stored, window)|
  {
    var inside := set t | t in stored && window.Has(t);
    assert inside == (p.Keys * stored.Keys) + RemovedTimes(p, stored, window);
  }

  /** Every provider row is matched or new; every stored row of the window is matched or removed. */
  lemma {:induction false} RowsAreAccountedFor(bars: seq<Bar>, stored: Stored, oldVersion: int, requested: int,
      maximum: int, required: int)
    requires Compare(bars, stored, oldVersion, requested, maximum, required).Ok?
    ensures var c := Compare(bars, stored, oldVersion, requested, maximum, required).value;
      && c.providerRows == |bars| == c.matchedRows + |c.newTimes|
      && |set t | t in stored && c.compared.Has(t)| == c.matchedRows + |c.removedTimes|
      && |c.differences| + c.versionOnlyRows <= c.matchedRows
  {
    CompareReports(bars, stored, oldVersion, requested, maximum, required);
    ReportAccounts(ByTime(bars), Order(bars), stored, oldVersion, Min(Versions(bars)), requested, maximum, required);
  }

  /** Before the affected range nothing can differ, so only an open bar can end the anchor. */
  lemma {:induction false} AnchorIsCompleteSuffix(bars: seq<Bar>, stored: Stored)
    requires forall b :: b in bars ==> b.time in stored && b.content == stored[b.time].content
    ensures AnchorRows(bars, stored) == CompleteSuffix(bars)
  {
    if bars != [] {
      assert bars[|bars| - 1] in bars;
      AnchorIsCompleteSuffix(bars[..|bars| - 1], stored);
    }
  }

  lemma {:induction false} SuffixIsAnchored(bars: seq<Bar>, stored: Stored, i: nat)
    requires |bars| - AnchorRows(bars, stored) <= i < |bars|
    ensures IsAnchor(bars[i], stored)
  {
    if i < |bars| - 1 {
      SuffixIsAnchored(bars[..|bars| - 1], stored, i);
    }
  }

  lemma {:induction false} UnaffectedRowsMatch(p: map<int, Bar>, stored: Stored, window: Range, t: int)
    requires t in p && t !in Affected(p, stored, window)
    ensures t in stored && p[t].content == stored[t].content
  {
  }

  lemma {:induction false} AffectedLiesInSpan(p: map<int, Bar>, stored: Stored, window: Range)
    ensures var affected := Affected(p, stored, window);
      (Span(affected).None? <==> affected == {})
      && forall t :: t in affected ==> Span(affected).value.Has(t)
  {
  }

  lemma {:induction false} PrecedingMatches(p: map<int, Bar>, ordered: seq<Bar>, stored: Stored, window: Range)
    requires Lists(ordered, p)
    ensures forall b :: b in Preceding(ordered, Span(Affected(p, stored, window))) ==>
      b.time in stored && b.content == stored[b.time].content
  {
    AffectedLiesInSpan(p, stored, window);
    forall b | b in Preceding(ordered, Span(Affected(p, stored, window)))
      ensures b.time in stored && b.content == stored[b.time].content
    {
      var i :| 0 <= i < |ordered| && ordered[i] == b;
      UnaffectedRowsMatch(p, stored, window, b.time);
    }
  }

  /** What a ready report has proven. */
  ghost predicate Proven(c: Comparison, p: map<int, Bar>, required: int) {
    && required <= c.stableAnchorRows
    && |c.removedTimes| <= MAX_REMOVED_ROWS
    && |InRange(p, c.affected)| + |c.removedTimes| <= MAX_AFFECTED_ROWS
    && (c.affected.Some? ==> c.compared.first < c.affected.value.first)
  }

  lemma {:induction false} ReadyDecision(removed: int, spanRows: int, matchedComplete: int, completedDifferences: int,
      anchor: int, required: int, atBoundary: bool, requested: int, maximum: int, changed: bool)
    ensures var verdict := Decide(removed, spanRows, matchedComplete, completedDifferences,
        anchor, required, atBoundary, requested, maximum, changed);
      verdict.0 == ReadyToApply ==>
        required <= anchor && removed <= MAX_REMOVED_ROWS && spanRows <= MAX_AFFECTED_ROWS && !atBoundary
  {
  }

  lemma {:induction false} SpanStartsInWindow(p: map<int, Bar>, stored: Stored, window: Range)
    requires p.Keys != {} && window == WindowOf(p.Keys)
    ensures Span(Affected(p, stored, window)).Some? ==> window.first <= Span(Affected(p, stored, window)).value.first
  {
  }

  lemma {:induction false} ReadyVerdict(p: map<int, Bar>, stored: Stored, window: Range, anchor: int,
      required: int, requested: int, maximum: int)
    requires p.Keys != {} && window == WindowOf(p.Keys)
    requires Verdict(p, stored, window, anchor, required, requested, maximum).0 == ReadyToApply
    ensures var span := Span(Affected(p, stored, window));
      var removed := RemovedTimes(p, stored, window);
      && required <= anchor
      && |Sorted(removed)| <= MAX_REMOVED_ROWS
      && |InRange(p, span)| + |Sorted(removed)| <= MAX_AFFECTED_ROWS
      && (span.Some? ==> window.first < span.value.first)
  {
    var removed := RemovedTimes(p, stored, window);
    var span := Span(Affected(p, stored, window));
    ReadyDecision(|removed|, |InRange(p, span)| + |removed|, |MatchedComplete(p, stored)|,
      |CompletedDifferences(p, stored)|, anchor, required,
      span.Some? && span.value.first == window.first, requested, maximum, span.Some?);
    SpanStartsInWindow(p, stored, window);
  }

  lemma {:induction false} ReadyReport(p: map<int, Bar>, ordered: seq<Bar>, stored: Stored, oldVersion: int,
      version: int,
      requested: int, maximum: int, required: int)
    requires p.Keys != {}
    requires Report(p, ordered, stored, oldVersion, version, requested, maximum, required).decision == ReadyToApply
    ensures Proven(Report(p, ordered, stored, oldVersion, version, requested, maximum, required), p, required)
  {
    var window := WindowOf(p.Keys);
    var anchor := AnchorRows(Preceding(ordered, Span(Affected(p, stored, window))), stored);
    ReadyVerdict(p, stored, window, anchor, required, requested, maximum);
  }

  /** A bounded patch is only ever proposed within the frozen limits and behind a proven anchor. */
  lemma {:induction false} ReadyIsProven(bars: seq<Bar>, stored: Stored, oldVersion: int, requested: int,
      maximum: int, required: int)
    requires Compare(bars, stored, oldVersion, requested, maximum, required).Ok?
    ensures var c := Compare(bars, stored, oldVersion, requested, maximum, required).value;
      && c.stableAnchorRows == CompleteSuffix(Preceding(Order(bars), c.affected))
      && (c.decision == ReadyToApply ==> Proven(c, ByTime(bars), required))
  {
    CompareReports(bars, stored, oldVersion, requested, maximum, required);
    var p, ordered := ByTime(bars), Order(bars);
    var window := WindowOf(p.Keys);
    PrecedingMatches(p, ordered, stored, window);
    AnchorIsCompleteSuffix(Preceding(ordered, Span(Affected(p, stored, window))), stored);
    var report := Report(p, ordered, stored, oldVersion, Min(Versions(bars)), requested, maximum, required);
    if report.decision == ReadyToApply {
      ReadyReport(p, ordered, stored, oldVersion, Min(Versions(bars)), requested, maximum, required);
    }
  }

  // ---- A bounded patch equals replacing the whole window ----

  /** What the stored query returns: the rows between two times. */
  function StoredWindow(all: Stored, first: int, last: int): Stored {
    map t | t in all && first <= t <= last :: all[t]
  }

  function AsStored(b: Bar): StoredBar { StoredBar(b.content, b.dataVersion) }

  /** Delete a range and put the provider's rows of that range in its place. */
  function Patch(all: Stored, p: map<int, Bar>, range: Range): Stored {
    map t | t in all.Keys + p.Keys && (if range.Has(t) then t in p else t in all) ::
      if range.Has(t) then AsStored(p[t]) else all[t]
  }

  /** Over the window, the stored rows are the provider's rows, time for time and value for value. */
  ghost predicate AgreesOn(all: Stored, p: map<int, Bar>, window: Range) {
    && (forall t :: window.Has(t) ==> (t in all <==> t in p))
    && (forall t :: window.Has(t) && t in p ==> all[t].content == p[t].content)
  }

  /** When the stored rows were read over the whole window. */
  lemma {:induction false} PatchOfWholeWindow(all: Stored, p: map<int, Bar>, window: Range, range: Range)
    requires p.Keys != {} && window == WindowOf(p.Keys)
    requires forall t :: t in Affected(p, StoredWindow(all, window.first, window.last), window) ==> range.Has(t)
    ensures AgreesOn(Patch(all, p, range), p, window)
  {
  }

  /**
   Reading the stored rows between the first and the last row of the payload is enough, provided its last row
   is its latest: a payload that does not start with its earliest row never becomes ready.
   */
  lemma {:induction false} ReadyReadsTheWholeWindow(all: Stored, bars: seq<Bar>, oldVersion: int, requested: int,
      maximum: int, required: int)
    requires bars != [] && forall b :: b in bars ==> b.time <= bars[|bars| - 1].time
    requires var r :=
        Compare(bars, StoredWindow(all, bars[0].time, bars[|bars| - 1].time), oldVersion, requested, maximum, required);
      r.Ok? && r.value.decision == ReadyToApply
    ensures var window := WindowOf(TimesOf(bars));
      bars[0].time == window.first && bars[|bars| - 1].time == window.last
  {
    var stored := StoredWindow(all, bars[0].time, bars[|bars| - 1].time);
    CompareReports(bars, stored, oldVersion, requested, maximum, required);
    ReadyIsProven(bars, stored, oldVersion, requested, maximum, required);
    FirstAndLast(bars);
    EarlierRowIsAffected(ByTime(bars), stored, WindowOf(TimesOf(bars)), bars[0].time);
  }

  lemma {:induction false} FirstAndLast(bars: seq<Bar>)
    requires bars != [] && forall b :: b in bars ==> b.time <= bars[|bars| - 1].time
    ensures TimesOf(bars) != {} && WindowOf(TimesOf(bars)).first <= bars[0].time
    ensures WindowOf(TimesOf(bars)).last == bars[|bars| - 1].time
  {
    assert bars[0] in bars && bars[|bars| - 1] in bars;
    assert bars[0].time in TimesOf(bars) && bars[|bars| - 1].time in TimesOf(bars);
    var b :| b in bars && b.time == Max(TimesOf(bars));
  }

  /** A provider row before the first stored row read counts as new, and opens the affected range. */
  lemma {:induction false} EarlierRowIsAffected(p: map<int, Bar>, stored: Stored, window: Range, first: int)
    requires p.Keys != {} && window == WindowOf(p.Keys) && window.first <= first
    requires forall t :: t in stored ==> first <= t
    ensures window.first < first ==>
      Span(Affected(p, stored, window)).Some? && Span(Affected(p, stored, window)).value.first == window.first
  {
    if window.first < first {
      assert window.first in NewTimes(p, stored);
      assert window.first in Affected(p, stored, window);
      assert forall t :: t in Affected(p, stored, window) ==> window.first <= t;
    }
  }

  /**
   READY_TO_APPLY with something affected: replacing only the affected range leaves, over the whole compared
   window, exactly the provider's times and contents, and touches nothing outside the range.
   */
  lemma {:induction false} PatchEqualsReplacement(all: Stored, bars: seq<Bar>, oldVersion: int, requested: int,
      maximum: int, required: int)
    requires bars != [] && forall b :: b in bars ==> b.time <= bars[|bars| - 1].time
    requires var r :=
        Compare(bars, StoredWindow(all, bars[0].time, bars[|bars| - 1].time), oldVersion, requested, maximum, required);
      r.Ok? && r.value.decision == ReadyToApply
    ensures var c :=
        Compare(bars, StoredWindow(all, bars[0].time, bars[|bars| - 1].time), oldVersion, requested, maximum,
            required).value;
      && (c.affected.None? ==> AgreesOn(all, ByTime(bars), c.compared))
      && (c.affected.Some? ==>
            var patched := Patch(all, ByTime(bars), c.affected.value);
            && AgreesOn(patched, ByTime(bars), c.compared)
            && (forall t :: !c.affected.value.Has(t) ==> (t in patched <==> t in all))
            && (forall t :: !c.affected.value.Has(t) && t in all ==> patched[t] == all[t]))
  {
    ReadyReadsTheWholeWindow(all, bars, oldVersion, requested, maximum, required);
    var window := WindowOf(TimesOf(bars));
    CompareReports(bars, StoredWindow(all, window.first, window.last), oldVersion, requested, maximum, required);
    PatchWhereAffected(all, ByTime(bars), window);
  }

  lemma {:induction false} PatchWhereAffected(all: Stored, p: map<int, Bar>, window: Range)
    requires p.Keys != {} && window == WindowOf(p.Keys)
    ensures var span := Span(Affected(p, StoredWindow(all, window.first, window.last), window));
      && (span.None? ==> AgreesOn(all, p, window))
      && (span.Some? ==> AgreesOn(Patch(all, p, span.value), p, window))
  {
    var stored := StoredWindow(all, window.first, window.last);
    AffectedLiesInSpan(p, stored, window);
    if Affected(p, stored, window) != {} {
      PatchOfWholeWindow(all, p, window, Span(Affected(p, stored, window)).value);
    } else {
      NothingAffectedAgrees(all, p, window);
    }
  }

  lemma {:induction false} NothingAffectedAgrees(all: Stored, p: map<int, Bar>, window: Range)
    requires p.Keys != {} && window == WindowOf(p.Keys)
    requires Affected(p, StoredWindow(all, window.first, window.last), window) == {}
    ensures AgreesOn(all, p, window)
  {
    var stored := StoredWindow(all, window.first, window.last);
    forall t | window.Has(t) ensures t in all <==> t in p {
      assert t in all <==> t in stored;
      assert t !in Affected(p, stored, window);
    }
    forall t | window.Has(t) && t in p ensures all[t].content == p[t].content {
      UnaffectedRowsMatch(p, stored, window, t);
    }
  }

  /** Stored rows of the window that lie after the payload's last row were never read; these are the ones left alone. */
  ghost predicate NothingHidden(all: Stored, last: int, window: Range, affected: Range) {
    forall t :: t in all && last < t <= window.last ==> affected.Has(t)
  }

  lemma {:induction false} PatchAgreesUnlessHidden(all: Stored, p: map<int, Bar>, first: int, last: int,
      window: Range, range: Range)
    requires p.Keys != {} && window == WindowOf(p.Keys) && first == window.first <= last <= window.last
    requires Span(Affected(p, StoredWindow(all, first, last), window)) == Some(range)
    ensures AgreesOn(Patch(all, p, range), p, window) <==> NothingHidden(all, last, window, range)
  {
    var stored, patched := StoredWindow(all, first, last), Patch(all, p, range);
    AffectedLiesInSpan(p, stored, window);
    if NothingHidden(all, last, window, range) {
      forall t | window.Has(t) ensures (t in patched <==> t in p) && (t in p ==> patched[t].content == p[t].content) {
        UnaffectedTimeAgrees(all, p, stored, last, window, range, t);
      }
    }
    if AgreesOn(patched, p, window) {
      forall t | t in all && last < t <= window.last ensures range.Has(t) {
        assert t !in stored;
        assert window.Has(t);
        assert t in p ==> t in Affected(p, stored, window);
      }
    }
  }

  lemma {:induction false} UnaffectedTimeAgrees(all: Stored, p: map<int, Bar>, stored: Stored, last: int,
      window: Range, range: Range, t: int)
    requires stored == StoredWindow(all, window.first, last) && window.Has(t) && NothingHidden(all, last, window, range)
    requires forall t :: t in Affected(p, stored, window) ==> range.Has(t)
    ensures var patched := Patch(all, p, range);
      (t in patched <==> t in p) && (t in p ==> patched[t].content == p[t].content)
  {
  }

  /** A ready comparison reads from the earliest row on, whatever the order of the payload. */
  lemma {:induction false} ReadyReadsFromTheFirstRow(all: Stored, bars: seq<Bar>, oldVersion: int, requested: int,
      maximum: int, required: int)
    requires bars != []
    requires var r :=
        Compare(bars, StoredWindow(all, bars[0].time, bars[|bars| - 1].time), oldVersion, requested, maximum, required);
      r.Ok? && r.value.decision == ReadyToApply
    ensures TimesOf(bars) != {} && bars[0].time == WindowOf(TimesOf(bars)).first <= bars[|bars| - 1].time
    ensures bars[|bars| - 1].time <= WindowOf(TimesOf(bars)).last
  {
    hide Compare, Affected, ByTime, StoredWindow, TimesOf, Span;
    var first, last := bars[0].time, bars[|bars| - 1].time;
    var stored := StoredWindow(all, first, last);
    ReadyIsProven(bars, stored, oldVersion, requested, maximum, required);
    EndsAreTimes(bars);
    ReportedRange(bars, stored, oldVersion, requested, maximum, required);
    ReadFrom(all, first, last);
    EarlierRowIsAffected(ByTime(bars), stored, WindowOf(TimesOf(bars)), first);
  }

  lemma {:induction false} EndsAreTimes(bars: seq<Bar>)
    requires bars != []
    ensures bars[0].time in TimesOf(bars) && bars[|bars| - 1].time in TimesOf(bars)
  {
  }

  lemma {:induction false} ReadFrom(all: Stored, first: int, last: int)
    ensures forall t :: t in StoredWindow(all, first, last) ==> first <= t
  {
  }

  lemma {:induction false} ReportedRange(bars: seq<Bar>, stored: Stored, oldVersion: int, requested: int,
      maximum: int, required: int)
    requires Compare(bars, stored, oldVersion, requested, maximum, required).Ok?
    ensures ByTime(bars).Keys != {} && ByTime(bars).Keys == TimesOf(bars)
    ensures var c := Compare(bars, stored, oldVersion, requested, maximum, required).value;
      c.compared == WindowOf(TimesOf(bars)) && c.affected == Span(Affected(ByTime(bars), stored, c.compared))
  {
  }

  /**
   For any payload, in order or not: a ready comparison with something affected leads to a window that equals the
   provider's exactly when no stored row after the payload's last row, and inside the window, escapes the range.
   */
  lemma {:induction false} PatchAgreesExactlyWhenNothingIsHidden(all: Stored, bars: seq<Bar>, oldVersion: int,
      requested: int, maximum: int, required: int)
    requires bars != []
    requires var r :=
        Compare(bars, StoredWindow(all, bars[0].time, bars[|bars| - 1].time), oldVersion, requested, maximum, required);
      r.Ok? && r.value.decision == ReadyToApply && r.value.affected.Some?
    ensures var c :=
        Compare(bars, StoredWindow(all, bars[0].time, bars[|bars| - 1].time), oldVersion, requested, maximum,
            required).value;
      AgreesOn(Patch(all, ByTime(bars), c.affected.value), ByTime(bars), c.compared) <==>
      NothingHidden(all, bars[|bars| - 1].time, c.compared, c.affected.value)
  {
    hide Compare, Patch, AgreesOn, NothingHidden, StoredWindow, ByTime, TimesOf, Affected;
    var first, last := bars[0].time, bars[|bars| - 1].time;
    ReadyReadsFromTheFirstRow(all, bars, oldVersion, requested, maximum, required);
    ReportedRange(bars, StoredWindow(all, first, last), oldVersion, requested, maximum, required);
    var c := Compare(bars, StoredWindow(all, first, last), oldVersion, requested, maximum, required).value;
    PatchAgreesUnlessHidden(all, ByTime(bars), first, last, c.compared, c.affected.value);
  }

  // ---- Widening windows ----

  /**
   The smaller dictionary has the times and contents of the larger one from some time on; both reach up to the same
   last time. Retrieval times and payload hashes may differ: every window is fetched on its own.
   */
  ghost predicate IsTail(small: map<int, Bar>, large: map<int, Bar>) {
    && small.Keys != {} && large.Keys != {}
    && Max(small.Keys) == Max(large.Keys) && Min(large.Keys) <= Min(small.Keys)
    && (forall t :: Min(small.Keys) <= t ==> (t in small <==> t in large))
    && (forall t :: t in small ==> t in large && small[t].content == large[t].content)
  }

  /** A wider window sees the same affected rows and possibly earlier ones; it can only move the start back. */
  lemma {:induction false} NestedWindows(small: map<int, Bar>, large: map<int, Bar>, all: Stored)
    requires IsTail(small, large)
    ensures var w, v := WindowOf(small.Keys), WindowOf(large.Keys);
      var a, b := Affected(small, StoredWindow(all, w.first, w.last), w),
          Affected(large, StoredWindow(all, v.first, v.last), v);
      && a == (set t | t in b && w.first <= t)
      && (a != {} ==> b != {} && Min(b) <= Min(a) && Max(b) == Max(a))
  {
    var w, v := WindowOf(small.Keys), WindowOf(large.Keys);
    var s, l := StoredWindow(all, w.first, w.last), StoredWindow(all, v.first, v.last);
    var a, b := Affected(small, s, w), Affected(large, l, v);
    forall t ensures t in a <==> t in b && w.first <= t {
      SameVerdictOnTail(small, large, all, t);
    }
    if a != {} {
      assert Min(a) in b && Max(a) in b;
    }
  }

  lemma {:induction false} SameVerdictOnTail(small: map<int, Bar>, large: map<int, Bar>, all: Stored, t: int)
    requires IsTail(small, large)
    ensures var w, v := WindowOf(small.Keys), WindowOf(large.Keys);
      t in Affected(small, StoredWindow(all, w.first, w.last), w) <==>
      t in Affected(large, StoredWindow(all, v.first, v.last), v) && w.first <= t
  {
  }

  lemma {:induction false} ByTimeOfSeries(bars: seq<Bar>)
    requires Paging.IsSeries(bars)
    ensures forall i :: 0 <= i < |bars| ==> bars[i].time in ByTime(bars) && ByTime(bars)[bars[i].time] == bars[i]
    ensures ByTime(bars).Keys == TimesOf(bars)
  {
    Normalize.DistinctPage(bars);
  }

  lemma {:induction false} BoundsOfSeries(bars: seq<Bar>)
    requires Paging.IsSeries(bars) && bars != []
    ensures TimesOf(bars) != {}
    ensures Min(TimesOf(bars)) == bars[0].time && Max(TimesOf(bars)) == bars[|bars| - 1].time
  {
    var n := |bars|;
    assert forall i :: 0 <= i < n ==> Times(bars)[i] == bars[i].time;
    assert bars[0] in bars && bars[n - 1] in bars;
    assert bars[0].time in TimesOf(bars) && bars[n - 1].time in TimesOf(bars);
    forall t | t in TimesOf(bars) ensures bars[0].time <= t <= bars[n - 1].time {
      var b :| b in bars && b.time == t;
      var i :| 0 <= i < n && bars[i] == b;
    }
  }

  lemma {:induction false} MemberOfSeries(bars: seq<Bar>, t: int) returns (i: int)
    requires Paging.IsSeries(bars) && t in ByTime(bars)
    ensures 0 <= i < |bars| && bars[i].time == t && ByTime(bars)[t] == bars[i]
  {
    ByTimeOfSeries(bars);
    var b :| b in bars && b.time == t;
    i :| 0 <= i < |bars| && bars[i] == b;
  }

  lemma {:induction false} TailMember(reach: seq<Bar>, k: nat, t: int)
    requires Paging.IsSeries(reach) && k < |reach| && Paging.IsSeries(reach[k..])
    ensures t in ByTime(reach[k..]) ==> t in ByTime(reach) && ByTime(reach[k..])[t] == ByTime(reach)[t]
    ensures t in ByTime(reach) && reach[k].time <= t ==> t in ByTime(reach[k..])
  {
    var tail := reach[k..];
    ByTimeOfSeries(tail);
    ByTimeOfSeries(reach);
    if t in ByTime(tail) {
      var i := MemberOfSeries(tail, t);
      assert tail[i] == reach[k + i];
    }
    if t in ByTime(reach) && reach[k].time <= t {
      var i := MemberOfSeries(reach, t);
      if i < k { Paging.ReachIsOrdered(reach, i, k); }
      assert reach[i] == tail[i - k];
    }
  }

  /** Two last windows of one series: the one with the smaller count is the tail of the other. */
  lemma {:induction false} LastWindowsNest(reach: seq<Bar>, k: nat)
    requires Paging.IsSeries(reach) && k < |reach|
    ensures IsTail(ByTime(reach[k..]), ByTime(reach))
  {
    var tail := reach[k..];
    Paging.SliceIsSeries(reach, k, |reach|);
    assert tail == reach[k..|reach|];
    ByTimeOfSeries(tail);
    ByTimeOfSeries(reach);
    BoundsOfSeries(tail);
    BoundsOfSeries(reach);
    if k > 0 { Paging.ReachIsOrdered(reach, 0, k); }
    forall t ensures t in ByTime(tail) ==> t in ByTime(reach) && ByTime(tail)[t] == ByTime(reach)[t] {
      TailMember(reach, k, t);
    }
    forall t | reach[k].time <= t && t in ByTime(reach) ensures t in ByTime(tail) {
      TailMember(reach, k, t);
    }
  }

  /** The same bars as far as a comparison looks at them. */
  ghost predicate SameContents(a: seq<Bar>, b: seq<Bar>) {
    |a| == |b| && forall i :: 0 <= i < |a| ==> a[i].time == b[i].time && a[i].content == b[i].content
  }

  lemma {:induction false} SameDictionary(a: seq<Bar>, b: seq<Bar>)
    requires SameContents(a, b) && Paging.IsSeries(b)
    ensures Paging.IsSeries(a) && ByTime(a).Keys == ByTime(b).Keys == TimesOf(b)
    ensures forall t :: t in ByTime(a) ==> ByTime(a)[t].content == ByTime(b)[t].content
  {
    assert Times(a) == Times(b);
    ByTimeOfSeries(a);
    ByTimeOfSeries(b);
    forall t ensures t in ByTime(a) <==> t in ByTime(b) {
      if t in ByTime(a) {
        var i := MemberOfSeries(a, t);
        assert b[i] in b;
      }
      if t in ByTime(b) {
        var i := MemberOfSeries(b, t);
        assert a[i] in a;
      }
    }
    forall t | t in ByTime(a) ensures ByTime(a)[t].content == ByTime(b)[t].content {
      var i := MemberOfSeries(a, t);
    }
  }

  lemma {:induction false} ContentsNest(small: seq<Bar>, large: seq<Bar>, k: nat)
    requires Paging.IsSeries(large) && k < |large| && SameContents(small, large[k..])
    ensures Paging.IsSeries(small) && IsTail(ByTime(small), ByTime(large))
  {
    hide SameContents, ByTime;
    Paging.SliceIsSeries(large, k, |large|);
    assert large[k..] == large[k..|large|];
    SameDictionary(small, large[k..]);
    LastWindowsNest(large, k);
  }

  /** The provider answers every window from one series, as it stands at one request time. */
  ghost predicate Observes(chart: int -> seq<Bar>, series: seq<Bar>, time: int) {
    && Paging.IsSeries(series)
    && forall i :: 0 <= i < |WINDOW_COUNTS| ==>
         SameContents(chart(WINDOW_COUNTS[i]), Paging.Serve(series, Paging.UpTo, time, WINDOW_COUNTS[i]))
  }

  lemma {:induction false} ServedNest(series: seq<Bar>, time: int, fewer: int, more: int) returns (k: nat)
    requires Paging.IsSeries(series) && 1 <= fewer <= more && Paging.Serve(series, Paging.UpTo, time, fewer) != []
    ensures var small, large :=
        Paging.Serve(series, Paging.UpTo, time, fewer), Paging.Serve(series, Paging.UpTo, time, more);
      k < |large| && small == large[k..] && Paging.IsSeries(large)
  {
    Paging.ReachIsSeries(series, Paging.UpTo, time);
    var reach := Paging.Before(series, time);
    var small, large := Paging.Serve(series, Paging.UpTo, time, fewer), Paging.Serve(series, Paging.UpTo, time, more);
    var n := |reach|;
    if n > more {
      Paging.SliceIsSeries(reach, n - more, n);
      assert large == reach[n - more..n];
    }
    k := |large| - |small|;
  }

  /** For one series and one request time, the windows of the expansion loop nest. */
  lemma {:induction false} WindowsNest(chart: int -> seq<Bar>, series: seq<Bar>, time: int, i: nat, j: nat)
    requires Observes(chart, series, time) && i <= j < |WINDOW_COUNTS| && chart(WINDOW_COUNTS[i]) != []
    ensures Paging.IsSeries(chart(WINDOW_COUNTS[i])) && Paging.IsSeries(chart(WINDOW_COUNTS[j]))
    ensures IsTail(ByTime(chart(WINDOW_COUNTS[i])), ByTime(chart(WINDOW_COUNTS[j])))
  {
    hide Paging.Serve, ByTime, IsTail;
    var small, large := chart(WINDOW_COUNTS[i]), chart(WINDOW_COUNTS[j]);
    var k := ServedNest(series, time, WINDOW_COUNTS[i], WINDOW_COUNTS[j]);
    SameDictionary(large, Paging.Serve(series, Paging.UpTo, time, WINDOW_COUNTS[j]));
    ContentsNest(small, large, k);
  }

  /** What a comparison of a page in time order reports about its range. */
  lemma {:induction false} ComparedRange(page: seq<Bar>, all: Stored, oldVersion: int, count: int)
    requires Paging.IsSeries(page) && page != [] && CompareStep(page, all, oldVersion, count).Ok?
    ensures var c, p := CompareStep(page, all, oldVersion, count).value, ByTime(page);
      && p.Keys != {} && c.compared == WindowOf(p.Keys)
      && c.affected == Span(Affected(p, StoredWindow(all, c.compared.first, c.compared.last), c.compared))
  {
    hide Compare, Affected, Span, ByTime;
    BoundsOfSeries(page);
    ReportedRange(page, StoredWindow(all, page[0].time, page[|page| - 1].time), oldVersion, count, MAXIMUM_COUNT,
      STABLE_ANCHOR_ROWS);
  }

  /** A later comparison looks further back and up to the same row. */
  predicate MovedBack(c: Comparison, later: Comparison) {
    && later.compared.first <= c.compared.first && later.compared.last == c.compared.last
    && (c.affected.Some? ==>
         && later.affected.Some?
         && later.affected.value.first <= c.affected.value.first
         && later.affected.value.last == c.affected.value.last)
  }

  /**
   Of any two comparisons the expansion loop makes of one series, the later one finds everything affected that the
   earlier one found: the affected start only moves back, and the affected end never moves.
   */
  lemma {:induction false} ExpansionOnlyMovesBack(chart: int -> seq<Bar>, series: seq<Bar>, time: int, all: Stored,
      oldVersion: int, steps: seq<Comparison>, i: nat, j: nat)
    requires Observes(chart, series, time) && Expansion(chart, all, oldVersion, steps) && i <= j < |steps|
    ensures MovedBack(steps[i], steps[j])
  {
    hide CompareStep, Observes, ByTime, Affected, StoredWindow, IsTail;
    var small, large := chart(WINDOW_COUNTS[i]), chart(WINDOW_COUNTS[j]);
    assert Answers(chart, all, oldVersion, i, steps[i]) && Answers(chart, all, oldVersion, j, steps[j]);
    WindowsNest(chart, series, time, i, j);
    ComparedRange(small, all, oldVersion, WINDOW_COUNTS[i]);
    ComparedRange(large, all, oldVersion, WINDOW_COUNTS[j]);
    NestedWindows(ByTime(small), ByTime(large), all);
    NestedBounds(ByTime(small), ByTime(large));
  }

  lemma {:induction false} NestedBounds(small: map<int, Bar>, large: map<int, Bar>)
    requires IsTail(small, large)
    ensures WindowOf(large.Keys).first <= WindowOf(small.Keys).first
    ensures WindowOf(large.Keys).last == WindowOf(small.Keys).last
  {
  }

  datatype DiscoveryError = EmptyPayload | Refused(error: CompareError)

  /** The stored rows are read between the first and the last row of the payload. */
  function CompareStep(page: seq<Bar>, all: Stored, oldVersion: int, count: int): Result<Comparison, CompareError>
    requires page != []
  {
    Compare(page, StoredWindow(all, page[0].time, page[|page| - 1].time), oldVersion, count, MAXIMUM_COUNT,
        STABLE_ANCHOR_ROWS)
  }

  /** At the widest window the answer is final. */
  lemma {:induction false} WidestWindowDecides(page: seq<Bar>, all: Stored, oldVersion: int)
    requires page != [] && CompareStep(page, all, oldVersion, MAXIMUM_COUNT).Ok?
    ensures CompareStep(page, all, oldVersion, MAXIMUM_COUNT).value.decision != Expand
  {
    var stored := StoredWindow(all, page[0].time, page[|page| - 1].time);
    CompareReports(page, stored, oldVersion, MAXIMUM_COUNT, MAXIMUM_COUNT, STABLE_ANCHOR_ROWS);
    WidestVerdict(ByTime(page), stored, WindowOf(ByTime(page).Keys),
      AnchorRows(Preceding(Order(page), Span(Affected(ByTime(page), stored, WindowOf(ByTime(page).Keys)))), stored));
  }

  lemma {:induction false} WidestVerdict(p: map<int, Bar>, stored: Stored, window: Range, anchor: int)
    ensures Verdict(p, stored, window, anchor, STABLE_ANCHOR_ROWS, MAXIMUM_COUNT, MAXIMUM_COUNT).0 != Expand
  {
  }

  /** The answer for window number `i`. */
  ghost predicate Answers(chart: int -> seq<Bar>, all: Stored, oldVersion: int, i: nat, c: Comparison)
    requires i < |WINDOW_COUNTS|
  {
    && chart(WINDOW_COUNTS[i]) != []
    && CompareStep(chart(WINDOW_COUNTS[i]), all, oldVersion, WINDOW_COUNTS[i]) == Ok(c)
  }

  /** A list of comparisons as the loop makes them: every one but the last asks for a wider window. */
  ghost predicate Expansion(chart: int -> seq<Bar>, all: Stored, oldVersion: int, steps: seq<Comparison>) {
    && |steps| <= |WINDOW_COUNTS|
    && (forall i :: 0 <= i < |steps| ==> Answers(chart, all, oldVersion, i, steps[i]))
    && (forall i :: 0 <= i < |steps| - 1 ==> steps[i].decision == Expand)
  }

  lemma {:induction false} LastAnswerDecides(chart: int -> seq<Bar>, all: Stored, oldVersion: int, c: Comparison)
    requires Answers(chart, all, oldVersion, 2, c)
    ensures c.decision != Expand
  {
    WidestWindowDecides(chart(WINDOW_COUNTS[2]), all, oldVersion);
  }

  /** Why window number `i` has no comparison. */
  ghost predicate Fails(chart: int -> seq<Bar>, all: Stored, oldVersion: int, i: nat, error: DiscoveryError)
    requires i < |WINDOW_COUNTS|
  {
    var page := chart(WINDOW_COUNTS[i]);
    match error
    case EmptyPayload => page == []
    case Refused(e) => page != [] && CompareStep(page, all, oldVersion, WINDOW_COUNTS[i]) == Err(e)
  }

  /** The comparisons the loop made, and the error that ended it before a decision. */
  datatype Discovery = Discovery(steps: seq<Comparison>, failed: Option<DiscoveryError>)

  /** What the loop has found: a decision after windows that were too narrow, or the refusal of the next window. */
  ghost predicate Discovered(chart: int -> seq<Bar>, all: Stored, oldVersion: int, d: Discovery) {
    && Expansion(chart, all, oldVersion, d.steps)
    && match d.failed
       case None => d.steps != [] && d.steps[|d.steps| - 1].decision != Expand
       case Some(error) =>
         && |d.steps| < |WINDOW_COUNTS| && (forall i :: 0 <= i < |d.steps| ==> d.steps[i].decision == Expand)
         && Fails(chart, all, oldVersion, |d.steps|, error)
  }

  method CompareWindow(chart: int -> seq<Bar>, all: Stored, oldVersion: int, i: nat)
    returns (r: Result<Comparison, DiscoveryError>)
    requires i < |WINDOW_COUNTS|
    ensures r.Ok? ==> Answers(chart, all, oldVersion, i, r.value)
    ensures r.Ok? && i == |WINDOW_COUNTS| - 1 ==> r.value.decision != Expand
    ensures r.Err? ==> Fails(chart, all, oldVersion, i, r.error)
  {
    hide Compare;
    var count := WINDOW_COUNTS[i];
    var page := chart(count);
    if page == [] {
      return Err(EmptyPayload);
    }
    var c := CompareRevisionWindow(page, StoredWindow(all, page[0].time, page[|page| - 1].time), oldVersion, count);
    if c.Err? {
      return Err(Refused(c.error));
    }
    if i == |WINDOW_COUNTS| - 1 {
      LastAnswerDecides(chart, all, oldVersion, c.value);
    }
    r := Ok(c.value);
  }

  /** The expansion loop: it ends with a decision or a refusal, and only an undecided window is widened. */
  method DiscoverRevision(chart: int -> seq<Bar>, all: Stored, oldVersion: int)
    returns (steps: seq<Comparison>, failed: Option<DiscoveryError>)
    ensures Discovered(chart, all, oldVersion, Discovery(steps, failed))
    ensures Discovery(steps, failed) == Discover(chart, all, oldVersion)
  {
    hide Compare, Answers, Fails;
    steps, failed := [], None;
    var decided := false;
    while |steps| < |WINDOW_COUNTS| && !decided
      invariant Expansion(chart, all, oldVersion, steps)
      invariant !decided ==> forall i :: 0 <= i < |steps| ==> steps[i].decision == Expand
      invariant decided ==> steps != [] && steps[|steps| - 1].decision != Expand
      invariant |steps| == |WINDOW_COUNTS| ==> decided
      decreases |WINDOW_COUNTS| - |steps|
    {
      var r := CompareWindow(chart, all, oldVersion, |steps|);
      if r.Err? {
        failed := Some(r.error);
        break;
      }
      steps := steps + [r.value];
      decided := r.value.decision != Expand;
    }
    DiscoverIs(chart, all, oldVersion);
    OneDiscovery(chart, all, oldVersion, Discovery(steps, failed), Discover(chart, all, oldVersion));
  }

  /** The same as a function, for the store: the discovery from window number `i` on. */
  function DiscoverFrom(chart: int -> seq<Bar>, all: Stored, oldVersion: int, i: nat): (d: Discovery)
    requires i < |WINDOW_COUNTS|
    ensures d.failed.None? ==> d.steps != []
    ensures |d.steps| <= |WINDOW_COUNTS| - i
    decreases |WINDOW_COUNTS| - i
  {
    var page := chart(WINDOW_COUNTS[i]);
    if page == [] then Discovery([], Some(EmptyPayload))
    else
      var r := CompareStep(page, all, oldVersion, WINDOW_COUNTS[i]);
      if r.Err? then Discovery([], Some(Refused(r.error)))
      else if r.value.decision != Expand || i + 1 == |WINDOW_COUNTS| then Discovery([r.value], None)
      else
        var rest := DiscoverFrom(chart, all, oldVersion, i + 1);
        Discovery([r.value] + rest.steps, rest.failed)
  }

  function Discover(chart: int -> seq<Bar>, all: Stored, oldVersion: int): (d: Discovery)
    ensures d.failed.None? ==> d.steps != []
    ensures |d.steps| <= |WINDOW_COUNTS|
  {
    DiscoverFrom(chart, all, oldVersion, 0)
  }

  /** The page the last comparison was made of. */
  function LastPage(chart: int -> seq<Bar>, steps: seq<Comparison>): seq<Bar>
    requires 0 < |steps| <= |WINDOW_COUNTS|
  {
    chart(WINDOW_COUNTS[|steps| - 1])
  }

  /** The windows from number `i` on, answered one after the other. */
  ghost predicate DiscoveredFrom(chart: int -> seq<Bar>, all: Stored, oldVersion: int, i: nat, d: Discovery)
    requires i < |WINDOW_COUNTS|
  {
    && i + |d.steps| <= |WINDOW_COUNTS|
    && (forall k :: 0 <= k < |d.steps| ==> Answers(chart, all, oldVersion, i + k, d.steps[k]))
    && (forall k :: 0 <= k < |d.steps| - 1 ==> d.steps[k].decision == Expand)
    && match d.failed
       case None => d.steps != [] && d.steps[|d.steps| - 1].decision != Expand
       case Some(error) =>
         && i + |d.steps| < |WINDOW_COUNTS| && (forall k :: 0 <= k < |d.steps| ==> d.steps[k].decision == Expand)
         && Fails(chart, all, oldVersion, i + |d.steps|, error)
  }

  lemma {:induction false} DiscoverFromIs(chart: int -> seq<Bar>, all: Stored, oldVersion: int, i: nat)
    requires i < |WINDOW_COUNTS|
    ensures DiscoveredFrom(chart, all, oldVersion, i, DiscoverFrom(chart, all, oldVersion, i))
    decreases |WINDOW_COUNTS| - i
  {
    hide Compare, CompareStep, DiscoveredFrom;
    var page := chart(WINDOW_COUNTS[i]);
    if page == [] || CompareStep(page, all, oldVersion, WINDOW_COUNTS[i]).Err? {
      NothingDiscovered(chart, all, oldVersion, i, DiscoverFrom(chart, all, oldVersion, i).failed.value);
    } else {
      var c := CompareStep(page, all, oldVersion, WINDOW_COUNTS[i]).value;
      assert Answers(chart, all, oldVersion, i, c);
      if i + 1 == |WINDOW_COUNTS| {
        LastAnswerDecides(chart, all, oldVersion, c);
      }
      if c.decision != Expand {
        Decided(chart, all, oldVersion, i, c);
      } else {
        DiscoverFromIs(chart, all, oldVersion, i + 1);
        Widened(chart, all, oldVersion, i, c, DiscoverFrom(chart, all, oldVersion, i + 1));
      }
    }
  }

  lemma {:induction false} NothingDiscovered(chart: int -> seq<Bar>, all: Stored, oldVersion: int, i: nat,
      error: DiscoveryError)
    requires i < |WINDOW_COUNTS| && Fails(chart, all, oldVersion, i, error)
    ensures DiscoveredFrom(chart, all, oldVersion, i, Discovery([], Some(error)))
  {
    hide Fails, Answers;
  }

  lemma {:induction false} Decided(chart: int -> seq<Bar>, all: Stored, oldVersion: int, i: nat, c: Comparison)
    requires i < |WINDOW_COUNTS| && Answers(chart, all, oldVersion, i, c) && c.decision != Expand
    ensures DiscoveredFrom(chart, all, oldVersion, i, Discovery([c], None))
  {
    hide Fails, Answers;
  }

  lemma {:induction false} Widened(chart: int -> seq<Bar>, all: Stored, oldVersion: int, i: nat, c: Comparison,
      rest: Discovery)
    requires i + 1 < |WINDOW_COUNTS| && Answers(chart, all, oldVersion, i, c) && c.decision == Expand
    requires DiscoveredFrom(chart, all, oldVersion, i + 1, rest)
    ensures DiscoveredFrom(chart, all, oldVersion, i, Discovery([c] + rest.steps, rest.failed))
  {
    hide Fails, Answers;
    forall k | 0 < k <= |rest.steps| ensures Answers(chart, all, oldVersion, i + k, ([c] + rest.steps)[k]) {
      assert Answers(chart, all, oldVersion, i + 1 + (k - 1), rest.steps[k - 1]);
    }
  }

  lemma {:induction false} DiscoverIs(chart: int -> seq<Bar>, all: Stored, oldVersion: int)
    ensures Discovered(chart, all, oldVersion, Discover(chart, all, oldVersion))
  {
    hide Answers, Fails, DiscoverFrom;
    DiscoverFromIs(chart, all, oldVersion, 0);
    var d := Discover(chart, all, oldVersion);
    assert forall k :: 0 <= k < |d.steps| ==> Answers(chart, all, oldVersion, 0 + k, d.steps[k]);
  }

  /** Only one discovery fits the answers of the provider. */
  lemma {:induction false} OneDiscovery(chart: int -> seq<Bar>, all: Stored, oldVersion: int, d: Discovery,
      e: Discovery)
    requires Discovered(chart, all, oldVersion, d) && Discovered(chart, all, oldVersion, e)
    ensures d == e
  {
    hide CompareStep;
    if |d.steps| <= |e.steps| {
      ShorterIsWhole(chart, all, oldVersion, d, e);
    } else {
      ShorterIsWhole(chart, all, oldVersion, e, d);
    }
  }

  lemma {:induction false} ShorterIsWhole(chart: int -> seq<Bar>, all: Stored, oldVersion: int, d: Discovery,
      e: Discovery)
    requires Discovered(chart, all, oldVersion, d) && Discovered(chart, all, oldVersion, e)
    requires |d.steps| <= |e.steps|
    ensures d == e
  {
    hide Answers, Fails;
    forall i | 0 <= i < |d.steps| ensures d.steps[i] == e.steps[i] {
      SameAnswer(chart, all, oldVersion, i, d.steps[i], e.steps[i]);
    }
    var n := |d.steps|;
    assert n < |e.steps| ==> Answers(chart, all, oldVersion, n, e.steps[n]);
    if n < |WINDOW_COUNTS| {
      AnsweredDoesNotFail(chart, all, oldVersion, n);
    }
    assert d.steps == e.steps;
    if d.failed.Some? && e.failed.Some? {
      OneFailure(chart, all, oldVersion, |d.steps|, d.failed.value, e.failed.value);
    }
  }

  lemma {:induction false} AnsweredDoesNotFail(chart: int -> seq<Bar>, all: Stored, oldVersion: int, i: nat)
    requires i < |WINDOW_COUNTS|
    ensures forall c, error :: Answers(chart, all, oldVersion, i, c) ==> !Fails(chart, all, oldVersion, i, error)
  {
  }

  lemma {:induction false} OneFailure(chart: int -> seq<Bar>, all: Stored, oldVersion: int, i: nat,
      a: DiscoveryError, b: DiscoveryError)
    requires i < |WINDOW_COUNTS| && Fails(chart, all, oldVersion, i, a)
    ensures Fails(chart, all, oldVersion, i, b) ==> a == b
  {
  }

  lemma {:induction false} SameAnswer(chart: int -> seq<Bar>, all: Stored, oldVersion: int, i: nat, c: Comparison,
      e: Comparison)
    requires i < |WINDOW_COUNTS| && Answers(chart, all, oldVersion, i, c) && Answers(chart, all, oldVersion, i, e)
    ensures c == e
  {
  }

  // ---- A page that matches the store up to its last row ----

  /** The bars are complete and of one version, and the store holds their times, with equal contents up to the last. */
  ghost predicate MatchesUpToLast(page: seq<Bar>, stored: Stored, version: int) {
    && Paging.IsSeries(page) && |page| > STABLE_ANCHOR_ROWS
    && Versions(page) == {version} && (forall b :: b in page ==> b.content.isComplete)
    && stored.Keys == TimesOf(page)
    && forall i :: 0 <= i < |page| - 1 ==> stored[page[i].time].content == page[i].content
  }

  /** The range of such a page that can be affected: its last row, if that differs. */
  function LastIfChanged(page: seq<Bar>, stored: Stored): Option<Range>
    requires page != [] && page[|page| - 1].time in stored
  {
    var last := page[|page| - 1];
    if stored[last.time].content == last.content then None else Some(Range(last.time, last.time))
  }

  lemma {:induction false} LastTimeIsStored(page: seq<Bar>, stored: Stored, version: int)
    requires MatchesUpToLast(page, stored, version)
    ensures page[|page| - 1].time in stored
  {
    assert page[|page| - 1] in page;
  }

  lemma {:induction false} OnlyTheLastIsAffected(page: seq<Bar>, stored: Stored, version: int)
    requires MatchesUpToLast(page, stored, version) && page[|page| - 1].time in stored
    ensures var p, last := ByTime(page), page[|page| - 1];
      && p.Keys == TimesOf(page) && p.Keys != {} && WindowOf(p.Keys) == Range(page[0].time, last.time)
      && page[0].time < last.time && last.time in p && p[last.time] == last
      && NewTimes(p, stored) == {} && RemovedTimes(p, stored, WindowOf(p.Keys)) == {}
      && DifferenceTimes(p, stored) == (if stored[last.time].content == last.content then {} else {last.time})
  {
    hide TimesOf, ByTime, Versions;
    var p, n := ByTime(page), |page| - 1;
    ByTimeOfSeries(page);
    BoundsOfSeries(page);
    Paging.ReachIsOrdered(page, 0, n);
    forall t | t in p && t != page[n].time ensures p[t].content == stored[t].content {
      var i := MemberOfSeries(page, t);
    }
  }

  lemma {:induction false} AffectedOfLast(page: seq<Bar>, stored: Stored, version: int)
    requires MatchesUpToLast(page, stored, version) && page[|page| - 1].time in stored
    ensures ByTime(page).Keys != {}
    ensures Span(Affected(ByTime(page), stored, WindowOf(ByTime(page).Keys))) == LastIfChanged(page, stored)
  {
    hide MatchesUpToLast, ByTime, DifferenceTimes, NewTimes, RemovedTimes, WindowOf;
    OnlyTheLastIsAffected(page, stored, version);
    var t := page[|page| - 1].time;
    assert Min({t}) == t == Max({t});
  }

  lemma {:induction false} AnchorBeforeLast(page: seq<Bar>, stored: Stored, version: int, ordered: seq<Bar>,
      span: Option<Range>)
    requires MatchesUpToLast(page, stored, version) && page[|page| - 1].time in stored
    requires Lists(ordered, ByTime(page)) && |ordered| == |page| && span == LastIfChanged(page, stored)
    ensures AnchorRows(Preceding(ordered, span), stored) >= STABLE_ANCHOR_ROWS
  {
    hide Preceding, ByTime, AnchorRows, Affected, CompleteSuffix, Span;
    OnlyTheLastIsAffected(page, stored, version);
    AffectedOfLast(page, stored, version);
    PrecedingMatches(ByTime(page), ordered, stored, WindowOf(ByTime(page).Keys));
    LastIsLatest(ByTime(page), ordered, page[|page| - 1].time);
    PrecedingSize(ordered, span);
    var preceding := Preceding(ordered, span);
    forall b | b in preceding ensures b.content.isComplete {
      var i :| 0 <= i < |ordered| && ordered[i] == b;
      var k := MemberOfSeries(page, b.time);
    }
    AllComplete(preceding);
    AnchorIsCompleteSuffix(preceding, stored);
  }

  lemma {:induction false} LastRowVerdict(page: seq<Bar>, stored: Stored, version: int, anchor: int, count: int)
    requires MatchesUpToLast(page, stored, version) && page[|page| - 1].time in stored
    requires STABLE_ANCHOR_ROWS <= anchor && ByTime(page).Keys != {}
    ensures Verdict(ByTime(page), stored, WindowOf(ByTime(page).Keys), anchor, STABLE_ANCHOR_ROWS, count,
      MAXIMUM_COUNT).0 == ReadyToApply
  {
    hide Decide, ByTime, Affected, Span, RemovedTimes, MatchedComplete, CompletedDifferences, WindowOf, InRange,
      LastIfChanged, MatchesUpToLast;
    OnlyTheLastIsAffected(page, stored, version);
    AffectedOfLast(page, stored, version);
    MatchedRows(page, stored, version);
    LastRowSizes(page, stored, version);
    var p, span := ByTime(page), LastIfChanged(page, stored);
    FewChangesAreReady(|InRange(p, span)|, |page|, |CompletedDifferences(p, stored)|, anchor, count, span.Some?);
    LastIsNotFirst(page, stored, version);
  }

  lemma {:induction false} LastIsNotFirst(page: seq<Bar>, stored: Stored, version: int)
    requires MatchesUpToLast(page, stored, version) && page[|page| - 1].time in stored
    ensures |page| > STABLE_ANCHOR_ROWS
    ensures LastIfChanged(page, stored).Some? ==> LastIfChanged(page, stored).value.first == page[|page| - 1].time
  {
  }

  lemma {:induction false} FewChangesAreReady(spanRows: int, matched: int, differences: int, anchor: int, count: int,
      changed: bool)
    requires spanRows <= 1 && differences <= 1 && STABLE_ANCHOR_ROWS < matched && STABLE_ANCHOR_ROWS <= anchor
    ensures Decide(0, spanRows, matched, differences, anchor, STABLE_ANCHOR_ROWS, false, count, MAXIMUM_COUNT,
      changed).0 == ReadyToApply
  {
  }

  lemma {:induction false} LastRowSizes(page: seq<Bar>, stored: Stored, version: int)
    requires MatchesUpToLast(page, stored, version) && page[|page| - 1].time in stored
    ensures |CompletedDifferences(ByTime(page), stored)| <= 1
    ensures |InRange(ByTime(page), LastIfChanged(page, stored))| <= 1
    ensures |page| > STABLE_ANCHOR_ROWS
  {
    var p, last := ByTime(page), page[|page| - 1].time;
    OnlyTheLastIsAffected(page, stored, version);
    hide ByTime, TimesOf, Versions;
    SubsetSize(CompletedDifferences(p, stored), {last});
    SubsetSize(InRange(p, LastIfChanged(page, stored)), {last});
  }

  lemma {:induction false} MatchedRows(page: seq<Bar>, stored: Stored, version: int)
    requires MatchesUpToLast(page, stored, version)
    ensures |MatchedComplete(ByTime(page), stored)| == |page| == |TimesOf(page)| == |ByTime(page)|
  {
    hide Versions;
    ByTimeOfSeries(page);
    forall t | t in ByTime(page) ensures ByTime(page)[t].content.isComplete {
      var i := MemberOfSeries(page, t);
    }
    assert MatchedComplete(ByTime(page), stored) == TimesOf(page);
    SeriesSize(page);
    assert |ByTime(page)| == |ByTime(page).Keys|;
  }

  lemma {:induction false} SeriesSize(page: seq<Bar>)
    requires Paging.IsSeries(page)
    ensures |TimesOf(page)| == |page|
  {
    forall t ensures t in Times(page) <==> t in TimesOf(page) {
      if t in Times(page) {
        var i :| 0 <= i < |page| && Times(page)[i] == t;
        assert page[i] in page;
      }
      if b :| b in page && b.time == t {
        var i :| 0 <= i < |page| && page[i] == b;
        assert Times(page)[i] == t;
      }
    }
    SortedIsUnique(Times(page), TimesOf(page));
  }

  /** Such a page is ready at once, and at most its last row is affected. */
  lemma {:induction false} MatchingPageIsReady(page: seq<Bar>, stored: Stored, oldVersion: int, version: int,
      count: int)
    requires MatchesUpToLast(page, stored, version) && version != oldVersion
    ensures page[|page| - 1].time in stored
    ensures var r := Compare(page, stored, oldVersion, count, MAXIMUM_COUNT, STABLE_ANCHOR_ROWS);
      && r.Ok? && r.value.decision == ReadyToApply && r.value.affected == LastIfChanged(page, stored)
      && r.value.oldVersion == oldVersion && r.value.newVersion == version
      && r.value.compared == Range(page[0].time, page[|page| - 1].time)
  {
    hide ByTime, Order, AnchorRows, Preceding, Verdict, Affected, Span, DifferenceTimes, NewTimes, RemovedTimes,
      VersionOnlyTimes, LastIfChanged, Lists;
    LastTimeIsStored(page, stored, version);
    MatchedRows(page, stored, version);
    OnlyTheLastIsAffected(page, stored, version);
    AffectedOfLast(page, stored, version);
    OrderIsSorted(page);
    OrderSize(page);
    AnchorBeforeLast(page, stored, version, Order(page), LastIfChanged(page, stored));
    LastRowVerdict(page, stored, version, AnchorRows(Preceding(Order(page), LastIfChanged(page, stored)), stored),
        count);
  }

  // ---- Why the payload must be in order ----

  const FLAT := Content(Ohlc(1.0, 1.0, 1.0, 1.0), NO_SIDE, NO_SIDE, None, None, true)

  function FlatBar(time: int): Bar { Bar(time, FLAT, NativeOhlc, Some(2), None, 0, "") }

  /** Sixteen matching rows, then the newest row before the second newest. */
  function MisorderedPayload(): seq<Bar> {
    seq(16, i => FlatBar(10 * i)) + [FlatBar(180), FlatBar(170)]
  }

  function Grid(n: nat): set<int> { set i | 0 <= i < n :: 10 * i }

  /** The store holds every row of the payload but the newest, and one row the provider no longer has. */
  function StoreWithStrayRow(): Stored {
    var times := Grid(16) + {170, 175};
    map t | t in times :: StoredBar(FLAT, Some(1))
  }

  lemma {:induction false} MisorderedRows()
    ensures var bars := MisorderedPayload();
      && |bars| == 18 && bars[0].time == 0 && bars[17].time == 170
      && (forall b :: b in bars ==> b == FlatBar(b.time) && (b.time in Grid(16) || b.time == 180 || b.time == 170))
      && (forall t :: t in Grid(16) + {180, 170} ==> FlatBar(t) in bars)
  {
    var bars := MisorderedPayload();
    assert forall i :: 0 <= i < 16 ==> bars[i] == FlatBar(10 * i);
    assert bars[16] == FlatBar(180) && bars[17] == FlatBar(170);
    forall t | t in Grid(16) ensures FlatBar(t) in bars {
      var i :| 0 <= i < 16 && 10 * i == t;
      assert bars[i] == FlatBar(t);
    }
    forall b | b in bars ensures b == FlatBar(b.time) && (b.time in Grid(16) || b.time == 180 || b.time == 170) {
      var i :| 0 <= i < 18 && bars[i] == b;
      assert i < 16 ==> 10 * i in Grid(16);
    }
  }

  lemma {:induction false} MisorderedTimes()
    ensures TimesOf(MisorderedPayload()) == Grid(16) + {180, 170}
    ensures |TimesOf(MisorderedPayload())| == |MisorderedPayload()| == 18
  {
    MisorderedRows();
    var bars, all := MisorderedPayload(), Grid(16) + {180, 170};
    forall t ensures t in TimesOf(bars) <==> t in all {
      if t in all { assert FlatBar(t) in bars && FlatBar(t).time == t; }
    }
    GridSize(16);
    assert 180 !in Grid(16) && 170 !in Grid(16);
    assert |all| == |Grid(16)| + 2;
  }

  lemma {:induction false} GridSize(n: nat)
    ensures |Grid(n)| == n
  {
    if n > 0 {
      GridSize(n - 1);
      assert Grid(n) == Grid(n - 1) + {10 * (n - 1)};
    }
  }

  lemma {:induction false} MisorderedByTime()
    ensures ByTime(MisorderedPayload()).Keys == Grid(16) + {180, 170}
    ensures forall t :: t in ByTime(MisorderedPayload()) ==> ByTime(MisorderedPayload())[t] == FlatBar(t)
  {
    MisorderedTimes();
    MisorderedRows();
    OrderIsSorted(MisorderedPayload());
    AllFlat(MisorderedPayload());
  }

  lemma {:induction false} AllFlat(bars: seq<Bar>)
    requires forall b :: b in bars ==> b == FlatBar(b.time)
    ensures forall t :: t in ByTime(bars) ==> ByTime(bars)[t] == FlatBar(t)
  {
    if bars != [] {
      AllFlat(bars[..|bars| - 1]);
      assert bars[|bars| - 1] in bars;
    }
  }

  lemma {:induction false} PrecedingSize(ordered: seq<Bar>, span: Option<Range>)
    requires forall i :: 0 <= i < |ordered| - 1 ==> span.None? || ordered[i].time < span.value.first
    ensures |ordered| - 1 <= |Preceding(ordered, span)|
    ensures ordered != [] && (span.None? || ordered[|ordered| - 1].time < span.value.first) ==>
      |Preceding(ordered, span)| == |ordered|
  {
    if ordered != [] {
      PrecedingSize(ordered[..|ordered| - 1], span);
    }
  }

  lemma {:induction false} AllComplete(bars: seq<Bar>)
    requires forall b :: b in bars ==> b.content.isComplete
    ensures CompleteSuffix(bars) == |bars|
  {
    if bars != [] {
      assert bars[|bars| - 1] in bars;
      AllComplete(bars[..|bars| - 1]);
    }
  }

  /** The dictionaries behind the example: what the provider sent, and what was read from the store. */
  ghost predicate ExamplePage(p: map<int, Bar>) {
    p.Keys == Grid(16) + {180, 170} && forall t :: t in p ==> p[t] == FlatBar(t)
  }

  ghost predicate ExampleStored(stored: Stored) {
    stored.Keys == Grid(16) + {170} && forall t :: t in stored ==> stored[t].content == FLAT
  }

  lemma {:induction false} ExampleSets(p: map<int, Bar>, stored: Stored)
    requires ExamplePage(p) && ExampleStored(stored)
    ensures p.Keys != {} && WindowOf(p.Keys) == Range(0, 180)
    ensures Affected(p, stored, Range(0, 180)) == {180} && Span({180}) == Some(Range(180, 180))
    ensures RemovedTimes(p, stored, Range(0, 180)) == {} && CompletedDifferences(p, stored) == {}
    ensures 0 in MatchedComplete(p, stored)
    ensures InRange(p, Some(Range(180, 180))) == {180}
  {
    assert 10 * 0 in Grid(16) && 0 in p.Keys && 180 in p.Keys;
    forall t | t in p.Keys ensures 0 <= t <= 180 { }
    assert Min(p.Keys) == 0 && Max(p.Keys) == 180;
    assert 180 !in stored;
    assert NewTimes(p, stored) == {180} && DifferenceTimes(p, stored) == {};
    assert Min({180}) == 180 && Max({180}) == 180;
  }

  /** In a listing only the last bar can have the latest time. */
  lemma {:induction false} LastIsLatest(p: map<int, Bar>, ordered: seq<Bar>, latest: int)
    requires Lists(ordered, p) && forall t :: t in p ==> t <= latest
    ensures forall i :: 0 <= i < |ordered| - 1 ==> ordered[i].time < latest
  {
    SortedIncreases(p.Keys);
    forall i | 0 <= i < |ordered| - 1 ensures ordered[i].time < latest {
      var n := |ordered| - 1;
      assert Times(ordered)[i] == ordered[i].time && Times(ordered)[n] == ordered[n].time;
      assert ordered[n].time in p;
    }
  }

  lemma {:induction false} ExampleAnchors(p: map<int, Bar>, ordered: seq<Bar>, stored: Stored, window: Range,
      span: Option<Range>)
    requires Lists(ordered, p) && |ordered| == 18
    requires forall t :: t in p ==> p[t] == FlatBar(t) && t <= 180
    requires span == Some(Range(180, 180)) == Span(Affected(p, stored, window))
    ensures AnchorRows(Preceding(ordered, span), stored) >= 17
  {
    PrecedingMatches(p, ordered, stored, window);
    LastIsLatest(p, ordered, 180);
    PrecedingSize(ordered, span);
    var preceding := Preceding(ordered, span);
    forall b | b in preceding ensures b.content.isComplete {
      var i :| 0 <= i < |ordered| && ordered[i] == b;
    }
    AllComplete(preceding);
    AnchorIsCompleteSuffix(preceding, stored);
  }

  lemma {:induction false} ExampleVerdict(p: map<int, Bar>, stored: Stored, anchor: int)
    requires ExamplePage(p) && ExampleStored(stored) && STABLE_ANCHOR_ROWS <= anchor
    ensures Verdict(p, stored, Range(0, 180), anchor, STABLE_ANCHOR_ROWS, 96, MAXIMUM_COUNT).0 == ReadyToApply
  {
    ExampleSets(p, stored);
    assert |MatchedComplete(p, stored)| > 0;
  }

  /**
   Reading the stored rows between the first and last row of a payload that is not in order can miss a stray
   row: the comparison is ready, the patch is applied, and the stray row stays inside the compared window.
   */
  lemma {:induction false} MisorderedPayloadLeavesAStrayRow()
    ensures var page, all := MisorderedPayload(), StoreWithStrayRow();
      var r := CompareStep(page, all, 1, 96);
      && r.Ok? && r.value.decision == ReadyToApply && r.value.affected == Some(Range(180, 180))
      && !AgreesOn(Patch(all, ByTime(page), Range(180, 180)), ByTime(page), r.value.compared)
  {
    hide ByTime, Order, MisorderedPayload, StoreWithStrayRow, StoredWindow, AgreesOn, Patch, Compare;
    var page, all := MisorderedPayload(), StoreWithStrayRow();
    var stored := StoredWindow(all, 0, 170);
    ExampleIsAsDescribed(page, all, stored);
    ExampleCompares(page, stored);
    StrayRowStays(ByTime(page), all);
  }

  lemma {:induction false} ExampleCompares(page: seq<Bar>, stored: Stored)
    requires |page| == |TimesOf(page)| == 18 && |Versions(page)| == 1 && Min(Versions(page)) == 2
    requires ExamplePage(ByTime(page)) && ExampleStored(stored)
    requires Lists(Order(page), ByTime(page)) && |Order(page)| == 18
    ensures var r := Compare(page, stored, 1, 96, MAXIMUM_COUNT, STABLE_ANCHOR_ROWS);
      && r.Ok? && r.value.decision == ReadyToApply && r.value.affected == Some(Range(180, 180))
      && r.value.compared == Range(0, 180)
  {
    hide ByTime, Order, Lists, Versions, TimesOf, Preceding, AnchorRows;
    ExampleSets(ByTime(page), stored);
    ExampleReport(ByTime(page), Order(page), stored);
  }

  lemma {:induction false} ExampleReport(p: map<int, Bar>, ordered: seq<Bar>, stored: Stored)
    requires ExamplePage(p) && ExampleStored(stored) && p.Keys != {}
    requires Lists(ordered, p) && |ordered| == 18
    ensures var c := Report(p, ordered, stored, 1, 2, 96, MAXIMUM_COUNT, STABLE_ANCHOR_ROWS);
      c.decision == ReadyToApply && c.affected == Some(Range(180, 180)) && c.compared == Range(0, 180)
  {
    hide Lists, Preceding, AnchorRows, Affected, RemovedTimes, DifferenceTimes, NewTimes, VersionOnlyTimes,
      Verdict, Span;
    ExampleSets(p, stored);
    var span := Some(Range(180, 180));
    ExampleAnchors(p, ordered, stored, Range(0, 180), span);
    ExampleVerdict(p, stored, AnchorRows(Preceding(ordered, span), stored));
  }

  lemma {:induction false} StrayRowStays(p: map<int, Bar>, all: Stored)
    requires ExamplePage(p) && 175 in all
    ensures !AgreesOn(Patch(all, p, Range(180, 180)), p, Range(0, 180))
  {
    assert 175 in Patch(all, p, Range(180, 180)) && 175 !in p;
    assert Range(0, 180).Has(175);
  }

  lemma {:induction false} ExampleIsAsDescribed(page: seq<Bar>, all: Stored, stored: Stored)
    requires page == MisorderedPayload() && all == StoreWithStrayRow() && stored == StoredWindow(all, 0, 170)
    ensures |page| == |TimesOf(page)| == 18 && page[0].time == 0 && page[17].time == 170
    ensures ExamplePage(ByTime(page)) && ExampleStored(stored) && 175 in all
    ensures Lists(Order(page), ByTime(page)) && |Order(page)| == |ByTime(page)| == 18
    ensures |Versions(page)| == 1 && Min(Versions(page)) == 2
  {
    MisorderedRows();
    MisorderedTimes();
    MisorderedByTime();
    OrderIsSorted(page);
    ExampleVersions(page);
    ExampleStoreAsRead(all, stored);
    OrderSize(page);
  }

  lemma {:induction false} OrderSize(page: seq<Bar>)
    ensures |Order(page)| == |ByTime(page)| == |ByTime(page).Keys|
  {
  }

  lemma {:induction false} ExampleStoreAsRead(all: Stored, stored: Stored)
    requires all == StoreWithStrayRow() && stored == StoredWindow(all, 0, 170)
    ensures ExampleStored(stored) && 175 in all
  {
  }

  lemma {:induction false} ExampleVersions(page: seq<Bar>)
    requires page != [] && forall b :: b in page ==> b == FlatBar(b.time)
    ensures |Versions(page)| == 1 && Min(Versions(page)) == 2
  {
    assert page[0] in page && page[0].dataVersion == Some(2);
    assert Versions(page) == {2};
  }
}
