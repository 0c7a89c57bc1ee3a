/** Bar normalisation: merging pages, finishing a session's last bar, and the FX quarantine. */
module Normalize {
  import opened Sets
  import opened Types
  import Slots = SessionSlots

  // ---- Merging inclusive pages ----

  function WithComplete(b: Bar, complete: bool): Bar {
    b.(content := b.content.(isComplete := complete))
  }

  /** Two observations that differ at most in their completeness flag. */
  predicate SameApartFromComplete(a: Bar, b: Bar) {
    WithComplete(a, true) == WithComplete(b, true)
  }

  function AddPage(byTime: map<int, Bar>, page: seq<Bar>): (r: map<int, Bar>)
    ensures r.Keys == byTime.Keys + set b | b in page :: b.time
  {
    if page == [] then byTime
    else
      var n := |page| - 1;
      var earlier := AddPage(byTime, page[..n]);
      assert page == page[..n] + [page[n]];
      if page[n].time in earlier then earlier else earlier[page[n].time := page[n]]
  }

  /** For every time the first observation of it, in request order. */
  function FirstSeen(pages: seq<seq<Bar>>): map<int, Bar> {
    if pages == [] then map[] else AddPage(FirstSeen(pages[..|pages| - 1]), pages[|pages| - 1])
  }

  function Merged(byTime: map<int, Bar>): seq<Bar> {
    var keys := Sorted(byTime.Keys);
    seq(|keys|, i requires 0 <= i < |keys| => WithComplete(byTime[keys[i]], i < |keys| - 1))
  }

  function Merge(pages: seq<seq<Bar>>): seq<Bar> { Merged(FirstSeen(pages)) }

  lemma {:induction false} AddBar(byTime: map<int, Bar>, page: seq<Bar>, j: nat)
    requires j < |page|
    ensures var earlier := AddPage(byTime, page[..j]);
      AddPage(byTime, page[..j + 1]) == if page[j].time in earlier then earlier else earlier[page[j].time := page[j]]
  {
    assert page[..j + 1][..j] == page[..j];
  }

  lemma {:induction false} SeePage(pages: seq<seq<Bar>>, i: nat)
    requires i < |pages|
    ensures FirstSeen(pages[..i + 1]) == AddPage(FirstSeen(pages[..i]), pages[i])
  {
    assert pages[..i + 1][..i] == pages[..i];
  }

  method MergePages(pages: seq<seq<Bar>>) returns (bars: seq<Bar>)
    ensures bars == Merge(pages)
  {
    hide AddPage, FirstSeen;
    var byTime: map<int, Bar> := map[];
    assert FirstSeen([]) == map[] by { NothingSeen(); }
    for i := 0 to |pages|
      invariant byTime == FirstSeen(pages[..i])
    {
      var page := pages[i];
      ghost var before := byTime;
      assert AddPage(before, page[..0]) == before by { NothingAdded(before, page); }
      for j := 0 to |page|
        invariant byTime == AddPage(before, page[..j])
      {
        AddBar(before, page, j);
        if page[j].time !in byTime {
          byTime := byTime[page[j].time := page[j]];
        }
      }
      assert page[..|page|] == page;
      SeePage(pages, i);
    }
    assert pages[..|pages|] == pages;
    bars := Merged(byTime);
  }

  lemma {:induction false} NothingSeen()
    ensures FirstSeen([]) == map[]
  {
  }

  lemma {:induction false} NothingAdded(byTime: map<int, Bar>, page: seq<Bar>)
    ensures AddPage(byTime, page[..0]) == byTime
  {
  }

  /** Every stored bar carries the time it is stored under. */
  ghost predicate Keyed(m: map<int, Bar>) {
    forall t :: t in m ==> m[t].time == t
  }

  lemma {:induction false} AddPageKeyed(m: map<int, Bar>, page: seq<Bar>)
    requires Keyed(m)
    ensures Keyed(AddPage(m, page))
  {
    if page != [] { AddPageKeyed(m, page[..|page| - 1]); }
  }

  lemma {:induction false} FirstSeenKeyed(pages: seq<seq<Bar>>)
    ensures Keyed(FirstSeen(pages))
  {
    if pages != [] {
      FirstSeenKeyed(pages[..|pages| - 1]);
      AddPageKeyed(FirstSeen(pages[..|pages| - 1]), pages[|pages| - 1]);
    }
  }

  function AllTimes(pages: seq<seq<Bar>>): set<int> {
    set p, b | p in pages && b in p :: b.time
  }

  lemma {:induction false} FirstSeenTimes(pages: seq<seq<Bar>>)
    ensures FirstSeen(pages).Keys == AllTimes(pages)
  {
    if pages != [] {
      var n := |pages| - 1;
      FirstSeenTimes(pages[..n]);
      assert pages == pages[..n] + [pages[n]];
    }
  }

  lemma {:induction false} MergedShape(m: map<int, Bar>)
    requires Keyed(m)
    ensures Times(Merged(m)) == Sorted(m.Keys)
    ensures StrictlyIncreasing(Times(Merged(m)))
    ensures forall i :: 0 <= i < |Merged(m)| ==> (Merged(m)[i].content.isComplete <==> i < |Merged(m)| - 1)
    ensures forall b :: b in Merged(m) ==> b.time in m && SameApartFromComplete(b, m[b.time])
  {
    hide StrictlyIncreasing, SameApartFromComplete;
    SortedIncreases(m.Keys);
    var keys, bars := Sorted(m.Keys), Merged(m);
    forall i | 0 <= i < |keys| ensures MergedFrom(m, bars[i], keys[i]) {
      MergedAt(m, i);
    }
    assert Times(bars) == keys;
    forall b | b in bars ensures b.time in m && SameApartFromComplete(b, m[b.time]) {
      var i :| 0 <= i < |bars| && bars[i] == b;
      assert MergedFrom(m, bars[i], keys[i]);
    }
  }

  predicate MergedFrom(m: map<int, Bar>, b: Bar, t: int) { t in m && b.time == t && SameApartFromComplete(b, m[t]) }

  lemma {:induction false} MergedAt(m: map<int, Bar>, i: nat)
    requires Keyed(m) && i < |Sorted(m.Keys)|
    ensures MergedFrom(m, Merged(m)[i], Sorted(m.Keys)[i])
  {
    assert Sorted(m.Keys)[i] in m.Keys;
  }

  /** Pages merge into strictly increasing times, exactly the times observed, only the last one open. */
  lemma {:induction false} MergeShape(pages: seq<seq<Bar>>)
    ensures StrictlyIncreasing(Times(Merge(pages)))
    ensures forall t :: t in Times(Merge(pages)) <==> t in AllTimes(pages)
    ensures forall i :: 0 <= i < |Merge(pages)| ==>
      (Merge(pages)[i].content.isComplete <==> i < |Merge(pages)| - 1)
  {
    FirstSeenTimes(pages);
    FirstSeenKeyed(pages);
    MergedShape(FirstSeen(pages));
  }

  lemma {:induction false} AddPageKeepsFirst(m: map<int, Bar>, page: seq<Bar>)
    ensures forall t :: t in m ==> t in AddPage(m, page) && AddPage(m, page)[t] == m[t]
  {
    if page != [] { AddPageKeepsFirst(m, page[..|page| - 1]); }
  }

  /** The value kept for a time is the first one seen, whatever later pages repeat. */
  lemma {:induction false} FirstObservationWins(before: seq<seq<Bar>>, page: seq<Bar>, after: seq<seq<Bar>>, k: nat)
    requires k < |page|
    requires page[k].time !in AllTimes(before)
    requires forall j :: 0 <= j < k ==> page[j].time != page[k].time
    ensures page[k].time in FirstSeen(before + [page] + after)
    ensures FirstSeen(before + [page] + after)[page[k].time] == page[k]
    decreases |after|
  {
    var all := before + [page] + after;
    if after == [] {
      FirstSeenTimes(before);
      assert all[..|all| - 1] == before && all[|all| - 1] == page;
      FirstInPage(FirstSeen(before), page, k, |page|);
      assert page[..|page|] == page;
    } else {
      var n := |after| - 1;
      FirstObservationWins(before, page, after[..n], k);
      assert all[..|all| - 1] == before + [page] + after[..n] && all[|all| - 1] == after[n];
      AddPageKeepsFirst(FirstSeen(before + [page] + after[..n]), after[n]);
    }
  }

  lemma {:induction false} FirstInPage(m: map<int, Bar>, page: seq<Bar>, k: nat, upto: nat)
    requires k < upto <= |page| && page[k].time !in m
    requires forall j :: 0 <= j < k ==> page[j].time != page[k].time
    ensures page[k].time in AddPage(m, page[..upto]) && AddPage(m, page[..upto])[page[k].time] == page[k]
  {
    assert page[..upto][..upto - 1] == page[..upto - 1];
    if k + 1 < upto {
      FirstInPage(m, page, k, upto - 1);
    }
  }

  // ---- Merging is insensitive to how pages are grouped ----

  /** Left-biased union: what is already known wins. */
  function Prefer(first: map<int, Bar>, second: map<int, Bar>): map<int, Bar> { second + first }

  lemma {:induction false} PreferAssociates(a: map<int, Bar>, b: map<int, Bar>, c: map<int, Bar>)
    ensures Prefer(Prefer(a, b), c) == Prefer(a, Prefer(b, c))
  {
  }

  lemma {:induction false} PreferAlike(a: map<int, Bar>, b: map<int, Bar>, c: map<int, Bar>, d: map<int, Bar>)
    requires Alike(a, c) && Alike(b, d)
    ensures Alike(Prefer(a, b), Prefer(c, d))
  {
  }

  lemma {:induction false} AddPageIsUnion(m: map<int, Bar>, page: seq<Bar>)
    ensures AddPage(m, page) == Prefer(m, AddPage(map[], page))
  {
    if page != [] { AddPageIsUnion(m, page[..|page| - 1]); }
  }

  lemma {:induction false} FirstSeenAppend(p: seq<seq<Bar>>, q: seq<seq<Bar>>)
    ensures FirstSeen(p + q) == Prefer(FirstSeen(p), FirstSeen(q))
  {
    if q == [] {
      assert p + q == p;
    } else {
      var n := |q| - 1;
      FirstSeenAppend(p, q[..n]);
      assert (p + q)[..|p + q| - 1] == p + q[..n] && (p + q)[|p + q| - 1] == q[n];
      AddPageIsUnion(FirstSeen(p + q[..n]), q[n]);
      AddPageIsUnion(FirstSeen(q[..n]), q[n]);
      PreferAssociates(FirstSeen(p), FirstSeen(q[..n]), AddPage(map[], q[n]));
    }
  }

  ghost predicate Alike(m: map<int, Bar>, n: map<int, Bar>) {
    m.Keys == n.Keys && forall t :: t in m ==> SameApartFromComplete(m[t], n[t])
  }

  lemma {:induction false} AlikeMerge(m: map<int, Bar>, n: map<int, Bar>)
    requires Alike(m, n)
    ensures Merged(m) == Merged(n)
  {
    var keys := Sorted(m.Keys);
    forall i | 0 <= i < |keys| ensures Merged(m)[i] == Merged(n)[i] {
      CompleteIsOverwritten(m[keys[i]], n[keys[i]], i < |keys| - 1);
    }
  }

  lemma {:induction false} CompleteIsOverwritten(a: Bar, b: Bar, complete: bool)
    requires SameApartFromComplete(a, b)
    ensures WithComplete(a, complete) == WithComplete(b, complete)
  {
  }

  lemma {:induction false} DistinctPage(page: seq<Bar>)
    requires StrictlyIncreasing(Times(page))
    ensures forall i :: 0 <= i < |page| ==>
        page[i].time in AddPage(map[], page) && AddPage(map[], page)[page[i].time] == page[i]
  {
    forall i | 0 <= i < |page|
      ensures page[i].time in AddPage(map[], page) && AddPage(map[], page)[page[i].time] == page[i]
    {
      assert Times(page)[i] == page[i].time;
      assert forall j :: 0 <= j < i ==> Times(page)[j] == page[j].time;
      FirstInPage(map[], page, i, |page|);
      assert page[..|page|] == page;
    }
  }

  lemma {:induction false} OnePage(page: seq<Bar>)
    ensures FirstSeen([page]) == AddPage(map[], page)
  {
  }

  lemma {:induction false} SameTimes(page: seq<Bar>, s: set<int>)
    requires forall t :: t in Times(page) <==> t in s
    ensures (set b | b in page :: b.time) == s
  {
    forall t | t in s ensures t in set b | b in page :: b.time {
      var i :| 0 <= i < |page| && Times(page)[i] == t;
      assert page[i] in page;
    }
    forall b | b in page ensures b.time in s {
      var i :| 0 <= i < |page| && page[i] == b;
      assert Times(page)[i] == b.time;
    }
  }

  lemma {:induction false} SameTimesConverse(page: seq<Bar>, m: map<int, Bar>)
    requires forall b :: b in page ==> b.time in m
    requires forall t :: t in m ==> exists b :: b in page && b.time == t
    ensures forall t :: t in Times(page) <==> t in m.Keys
  {
  }

  /** A merged list, taken as one page, says the same as the pages it came from. */
  lemma {:induction false} MergeAsPage(pages: seq<seq<Bar>>)
    ensures Alike(FirstSeen([Merge(pages)]), FirstSeen(pages))
  {
    var bars, m := Merge(pages), FirstSeen(pages);
    FirstSeenKeyed(pages);
    MergedShape(m);
    SameTimes(bars, m.Keys);
    OnePage(bars);
    PageOfDistinctTimes(bars, m);
  }

  lemma {:induction false} PageOfDistinctTimes(bars: seq<Bar>, m: map<int, Bar>)
    requires StrictlyIncreasing(Times(bars))
    requires (set b | b in bars :: b.time) == m.Keys
    requires forall b :: b in bars ==> SameApartFromComplete(b, m[b.time])
    ensures Alike(AddPage(map[], bars), m)
  {
    DistinctPage(bars);
    var one := AddPage(map[], bars);
    forall t | t in m ensures t in one && SameApartFromComplete(one[t], m[t]) {
      var b :| b in bars && b.time == t;
      var i :| 0 <= i < |bars| && bars[i] == b;
      assert one[t] == bars[i];
    }
  }

  /** Merging in two halves and merging the halves gives the same bars as merging once. */
  lemma {:induction false} MergeOfMerges(p: seq<seq<Bar>>, q: seq<seq<Bar>>)
    ensures Merge([Merge(p), Merge(q)]) == Merge(p + q)
  {
    FirstSeenAppend(p, q);
    FirstSeenAppend([Merge(p)], [Merge(q)]);
    assert [Merge(p)] + [Merge(q)] == [Merge(p), Merge(q)];
    MergeAsPage(p);
    MergeAsPage(q);
    PreferAlike(FirstSeen([Merge(p)]), FirstSeen([Merge(q)]), FirstSeen(p), FirstSeen(q));
    AlikeMerge(FirstSeen([Merge(p), Merge(q)]), FirstSeen(p + q));
  }

  // ---- Finishing the last bar of a closed session ----

  /** The bar starts the session's terminal slot, and it was fetched after close plus the provider delay. */
  predicate ProvenTerminal(b: Bar, sessionOpen: int, sessionClose: int) {
    && sessionOpen < sessionClose
    && !b.content.isComplete
    && b.delayedByMinutes.Some? && 0 <= b.delayedByMinutes.value
    && b.time == sessionOpen + 3600 * ((sessionClose - sessionOpen - 1) / 3600)
    && sessionClose + 60 * b.delayedByMinutes.value <= b.retrievedAt
  }

  /** `at` is the first row with the latest time. */
  ghost predicate IsLatest(bars: seq<Bar>, at: int) {
    && 0 <= at < |bars|
    && (forall i :: 0 <= i < |bars| ==> bars[i].time <= bars[at].time)
    && (forall i :: 0 <= i < at ==> bars[i].time < bars[at].time)
  }

  lemma {:induction false} LatestIsUnique(bars: seq<Bar>, a: int, b: int)
    requires IsLatest(bars, a) && IsLatest(bars, b)
    ensures a == b
  {
    var x, y := bars[a], bars[b];
    assert x.time == y.time;
  }

  method LatestIndex(bars: seq<Bar>) returns (latest: nat)
    requires bars != []
    ensures IsLatest(bars, latest)
  {
    latest := 0;
    for i := 1 to |bars|
      invariant 0 <= latest < i
      invariant forall j :: 0 <= j < i ==> bars[j].time <= bars[latest].time
      invariant forall j :: 0 <= j < latest ==> bars[j].time < bars[latest].time
    {
      if bars[latest].time < bars[i].time {
        latest := i;
      }
    }
  }

  function Finished(bars: seq<Bar>, at: int, sessionOpen: int, sessionClose: int): seq<Bar>
    requires 0 <= at < |bars|
  {
    if ProvenTerminal(bars[at], sessionOpen, sessionClose) then bars[at := WithComplete(bars[at], true)] else bars
  }

  /** Only the latest row can change, only from open to complete, and only on full evidence. */
  method MarkTerminalSessionBarComplete(bars: seq<Bar>, sessionOpen: int, sessionClose: int) returns (r: seq<Bar>)
    ensures bars == [] ==> r == []
    ensures forall at :: IsLatest(bars, at) ==> r == Finished(bars, at, sessionOpen, sessionClose)
  {
    hide IsLatest;
    r := bars;
    if r == [] {
      assert forall at :: !IsLatest(bars, at) by { NoLatest(bars); }
      return;
    }
    var latestIndex := LatestIndex(bars);
    forall at | IsLatest(bars, at) ensures at == latestIndex {
      LatestIsUnique(bars, at, latestIndex);
    }
    IndexOfLatest(bars, latestIndex);
    r := FinishAt(bars, latestIndex, sessionOpen, sessionClose);
  }

  lemma {:induction false} NoLatest(bars: seq<Bar>)
    requires bars == []
    ensures forall at :: !IsLatest(bars, at)
  {
  }

  lemma {:induction false} IndexOfLatest(bars: seq<Bar>, at: int)
    requires IsLatest(bars, at)
    ensures 0 <= at < |bars|
  {
  }

  method FinishAt(bars: seq<Bar>, latestIndex: nat, sessionOpen: int, sessionClose: int) returns (r: seq<Bar>)
    requires latestIndex < |bars|
    ensures r == Finished(bars, latestIndex, sessionOpen, sessionClose)
  {
    r := bars;
    var duration := sessionClose - sessionOpen;
    if duration <= 0 {
      return;
    }
    var latest := r[latestIndex];
    if latest.content.isComplete || latest.delayedByMinutes.None? {
      return;
    }
    if latest.delayedByMinutes.value < 0 {
      return;
    }
    var terminalSlotIndex := (duration - 1) / 3600;
    if latest.time != sessionOpen + 3600 * terminalSlotIndex {
      return;
    }
    if latest.retrievedAt < sessionClose + 60 * latest.delayedByMinutes.value {
      return;
    }
    r := r[latestIndex := WithComplete(latest, true)];
  }

  /** What finishing needs: an open latest row that is the session's last started hour, seen when the delay was over. */
  predicate MayFinish(b: Bar, sessionOpen: int, sessionClose: int) {
    && sessionOpen < sessionClose && !b.content.isComplete
    && b.delayedByMinutes.Some? && b.delayedByMinutes.value >= 0
    && WholeHours(b.time - sessionOpen) && b.time < sessionClose <= b.time + 3600
    && b.retrievedAt - sessionClose >= 60 * b.delayedByMinutes.value
  }

  predicate WholeHours(seconds: int) { seconds % 3600 == 0 }

  /** Exactly which rows are finished, and what changes: the latest row of those alone, from open to complete. */
  lemma {:induction false} FinishedExactly(bars: seq<Bar>, at: int, sessionOpen: int, sessionClose: int)
    requires 0 <= at < |bars|
    ensures var r := Finished(bars, at, sessionOpen, sessionClose);
      && |r| == |bars| && (forall i :: 0 <= i < |bars| && i != at ==> r[i] == bars[i])
      && r[at].(content := bars[at].content) == bars[at]
      && r[at].content.(isComplete := bars[at].content.isComplete) == bars[at].content
      && (r[at].content.isComplete <==> bars[at].content.isComplete || MayFinish(bars[at], sessionOpen, sessionClose))
  {
    if MayFinish(bars[at], sessionOpen, sessionClose) {
      LastStartedHour(sessionOpen, sessionClose, (bars[at].time - sessionOpen) / 3600);
    }
  }

  lemma {:induction false} LastStartedHour(sessionOpen: int, sessionClose: int, hours: int)
    requires sessionOpen + 3600 * hours < sessionClose <= sessionOpen + 3600 * hours + 3600
    ensures (sessionClose - sessionOpen - 1) / 3600 == hours
  {
  }

  /** The bar finished here is the one the derived tables count as the session's last slot. */
  lemma {:induction false} FinishedBarIsTheLastSlot(b: Bar, sessionOpen: int, sessionClose: int)
    requires ProvenTerminal(b, sessionOpen, sessionClose)
    ensures var d := (sessionClose - sessionOpen) * Slots.SECOND;
      b.time == sessionOpen + 3600 * (Slots.SlotCount(d) - 1)
    ensures sessionOpen <= b.time < sessionClose <= b.time + 3600
  {
  }

  // ---- FX quotes: acceptance, quarantine, rejection ----

  /** A parsed FX sample: both quote sides of one hour. */
  datatype FxSample = FxSample(time: int, bid: Ohlc, ask: Ohlc, volume: Option<real>, tradingState: Option<string>)

  datatype Field = OpenField | HighField | LowField | CloseField

  datatype BarError = NonpositiveOhlc | OhlcViolation | FxBidAboveAsk(fields: seq<Field>)

  function Check(o: Ohlc): Option<BarError> {
    if o.open <= 0.0 || o.high <= 0.0 || o.low <= 0.0 || o.close <= 0.0 then Some(NonpositiveOhlc)
    else if o.Valid() then None
    else Some(OhlcViolation)
  }

  function Mid(bid: Ohlc, ask: Ohlc): Ohlc {
    Ohlc((bid.open + ask.open) / 2.0, (bid.high + ask.high) / 2.0,
         (bid.low + ask.low) / 2.0, (bid.close + ask.close) / 2.0)
  }

  function Crossed(s: FxSample): seq<Field> {
    (if s.bid.open > s.ask.open then [OpenField] else [])
    + (if s.bid.high > s.ask.high then [HighField] else [])
    + (if s.bid.low > s.ask.low then [LowField] else [])
    + (if s.bid.close > s.ask.close then [CloseField] else [])
  }

  function AllSides(o: Ohlc): Side { Side(Some(o.open), Some(o.high), Some(o.low), Some(o.close)) }

  datatype Provenance = Provenance(dataVersion: Option<int>, delayedByMinutes: Option<int>, retrievedAt: int,
      payload: string)

  /** Checks run in this order: bid, ask, mid, and only then crossing. */
  function NormalizeFx(s: FxSample, from: Provenance): Result<Bar, BarError> {
    var mid := Mid(s.bid, s.ask);
    if Check(s.bid).Some? then Err(Check(s.bid).value)
    else if Check(s.ask).Some? then Err(Check(s.ask).value)
    else if Check(mid).Some? then Err(Check(mid).value)
    else if Crossed(s) != [] then Err(FxBidAboveAsk(Crossed(s)))
    else Ok(Bar(s.time,
      Content(mid, AllSides(s.bid), AllSides(s.ask), s.volume, s.tradingState, true),
      BidAskMid, from.dataVersion, from.delayedByMinutes, from.retrievedAt, from.payload))
  }

  predicate Uncrossed(s: FxSample) {
    s.bid.open <= s.ask.open && s.bid.high <= s.ask.high && s.bid.low <= s.ask.low && s.bid.close <= s.ask.close
  }

  /** Crossed only in the extremes of the hour, with both sides valid: the only rows that may be set aside. */
  predicate Quarantinable(s: FxSample) {
    && s.bid.Valid() && s.ask.Valid() && !Uncrossed(s)
    && s.bid.open <= s.ask.open && s.bid.close <= s.ask.close
  }

  predicate Fatal(s: FxSample) { !(s.bid.Valid() && s.ask.Valid() && Uncrossed(s)) && !Quarantinable(s) }

  /** What happens to a sample depends on its quotes alone, and in one way only. */
  lemma {:induction false} FxClassification(s: FxSample, from: Provenance)
    ensures var r := NormalizeFx(s, from);
      && (r.Ok? <==> s.bid.Valid() && s.ask.Valid() && Uncrossed(s))
      && (r.Ok? ==> r.value.content.ohlc.Valid() && r.value.time == s.time)
      && (r.Err? && r.error.FxBidAboveAsk? && OpenField !in r.error.fields && CloseField !in r.error.fields
          <==> Quarantinable(s))
  {
  }

  predicate Between(price: real, bid: real, ask: real) { price - bid == ask - price }

  /** Every stored price is as far from the bid as from the ask; both sides and all else are the sample's. */
  predicate IsMidBar(b: Bar, s: FxSample, from: Provenance) {
    && b.time == s.time && b.basis == BidAskMid && b.content.isComplete
    && Between(b.content.ohlc.open, s.bid.open, s.ask.open) && Between(b.content.ohlc.high, s.bid.high, s.ask.high)
    && Between(b.content.ohlc.low, s.bid.low, s.ask.low) && Between(b.content.ohlc.close, s.bid.close, s.ask.close)
    && IsSide(b.content.bid, s.bid) && IsSide(b.content.ask, s.ask)
    && b.content.volume == s.volume && b.content.tradingState == s.tradingState
    && b.dataVersion == from.dataVersion && b.delayedByMinutes == from.delayedByMinutes
    && b.retrievedAt == from.retrievedAt && b.payload == from.payload
  }

  predicate IsSide(side: Side, quotes: Ohlc) {
    && side.open == Some(quotes.open) && side.high == Some(quotes.high)
    && side.low == Some(quotes.low) && side.close == Some(quotes.close)
  }

  /** An accepted sample becomes the bar between its quotes. */
  lemma {:induction false} FxPricesAreMid(s: FxSample, from: Provenance)
    ensures var r := NormalizeFx(s, from);
      r.Ok? ==> IsMidBar(r.value, s, from)
  {
  }

  predicate Positive(o: Ohlc) { 0.0 < o.open && 0.0 < o.high && 0.0 < o.low && 0.0 < o.close }

  /** Why a sample is refused: the bid is checked before the ask, and only valid quotes can be found crossed. */
  lemma {:induction false} FxErrors(s: FxSample, from: Provenance)
    ensures var r := NormalizeFx(s, from);
      && (r == Err(NonpositiveOhlc) <==> !Positive(s.bid) || (s.bid.Valid() && !Positive(s.ask)))
      && (r == Err(OhlcViolation) <==>
            (Positive(s.bid) && !s.bid.Valid()) || (s.bid.Valid() && Positive(s.ask) && !s.ask.Valid()))
      && (r.Err? && r.error.FxBidAboveAsk? ==>
            && (OpenField in r.error.fields <==> s.bid.open > s.ask.open)
            && (HighField in r.error.fields <==> s.bid.high > s.ask.high)
            && (LowField in r.error.fields <==> s.bid.low > s.ask.low)
            && (CloseField in r.error.fields <==> s.bid.close > s.ask.close))
  {
  }

  function AcceptedOf(samples: seq<FxSample>, from: Provenance): seq<Bar> {
    if samples == [] then []
    else
      var n := |samples| - 1;
      AcceptedOf(samples[..n], from)
        + match NormalizeFx(samples[n], from) { case Ok(b) => [b] case Err(_) => [] }
  }

  function RejectedOf(samples: seq<FxSample>): seq<FxSample> {
    if samples == [] then []
    else
      var n := |samples| - 1;
      RejectedOf(samples[..n]) + if Quarantinable(samples[n]) then [samples[n]] else []
  }

  /**
   The page is refused when any sample is fatal; otherwise every sample is either accepted unchanged or
   set aside unchanged, in the order given.
   */
  method NormalizeQuarantiningFxExtrema(samples: seq<FxSample>, from: Provenance)
    returns (r: Result<(seq<Bar>, seq<FxSample>), BarError>)
    ensures r.Err? <==> exists i :: 0 <= i < |samples| && Fatal(samples[i])
    ensures r.Ok? ==> r.value == (AcceptedOf(samples, from), RejectedOf(samples))
  {
    hide NormalizeFx, Quarantinable, Uncrossed;
    var accepted: seq<Bar> := [];
    var rejected: seq<FxSample> := [];
    for i := 0 to |samples|
      invariant forall j :: 0 <= j < i ==> !Fatal(samples[j])
      invariant accepted == AcceptedOf(samples[..i], from)
      invariant rejected == RejectedOf(samples[..i])
    {
      FxClassification(samples[i], from);
      assert samples[..i + 1][..i] == samples[..i];
      match NormalizeFx(samples[i], from)
      case Ok(b) =>
        accepted := accepted + [b];
      case Err(e) =>
        if !e.FxBidAboveAsk? || OpenField in e.fields || CloseField in e.fields {
          return Err(e);
        }
        rejected := rejected + [samples[i]];
    }
    assert samples[..|samples|] == samples;
    r := Ok((accepted, rejected));
  }

  predicate Fits(s: FxSample) { s.bid.Valid() && s.ask.Valid() && Uncrossed(s) }

  /** The accepted bars are those of the fitting samples, in order and each once. */
  lemma {:induction false} AcceptedAreMid(samples: seq<FxSample>, from: Provenance) returns (at: seq<int>)
    ensures var bars := AcceptedOf(samples, from);
      && |at| == |bars| && StrictlyIncreasing(at)
      && (forall i :: 0 <= i < |at| ==>
            0 <= at[i] < |samples| && Fits(samples[at[i]]) && IsMidBar(bars[i], samples[at[i]], from))
      && (forall k :: 0 <= k < |samples| && Fits(samples[k]) ==> k in at)
  {
    if samples == [] {
      at := [];
    } else {
      hide NormalizeFx, Fits, IsMidBar;
      var n := |samples| - 1;
      at := AcceptedAreMid(samples[..n], from);
      FxClassification(samples[n], from);
      FxPricesAreMid(samples[n], from);
      FitsIs(samples[n]);
      var before := at;
      if Fits(samples[n]) {
        at := before + [n];
      }
      forall k | 0 <= k < |samples| && Fits(samples[k]) ensures k in at {
        assert k < n ==> samples[..n][k] == samples[k] && k in before;
      }
    }
  }

  lemma {:induction false} FitsIs(s: FxSample)
    ensures Fits(s) <==> s.bid.Valid() && s.ask.Valid() && Uncrossed(s)
  {
  }

  /** The rows set aside are the samples crossed only in their extremes, in order and each once. */
  lemma {:induction false} RejectedAreCrossed(samples: seq<FxSample>) returns (at: seq<int>)
    ensures var rejected := RejectedOf(samples);
      && |at| == |rejected| && StrictlyIncreasing(at)
      && (forall i :: 0 <= i < |at| ==>
            0 <= at[i] < |samples| && rejected[i] == samples[at[i]] && Quarantinable(samples[at[i]]))
      && (forall k :: 0 <= k < |samples| && Quarantinable(samples[k]) ==> k in at)
  {
    if samples == [] {
      at := [];
    } else {
      hide Quarantinable;
      var n := |samples| - 1;
      var before := RejectedAreCrossed(samples[..n]);
      at := before;
      if Quarantinable(samples[n]) {
        at := before + [n];
        assert RejectedOf(samples) == RejectedOf(samples[..n]) + [samples[n]];
      } else {
        assert RejectedOf(samples) == RejectedOf(samples[..n]);
      }
      forall k | 0 <= k < |samples| && Quarantinable(samples[k]) ensures k in at {
        assert k < n ==> samples[..n][k] == samples[k] && k in before;
      }
    }
  }

  /** No sample is lost and none is counted twice. */
  lemma {:induction false} QuarantinePartitions(samples: seq<FxSample>, from: Provenance)
    requires forall i :: 0 <= i < |samples| ==> !Fatal(samples[i])
    ensures |AcceptedOf(samples, from)| + |RejectedOf(samples)| == |samples|
    ensures forall b :: b in AcceptedOf(samples, from) ==> b.content.ohlc.Valid()
    ensures forall s :: s in RejectedOf(samples) ==> s in samples
  {
    if samples != [] {
      QuarantinePartitions(samples[..|samples| - 1], from);
      FxClassification(samples[|samples| - 1], from);
    }
  }
}
