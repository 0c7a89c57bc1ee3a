/** What every stored 4-hour and daily bar says about the accepted hourly rows, told row by row. */
module DerivedBars {
  import opened Sets
  import opened Types
  import opened Derive
  import opened Store
  import RollUp
  import StoreLaws

  // ---- The rows a bar is made of ----

  /** An accepted, complete hourly row of a session that holds it, a whole number of hours after its opening. */
  ghost predicate Feeds(curated: Curated, catalog: Catalog, j: Joined) {
    && j.key in curated && j.row == curated[j.key] && j.row.content.isComplete && j.row.quality == QualityPass
    && j.key.inst in catalog && j.interval in catalog[j.key.inst].intervals
    && j.interval.Trading? && j.interval.opening <= j.key.time < j.interval.closing
    && exists hours :: j.key.time == j.interval.opening + Hours(hours)
  }

  function Hours(n: int): int { 3600 * n }

  /** A session of `slots` started hours. */
  predicate HasSlots(iv: Interval, slots: int) {
    iv.Trading? && iv.opening + 3600 * (slots - 1) < iv.closing <= iv.opening + 3600 * slots
  }

  /** The rows of four hours from `at`, in the sessions that open at `opening` and have so many slots. */
  ghost predicate InFourHours(curated: Curated, catalog: Catalog, b: Derived, opening: int, slots: int, j: Joined) {
    && Feeds(curated, catalog, j) && j.key.inst == b.inst && j.key.basis == b.basis
    && j.interval.opening == opening && HasSlots(j.interval, slots)
    && b.at <= j.key.time < b.at + 4 * 3600
  }

  /** The rows of a date, in its sessions that have so many slots. */
  ghost predicate InDay(curated: Curated, catalog: Catalog, b: Derived, slots: int, j: Joined) {
    && Feeds(curated, catalog, j) && j.key.inst == b.inst && j.key.basis == b.basis
    && j.interval.date == b.at && HasSlots(j.interval, slots)
  }

  // ---- What the bar says of them ----

  predicate Earliest(j: Joined, rows: set<Joined>) { forall k :: k in rows ==> j.key.time <= k.key.time }

  predicate Latest(j: Joined, rows: set<Joined>) { forall k :: k in rows ==> k.key.time <= j.key.time }

  /** The open is that of an earliest row and the close that of a latest one; high and low bound all and are met. */
  ghost predicate Prices(o: Ohlc, rows: set<Joined>) {
    && (exists j :: j in rows && Earliest(j, rows) && o.open == j.row.content.ohlc.open)
    && (exists j :: j in rows && Latest(j, rows) && o.close == j.row.content.ohlc.close)
    && (forall j :: j in rows ==> j.row.content.ohlc.high <= o.high && o.low <= j.row.content.ohlc.low)
    && (exists j :: j in rows && j.row.content.ohlc.high == o.high)
    && (exists j :: j in rows && j.row.content.ohlc.low == o.low)
  }

  ghost predicate RunsOf(b: Derived, rows: set<Joined>) {
    && (forall j :: j in rows ==> b.firstRun <= j.row.run <= b.lastRun)
    && (exists j :: j in rows && j.row.run == b.firstRun)
    && (exists j :: j in rows && j.row.run == b.lastRun)
  }

  /** Complete when every expected slot has a row; only then of quality PASS, and evaluated unless marked otherwise. */
  predicate Quality(b: Derived, found: int, expected: int, verification: Option<string>) {
    && (b.complete <==> found == expected)
    && (b.quality == NotEvaluated <==> verification.Some? && verification.value != "VERIFIED")
    && (b.quality == QualityPass <==> b.quality != NotEvaluated && found == expected)
    && (b.quality == QualityWarn <==> b.quality != NotEvaluated && found != expected)
  }

  /** The volumes of listed rows, added up: rows without a volume count for nothing. */
  function Added(listing: seq<Joined>): Option<real> {
    if listing == [] then None
    else
      var n := |listing| - 1;
      var before, last := Added(listing[..n]), listing[n].row.content.volume;
      if before.None? then last else if last.None? then before else Some(before.value + last.value)
  }

  ghost predicate Lists(listing: seq<Joined>, rows: set<Joined>) {
    && (forall j :: j in listing <==> j in rows)
    && (forall i, k :: 0 <= i < k < |listing| ==> listing[i] != listing[k])
  }

  ghost predicate Volume(v: Option<real>, rows: set<Joined>) {
    exists listing :: Lists(listing, rows) && v == Added(listing)
  }

  ghost predicate Summarises(b: Derived, rows: set<Joined>, expected: int, verification: Option<string>) {
    rows != {} && Prices(b.ohlc, rows) && RunsOf(b, rows) && Volume(b.volume, rows)
    && Quality(b, |rows|, expected, verification)
  }

  /** A 4-hour bar starts a whole number of times four hours after its session and expects what is left, up to four. */
  ghost predicate IsFourHourBar(curated: Curated, catalog: Catalog, b: Derived, rows: set<Joined>, opening: int,
      slots: int, n: int)
  {
    && b.at == opening + 4 * 3600 * n
    && (forall j :: j in rows <==> InFourHours(curated, catalog, b, opening, slots, j))
    && b.inst in catalog
    && Summarises(b, rows, if slots < 4 * n + 4 then slots - 4 * n else 4, catalog[b.inst].verification)
  }

  ghost predicate IsDailyBar(curated: Curated, catalog: Catalog, b: Derived, rows: set<Joined>, slots: int) {
    && (forall j :: j in rows <==> InDay(curated, catalog, b, slots, j))
    && b.inst in catalog
    && Summarises(b, rows, slots, catalog[b.inst].verification)
  }

  // ---- Volumes ----

  lemma {:induction false} Listed(rows: set<Joined>) returns (listing: seq<Joined>)
    ensures Lists(listing, rows)
  {
    if rows == {} {
      listing := [];
    } else {
      var j := Member(rows);
      var rest := Listed(rows - {j});
      listing := rest + [j];
    }
  }

  lemma {:induction false} OneRowVolume(j: Joined)
    ensures OneSeries({j}) && OneSeries({}) && SumVolume({}) == None && SumVolume({j}) == j.row.content.volume
  {
    assert TimesIn({j}) == {j.key.time};
    assert Min(TimesIn({j})) == j.key.time;
    assert RowsAt({j}, j.key.time) == {j};
    assert {j} - {j} == {};
    RollUp.VolumeStep({j}, j.key.time, {j});
  }

  function Times(x: real, y: real): real { x * y }

  lemma {:induction false} OneMoreTime(x: real, y: real)
    ensures Times(x + 1.0, y) == Times(x, y) + y && Times(1.0, y) == y
  {
  }

  lemma {:induction false} ScaleIs(n: nat, y: real)
    ensures Scale(n, Some(y)).Some? && Scale(n, Some(y)).value == Times(n as real, y)
  {
  }

  lemma {:induction false} ScaleStep(n: nat, v: Option<real>)
    ensures Scale(n + 1, v) == if n == 0 then v else AddVolume(Scale(n, v), v)
  {
    if v.Some? {
      hide Scale, Times;
      ScaleIs(n, v.value);
      ScaleIs(n + 1, v.value);
      OneMoreTime(n as real, v.value);
      assert (n + 1) as real == n as real + 1.0;
    }
  }

  lemma {:induction false} NothingAdded(v: Option<real>)
    ensures AddVolume(None, v) == v
  {
  }

  lemma {:induction false} AddCommutes(a: Option<real>, b: Option<real>, c: Option<real>)
    ensures AddVolume(a, b) == AddVolume(b, a)
    ensures AddVolume(AddVolume(a, b), c) == AddVolume(a, AddVolume(b, c))
  {
  }

  /** One row more adds its volume, wherever in time it lies. */
  lemma {:induction false} OneRowMore(rows: set<Joined>, j: Joined)
    requires OneSeries(rows + {j}) && j !in rows
    ensures OneSeries(rows) && SumVolume(rows + {j}) == AddVolume(SumVolume(rows), j.row.content.volume)
    decreases |rows|
  {
    hide SumVolume, OneSeries, AddVolume;
    RollUp.PartIsOneSeries(rows + {j}, rows);
    if rows == {} {
      OneRowVolume(j);
      assert rows + {j} == {j};
      NothingAdded(j.row.content.volume);
    } else if forall k :: k in rows ==> j.key.time < k.key.time {
      OneRowVolume(j);
      RollUp.VolumeSplits({j}, rows);
      assert {j} + rows == rows + {j};
      AddCommutes(SumVolume({j}), SumVolume(rows), None);
    } else {
      SomeTime(rows);
      var t := Min(TimesIn(rows));
      var here := RowsAt(rows, t);
      FewerRows(rows, here);
      LeastStays(rows, j);
      SomeHere(rows, t);
      if j.key.time == t {
        OneRowBeside(rows, j, t, here);
      } else {
        RollUp.PartIsOneSeries(rows + {j}, (rows - here) + {j});
        OneRowMore(rows - here, j);
        OneRowLater(rows, j, t, here);
      }
    }
  }

  lemma {:induction false} OneRowBeside(rows: set<Joined>, j: Joined, t: int, here: set<Joined>)
    requires OneSeries(rows + {j}) && OneSeries(rows) && j !in rows && rows != {} && TimesIn(rows) != {}
    requires t == Min(TimesIn(rows)) && here == RowsAt(rows, t) && here != {} && j.key.time == t
    requires TimesIn(rows + {j}) != {} && Min(TimesIn(rows + {j})) == t
    ensures SumVolume(rows + {j}) == AddVolume(SumVolume(rows), j.row.content.volume)
  {
    hide SumVolume, AddVolume, Scale, OneSeries;
    var v := j.row.content.volume;
    RollUp.VolumeStep(rows, t, here);
    assert RowsAt(rows + {j}, t) == here + {j};
    RollUp.VolumeStep(rows + {j}, t, here + {j});
    assert (rows + {j}) - (here + {j}) == rows - here;
    RollUp.SameRowAt(rows, rows + {j}, t);
    assert RowAt(rows + {j}, t) == j.row;
    ScaleStep(|here|, v);
    AddCommutes(Scale(|here|, v), v, SumVolume(rows - here));
    AddCommutes(v, SumVolume(rows - here), None);
    AddCommutes(Scale(|here|, v), SumVolume(rows - here), v);
  }

  lemma {:induction false} OneRowLater(rows: set<Joined>, j: Joined, t: int, here: set<Joined>)
    requires OneSeries(rows + {j}) && OneSeries(rows) && j !in rows && rows != {} && TimesIn(rows) != {}
    requires t == Min(TimesIn(rows)) && here == RowsAt(rows, t) && j.key.time != t
    requires TimesIn(rows + {j}) != {} && Min(TimesIn(rows + {j})) == t
    requires OneSeries(rows - here) && OneSeries((rows - here) + {j})
    requires SumVolume((rows - here) + {j}) == AddVolume(SumVolume(rows - here), j.row.content.volume)
    ensures SumVolume(rows + {j}) == AddVolume(SumVolume(rows), j.row.content.volume)
  {
    hide SumVolume, AddVolume, Scale, OneSeries;
    RollUp.VolumeStep(rows, t, here);
    assert RowsAt(rows + {j}, t) == here;
    RollUp.VolumeStep(rows + {j}, t, here);
    assert (rows + {j}) - here == (rows - here) + {j};
    RollUp.SameRowAt(rows, rows + {j}, t);
    AddCommutes(Scale(|here|, RowAt(rows, t).content.volume), SumVolume(rows - here), j.row.content.volume);
  }

  lemma {:induction false} LeastStays(rows: set<Joined>, j: Joined)
    requires rows != {} && TimesIn(rows) != {} && exists k :: k in rows && k.key.time <= j.key.time
    ensures TimesIn(rows + {j}) != {} && Min(TimesIn(rows + {j})) == Min(TimesIn(rows))
  {
    var k :| k in rows && k.key.time <= j.key.time;
    assert k.key.time in TimesIn(rows);
    assert TimesIn(rows + {j}) == TimesIn(rows) + {j.key.time};
  }

  lemma {:induction false} SomeHere(rows: set<Joined>, t: int)
    requires t in TimesIn(rows)
    ensures |RowsAt(rows, t)| > 0
  {
    var j :| j in rows && j.key.time == t;
    assert j in RowsAt(rows, t);
  }

  /** The volume of a bar is the sum over any listing of its rows. */
  lemma {:induction false} AddedIsTheSum(listing: seq<Joined>, rows: set<Joined>)
    requires OneSeries(rows) && Lists(listing, rows)
    ensures Added(listing) == SumVolume(rows)
  {
    hide SumVolume, OneSeries, Lists;
    if listing == [] {
      NothingListed(rows);
    } else {
      var n := |listing| - 1;
      var rest := rows - {listing[n]};
      ListsRest(listing, rows);
      RollUp.PartIsOneSeries(rows, rest);
      AddedIsTheSum(listing[..n], rest);
      assert rest + {listing[n]} == rows;
      OneRowMore(rest, listing[n]);
    }
  }

  lemma {:induction false} NothingListed(rows: set<Joined>)
    requires OneSeries(rows) && Lists([], rows)
    ensures SumVolume(rows) == None
  {
    assert rows == {};
  }

  lemma {:induction false} ListsRest(listing: seq<Joined>, rows: set<Joined>)
    requires listing != [] && Lists(listing, rows)
    ensures Lists(listing[..|listing| - 1], rows - {listing[|listing| - 1]}) && listing[|listing| - 1] in rows
  {
    var n := |listing| - 1;
    assert listing == listing[..n] + [listing[n]];
  }

  // ---- One bar ----

  lemma {:induction false} AggregatePrices(g: Group, rows: set<Joined>, v: Option<string>)
    requires rows != {} && OneSeries(rows)
    ensures Prices(Aggregate(g, rows, v).ohlc, rows)
  {
    SomeOfEach(rows);
    var first :| first in rows && first.key.time == Min(TimesIn(rows));
    var last :| last in rows && last.key.time == Max(TimesIn(rows));
    var high :| high in rows && high.row.content.ohlc.high == Greatest(Highs(rows));
    var low :| low in rows && low.row.content.ohlc.low == Least(Lows(rows));
    forall j | j in rows
      ensures first.key.time <= j.key.time <= last.key.time
      ensures j.row.content.ohlc.high <= Greatest(Highs(rows)) && Least(Lows(rows)) <= j.row.content.ohlc.low
    {
      RollUp.TimesBound(rows, j);
      assert j.row.content.ohlc.high in Highs(rows) && j.row.content.ohlc.low in Lows(rows);
    }
    assert Earliest(first, rows) && Latest(last, rows);
  }

  lemma {:induction false} AggregateRuns(g: Group, rows: set<Joined>, v: Option<string>)
    requires rows != {} && OneSeries(rows)
    ensures RunsOf(Aggregate(g, rows, v), rows)
  {
    SomeOfEach(rows);
    var first :| first in rows && first.row.run == Min(Runs(rows));
    var last :| last in rows && last.row.run == Max(Runs(rows));
    forall j | j in rows ensures Min(Runs(rows)) <= j.row.run <= Max(Runs(rows)) {
      assert j.row.run in Runs(rows);
    }
  }

  /** The stored bar of a group summarises its rows. */
  lemma {:induction false} AggregateSummarises(g: Group, rows: set<Joined>, v: Option<string>, expected: int)
    requires rows != {} && OneSeries(rows) && expected == ExpectedSlots(g.part)
    ensures var b := Aggregate(g, rows, v);
      Summarises(b, rows, expected, v) && b.inst == g.inst && b.basis == g.basis && b.at == At(g.part)
  {
    hide Prices, RunsOf, Volume, Quality, Aggregate;
    AggregatePrices(g, rows, v);
    AggregateRuns(g, rows, v);
    AggregateCounts(g, rows, v);
    var listing := Listed(rows);
    AddedIsTheSum(listing, rows);
    SumIsVolume(listing, rows);
  }

  lemma {:induction false} SumIsVolume(listing: seq<Joined>, rows: set<Joined>)
    requires OneSeries(rows) && Lists(listing, rows) && Added(listing) == SumVolume(rows)
    ensures Volume(SumVolume(rows), rows)
  {
  }

  lemma {:induction false} AggregateCounts(g: Group, rows: set<Joined>, v: Option<string>)
    requires rows != {} && OneSeries(rows)
    ensures var b := Aggregate(g, rows, v);
      && b.inst == g.inst && b.basis == g.basis && b.at == At(g.part) && b.volume == SumVolume(rows)
      && Quality(b, |rows|, ExpectedSlots(g.part), v)
  {
  }

  /** Nothing is left open: two bars of one place that summarise the same rows are the same bar. */
  lemma {:induction false} SummaryIsUnique(b: Derived, c: Derived, rows: set<Joined>, expected: int, v: Option<string>)
    requires OneSeries(rows) && Summarises(b, rows, expected, v) && Summarises(c, rows, expected, v)
    requires b.inst == c.inst && b.at == c.at && b.basis == c.basis
    ensures b == c
  {
    hide Prices, RunsOf, Volume;
    SamePrices(b.ohlc, c.ohlc, rows);
    SameRuns(b, c, rows);
    SameVolume(b.volume, c.volume, rows);
  }

  lemma {:induction false} SamePrices(o: Ohlc, p: Ohlc, rows: set<Joined>)
    requires OneSeries(rows) && Prices(o, rows) && Prices(p, rows)
    ensures o == p
  {
  }

  lemma {:induction false} SameRuns(b: Derived, c: Derived, rows: set<Joined>)
    requires RunsOf(b, rows) && RunsOf(c, rows)
    ensures b.firstRun == c.firstRun && b.lastRun == c.lastRun
  {
  }

  lemma {:induction false} SameVolume(v: Option<real>, w: Option<real>, rows: set<Joined>)
    requires OneSeries(rows) && Volume(v, rows) && Volume(w, rows)
    ensures v == w
  {
    var l :| Lists(l, rows) && v == Added(l);
    var m :| Lists(m, rows) && w == Added(m);
    AddedIsTheSum(l, rows);
    AddedIsTheSum(m, rows);
  }

  // ---- The groups ----

  lemma {:induction false} JoinedRowsFeed(curated: Curated, catalog: Catalog, j: Joined)
    ensures j in Join(curated, catalog, AllInstruments) <==> Feeds(curated, catalog, j)
  {
    if j in Join(curated, catalog, AllInstruments) {
      var n := (j.key.time - j.interval.opening) / 3600;
      assert j.key.time == j.interval.opening + Hours(n);
    }
    if Feeds(curated, catalog, j) {
      var n :| j.key.time == j.interval.opening + Hours(n);
      assert Eligible(j.key, curated[j.key], j.interval);
    }
  }

  lemma {:induction false} SlotsAreStartedHours(iv: Interval, slots: int)
    ensures HasSlots(iv, slots) <==> iv.Trading? && SlotsOf(iv) == slots
  {
  }

  lemma {:induction false} FourHourMembers(curated: Curated, catalog: Catalog, b: Derived, opening: int, slots: int,
      n: int)
    requires b.at == opening + 14400 * n
    ensures var rows, g := Join(curated, catalog, AllInstruments), Group(b.inst, b.basis, Bucket(opening, n, slots));
      Trade(rows) && forall j :: j in Members(FourHours, rows, g) <==>
          InFourHours(curated, catalog, b, opening, slots, j)
  {
    hide Feeds, HasSlots, SlotsOf;
    JoinShape(curated, catalog, AllInstruments);
    var rows, g := Join(curated, catalog, AllInstruments), Group(b.inst, b.basis, Bucket(opening, n, slots));
    forall j ensures j in Members(FourHours, rows, g) <==> InFourHours(curated, catalog, b, opening, slots, j) {
      JoinedRowsFeed(curated, catalog, j);
      SlotsAreStartedHours(j.interval, slots);
    }
  }

  lemma {:induction false} DayMembers(curated: Curated, catalog: Catalog, b: Derived, slots: int)
    ensures var rows, g := Join(curated, catalog, AllInstruments), Group(b.inst, b.basis, Day(b.at, slots));
      Trade(rows) && forall j :: j in Members(Days, rows, g) <==> InDay(curated, catalog, b, slots, j)
  {
    hide Feeds, HasSlots, SlotsOf;
    JoinShape(curated, catalog, AllInstruments);
    var rows, g := Join(curated, catalog, AllInstruments), Group(b.inst, b.basis, Day(b.at, slots));
    forall j ensures j in Members(Days, rows, g) <==> InDay(curated, catalog, b, slots, j) {
      JoinedRowsFeed(curated, catalog, j);
      SlotsAreStartedHours(j.interval, slots);
    }
  }

  /** A group's bar, described by its rows. */
  lemma {:induction false} GroupIsSummarised(level: Level, curated: Curated, catalog: Catalog, g: Group)
    requires JoinHas(level, curated, catalog, g)
    ensures var rows := Join(curated, catalog, AllInstruments);
      && Trade(rows) && OneRowAKey(rows) && Members(level, rows, g) != {} && OneSeries(Members(level, rows, g))
      && g.inst in catalog
      && var b := BarOf(level, rows, catalog, g);
         && b.inst == g.inst && b.basis == g.basis && b.at == At(g.part)
         && Summarises(b, Members(level, rows, g), ExpectedSlots(g.part), catalog[g.inst].verification)
  {
    hide Summarises, Members, Aggregate;
    JoinShape(curated, catalog, AllInstruments);
    var rows := Join(curated, catalog, AllInstruments);
    MembersAreOneSeries(level, rows, g);
    GroupIsKnown(level, curated, catalog, g);
    AggregateSummarises(g, Members(level, rows, g), VerificationOf(catalog, g.inst), ExpectedSlots(g.part));
  }

  predicate JoinHas(level: Level, curated: Curated, catalog: Catalog, g: Group) {
    JoinShape(curated, catalog, AllInstruments);
    g in Groups(level, Join(curated, catalog, AllInstruments))
  }

  lemma {:induction false} GroupIsKnown(level: Level, curated: Curated, catalog: Catalog, g: Group)
    requires JoinHas(level, curated, catalog, g)
    ensures g.inst in catalog && (level == FourHours ==> g.part.Bucket?) && (level == Days ==> g.part.Day?)
  {
    JoinShape(curated, catalog, AllInstruments);
    var rows := Join(curated, catalog, AllInstruments);
    var j := Member(Members(level, rows, g));
  }

  lemma {:induction false} SameRows(a: set<Joined>, b: set<Joined>)
    requires forall j :: j in a <==> j in b
    ensures a == b
  {
  }

  // ---- The tables ----

  ghost predicate DescribedFourHours(curated: Curated, catalog: Catalog, b: Derived) {
    exists rows, opening, slots, n :: IsFourHourBar(curated, catalog, b, rows, opening, slots, n)
  }

  ghost predicate DescribedDay(curated: Curated, catalog: Catalog, b: Derived) {
    exists rows, slots :: IsDailyBar(curated, catalog, b, rows, slots)
  }

  lemma {:induction false} FourHourBarIsDescribed(curated: Curated, catalog: Catalog, b: Derived)
    requires b in FromScratch(FourHours, curated, catalog)
    ensures DescribedFourHours(curated, catalog, b)
  {
    hide BarOf, Members, Summarises, InFourHours;
    var rows := Join(curated, catalog, AllInstruments);
    JoinShape(curated, catalog, AllInstruments);
    var g :| g in Groups(FourHours, rows) && BarOf(FourHours, rows, catalog, g) == b;
    GroupIsKnown(FourHours, curated, catalog, g);
    GroupIsSummarised(FourHours, curated, catalog, g);
    var opening, n, slots := g.part.opening, g.part.bucket, g.part.slots;
    FourHourMembers(curated, catalog, b, opening, slots, n);
    assert IsFourHourBar(curated, catalog, b, Members(FourHours, rows, g), opening, slots, n);
  }

  lemma {:induction false} DescribedFourHoursIsStored(curated: Curated, catalog: Catalog, b: Derived)
    requires DescribedFourHours(curated, catalog, b)
    ensures b in FromScratch(FourHours, curated, catalog)
  {
    hide BarOf, Members, Summarises, InFourHours;
    var rows, opening, slots, n :| IsFourHourBar(curated, catalog, b, rows, opening, slots, n);
    var all, g := Join(curated, catalog, AllInstruments), Group(b.inst, b.basis, Bucket(opening, n, slots));
    JoinShape(curated, catalog, AllInstruments);
    FourHourMembers(curated, catalog, b, opening, slots, n);
    SameRows(rows, Members(FourHours, all, g));
    assert rows != {} by { SummarisesSome(b, rows, if slots < 4 * n + 4 then slots - 4 * n else 4,
        catalog[b.inst].verification); }
    assert g in Groups(FourHours, all);
    GroupIsSummarised(FourHours, curated, catalog, g);
    SummaryIsUnique(b, BarOf(FourHours, all, catalog, g), rows, ExpectedSlots(g.part), catalog[b.inst].verification);
  }

  lemma {:induction false} SummarisesSome(b: Derived, rows: set<Joined>, expected: int, v: Option<string>)
    requires Summarises(b, rows, expected, v)
    ensures rows != {}
  {
  }

  lemma {:induction false} DailyBarIsDescribed(curated: Curated, catalog: Catalog, b: Derived)
    requires b in FromScratch(Days, curated, catalog)
    ensures DescribedDay(curated, catalog, b)
  {
    hide BarOf, Members, Summarises, InDay;
    var rows := Join(curated, catalog, AllInstruments);
    JoinShape(curated, catalog, AllInstruments);
    var g :| g in Groups(Days, rows) && BarOf(Days, rows, catalog, g) == b;
    GroupIsKnown(Days, curated, catalog, g);
    GroupIsSummarised(Days, curated, catalog, g);
    DayMembers(curated, catalog, b, g.part.slots);
    assert IsDailyBar(curated, catalog, b, Members(Days, rows, g), g.part.slots);
  }

  lemma {:induction false} DescribedDayIsStored(curated: Curated, catalog: Catalog, b: Derived)
    requires DescribedDay(curated, catalog, b)
    ensures b in FromScratch(Days, curated, catalog)
  {
    hide BarOf, Members, Summarises, InDay;
    var rows, slots :| IsDailyBar(curated, catalog, b, rows, slots);
    var all, g := Join(curated, catalog, AllInstruments), Group(b.inst, b.basis, Day(b.at, slots));
    JoinShape(curated, catalog, AllInstruments);
    DayMembers(curated, catalog, b, slots);
    SameRows(rows, Members(Days, all, g));
    assert rows != {} by { SummarisesSome(b, rows, slots, catalog[b.inst].verification); }
    assert g in Groups(Days, all);
    GroupIsSummarised(Days, curated, catalog, g);
    SummaryIsUnique(b, BarOf(Days, all, catalog, g), rows, slots, catalog[b.inst].verification);
  }

  /**
   What the derived tables of a reachable store hold, exactly: a bar is in the 4-hour table if and only if it
   describes the accepted rows of four hours of a session, and in the daily table if and only if it describes those
   of a date. Open and close are those of the earliest and the latest row, high, low and runs bound the rows and are
   met, the volume is the sum over any listing of them, and completeness and quality count them.
   */
  lemma {:induction false} StoredBarsDescribeTheirRows(catalog: Catalog, txns: seq<Txn>, b: Derived)
    ensures var m := RunAll(EMPTY, catalog, txns).market;
      && (b in Current(m.fourHour, "db3_accepted_1h_calendar_v1") <==> DescribedFourHours(m.curated, catalog, b))
      && (b in Current(m.daily, "db3_accepted_1h_calendar_v1") <==> DescribedDay(m.curated, catalog, b))
  {
    hide RunAll, Current, FromScratch, DescribedFourHours, DescribedDay, StoreLaws.Replay, StoreLaws.LogIsSettled;
    StoreLaws.InvariantHolds(catalog, txns);
    var curated := RunAll(EMPTY, catalog, txns).market.curated;
    if b in FromScratch(FourHours, curated, catalog) { FourHourBarIsDescribed(curated, catalog, b); }
    if DescribedFourHours(curated, catalog, b) { DescribedFourHoursIsStored(curated, catalog, b); }
    if b in FromScratch(Days, curated, catalog) { DailyBarIsDescribed(curated, catalog, b); }
    if DescribedDay(curated, catalog, b) { DescribedDayIsStored(curated, catalog, b); }
  }

  /** Every accepted row is in a stored bar of each table. */
  lemma {:induction false} EveryRowIsRolledUp(catalog: Catalog, txns: seq<Txn>, j: Joined)
    requires Feeds(RunAll(EMPTY, catalog, txns).market.curated, catalog, j)
    ensures var m := RunAll(EMPTY, catalog, txns).market;
      && (exists b :: b in Current(m.fourHour, DERIVATION_VERSION) && Covers(b, j))
      && (exists b :: b in Current(m.daily, DERIVATION_VERSION) && CoversDay(b, j))
  {
    hide RunAll, Current, Feeds, BarOf, Summarises, StoreLaws.Replay, StoreLaws.LogIsSettled;
    StoreLaws.InvariantHolds(catalog, txns);
    var curated := RunAll(EMPTY, catalog, txns).market.curated;
    var rows := Join(curated, catalog, AllInstruments);
    JoinShape(curated, catalog, AllInstruments);
    JoinedRowsFeed(curated, catalog, j);
    MemberOfOwnGroup(FourHours, rows, j);
    MemberOfOwnGroup(Days, rows, j);
    var g, d := GroupOf(FourHours, j), GroupOf(Days, j);
    GroupIsSummarised(FourHours, curated, catalog, g);
    GroupIsSummarised(Days, curated, catalog, d);
    assert BarOf(FourHours, rows, catalog, g) in FromScratch(FourHours, curated, catalog);
    assert BarOf(Days, rows, catalog, d) in FromScratch(Days, curated, catalog);
    assert Covers(BarOf(FourHours, rows, catalog, g), j);
    assert CoversDay(BarOf(Days, rows, catalog, d), j);
  }

  predicate Covers(b: Derived, j: Joined) {
    b.inst == j.key.inst && b.basis == j.key.basis && b.at <= j.key.time < b.at + 4 * 3600
  }

  predicate CoversDay(b: Derived, j: Joined) {
    b.inst == j.key.inst && b.basis == j.key.basis && b.at == j.interval.date
  }

  // ---- One bar a place ----

  lemma {:induction false} SameGroupsInScope(level: Level, curated: Curated, catalog: Catalog, scope: Scope, g: Group)
    requires JoinHas(level, curated, catalog, g) && scope.Has(g.inst)
    ensures var rows := Join(curated, catalog, scope); Trade(rows) && g in Groups(level, rows)
  {
    hide Join;
    JoinShape(curated, catalog, AllInstruments);
    JoinShape(curated, catalog, scope);
    ScopedJoin(curated, catalog, scope);
    MembersWithin(level, Join(curated, catalog, AllInstruments), scope, g);
  }

  /** The groups of an instrument whose rows did not change are those from before. */
  lemma {:induction false} SameGroupsOutside(level: Level, before: Curated, after: Curated, catalog: Catalog,
      scope: Scope, g: Group)
    requires Outside(scope, before) == Outside(scope, after) && !scope.Has(g.inst)
    requires JoinHas(level, after, catalog, g)
    ensures JoinHas(level, before, catalog, g)
  {
    JoinShape(before, catalog, AllInstruments);
    JoinShape(after, catalog, AllInstruments);
    var j := Member(Members(level, Join(after, catalog, AllInstruments), g));
    assert j.key in Outside(scope, after);
    assert j in Join(before, catalog, AllInstruments);
    assert j in Members(level, Join(before, catalog, AllInstruments), g);
  }

  lemma {:induction false} JoinedKeysFit(curated: Curated, catalog: Catalog, level: Level, g: Group, h: Group)
    requires DerivedKeysFit(curated, catalog, AllInstruments)
    requires JoinHas(level, curated, catalog, g) && JoinHas(level, curated, catalog, h) && SameKey(g, h)
    ensures g == h
  {
  }

  lemma {:induction false} FitGroups(curated: Curated, catalog: Catalog, scope: Scope, level: Level, g: Group, h: Group)
    requires DerivedKeysFit(curated, catalog, scope) && SameKey(g, h)
    requires Trade(Join(curated, catalog, scope))
    requires g in Groups(level, Join(curated, catalog, scope)) && h in Groups(level, Join(curated, catalog, scope))
    ensures g == h
  {
  }

  lemma {:induction false} WriteKeepsKeys(before: Curated, after: Curated, catalog: Catalog, scope: Scope)
    requires DerivedKeysFit(before, catalog, AllInstruments) && DerivedKeysFit(after, catalog, scope)
    requires Outside(scope, before) == Outside(scope, after)
    ensures DerivedKeysFit(after, catalog, AllInstruments)
  {
    JoinShape(after, catalog, AllInstruments);
    var rows := Join(after, catalog, AllInstruments);
    hide Join, Groups;
    forall level: Level, g, h | g in Groups(level, rows) && h in Groups(level, rows) && SameKey(g, h) ensures g == h {
      if scope.Has(g.inst) {
        SameGroupsInScope(level, after, catalog, scope, g);
        SameGroupsInScope(level, after, catalog, scope, h);
        FitGroups(after, catalog, scope, level, g, h);
      } else {
        SameGroupsOutside(level, before, after, catalog, scope, g);
        SameGroupsOutside(level, before, after, catalog, scope, h);
        JoinedKeysFit(before, catalog, level, g, h);
      }
    }
    assert DistinctKeys(FourHours, rows) && DistinctKeys(Days, rows);
  }

  lemma {:induction false} KeysAlwaysFit(catalog: Catalog, txns: seq<Txn>)
    ensures DerivedKeysFit(RunAll(EMPTY, catalog, txns).market.curated, catalog, AllInstruments)
  {
    hide Step, DerivedKeysFit, ApplyCommit, Rebuilt;
    if txns == [] {
      NothingJoins(catalog);
    } else {
      var n := |txns| - 1;
      KeysAlwaysFit(catalog, txns[..n]);
      var db := RunAll(EMPTY, catalog, txns[..n]);
      var w := StoreLaws.StepWrites(db, catalog, txns[n]);
      if w.Some? {
        StoreLaws.WriteIsConfined(db.market.curated, w.value);
        WriteKeepsKeys(db.market.curated, ApplyCommit(w.value.commit, db.market.curated, w.value.staged), catalog,
          w.value.scope);
      }
    }
  }

  lemma {:induction false} NothingJoins(catalog: Catalog)
    ensures DerivedKeysFit(EMPTY.market.curated, catalog, AllInstruments)
  {
  }

  lemma {:induction false} OneBarOfGroups(level: Level, curated: Curated, catalog: Catalog, b: Derived, c: Derived)
    requires DerivedKeysFit(curated, catalog, AllInstruments)
    requires b in FromScratch(level, curated, catalog) && c in FromScratch(level, curated, catalog)
    requires b.inst == c.inst && b.at == c.at && b.basis == c.basis
    ensures b == c
  {
    hide BarOf;
    var rows := Join(curated, catalog, AllInstruments);
    JoinShape(curated, catalog, AllInstruments);
    var g :| g in Groups(level, rows) && BarOf(level, rows, catalog, g) == b;
    var h :| h in Groups(level, rows) && BarOf(level, rows, catalog, h) == c;
    GroupIsSummarised(level, curated, catalog, g);
    GroupIsSummarised(level, curated, catalog, h);
    JoinedKeysFit(curated, catalog, level, g, h);
  }

  /** The primary keys hold in every reachable store: no two bars of a table share instrument, place and price basis. */
  lemma {:induction false} OneBarAPlace(catalog: Catalog, txns: seq<Txn>, b: Derived, c: Derived)
    requires b.inst == c.inst && b.at == c.at && b.basis == c.basis
    ensures var m := RunAll(EMPTY, catalog, txns).market;
      && (b in Current(m.fourHour, DERIVATION_VERSION) && c in Current(m.fourHour, DERIVATION_VERSION) ==> b == c)
      && (b in Current(m.daily, DERIVATION_VERSION) && c in Current(m.daily, DERIVATION_VERSION) ==> b == c)
  {
    hide RunAll, Current, FromScratch, DerivedKeysFit, StoreLaws.Replay, StoreLaws.LogIsSettled;
    StoreLaws.InvariantHolds(catalog, txns);
    KeysAlwaysFit(catalog, txns);
    var curated := RunAll(EMPTY, catalog, txns).market.curated;
    forall level: Level | b in FromScratch(level, curated, catalog) && c in FromScratch(level, curated, catalog)
      ensures b == c
    {
      OneBarOfGroups(level, curated, catalog, b, c);
    }
  }
}
