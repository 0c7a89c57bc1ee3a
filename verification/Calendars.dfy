/** Which calendars the primary keys of the derived tables accept. */
module Calendars {
  import opened Types
  import opened Derive
  import opened Store
  import Samples

  // ---- Rows ----

  /** Rows of one series and one date agree on the number of slots of their sessions. */
  ghost predicate DatesAgree(rows: set<Joined>)
    requires Trade(rows)
  {
    forall a, b :: a in rows && b in rows && SameDay(a, b) ==> SlotsOf(a.interval) == SlotsOf(b.interval)
  }

  predicate SameDay(a: Joined, b: Joined)
    requires a.interval.Trading? && b.interval.Trading?
  {
    a.key.inst == b.key.inst && a.key.basis == b.key.basis && a.interval.date == b.interval.date
  }

  /** The daily table is keyed by date and its query groups by date and slot count: this is all its key asks. */
  lemma {:induction false} DailyKeysFitExactly(rows: set<Joined>)
    requires Trade(rows)
    ensures DistinctKeys(Days, rows) <==> DatesAgree(rows)
  {
    if DatesAgree(rows) {
      forall g, h | g in Groups(Days, rows) && h in Groups(Days, rows) && SameKey(g, h) ensures g == h {
        var a := GroupRow(Days, rows, g);
        var b := GroupRow(Days, rows, h);
        assert SameDay(a, b);
      }
    }
    forall a, b | DistinctKeys(Days, rows) && a in rows && b in rows && SameDay(a, b)
      ensures SlotsOf(a.interval) == SlotsOf(b.interval)
    {
      if SlotsOf(a.interval) != SlotsOf(b.interval) {
        UnequalSessionsOfADateClash(rows, a, b);
      }
    }
  }

  lemma {:induction false} GroupRow(level: Level, rows: set<Joined>, g: Group) returns (j: Joined)
    requires Trade(rows) && g in Groups(level, rows)
    ensures j in rows && GroupOf(level, j) == g
  {
    j :| j in Members(level, rows, g);
  }

  // ---- Calendars ----

  /** A 4-hour bucket of the interval that can hold a row starts at `t`. */
  predicate BucketAt(iv: Interval, t: int) {
    iv.Trading? && iv.opening <= t < iv.closing && (t - iv.opening) % 14400 == 0
  }

  predicate Open(iv: Interval) { iv.Trading? && iv.opening < iv.closing }

  /** Two intervals never make two groups under one key. */
  ghost predicate Compatible(i: Interval, j: Interval)
    requires Open(i) && Open(j)
  {
    && (i.date == j.date ==> SlotsOf(i) == SlotsOf(j))
    && (forall t :: BucketAt(i, t) && BucketAt(j, t) ==> i.opening == j.opening && SlotsOf(i) == SlotsOf(j))
  }

  ghost predicate KeepsKeys(calendar: Calendar) {
    forall i, j :: i in calendar.intervals && j in calendar.intervals && Open(i) && Open(j) ==> Compatible(i, j)
  }

  /** A joined row lies in the bucket its group is stored under. */
  lemma {:induction false} RowIsInItsBucket(curated: Curated, catalog: Catalog, scope: Scope, j: Joined)
    requires j in Join(curated, catalog, scope)
    ensures Open(j.interval) && BucketAt(j.interval, At(GroupOf(FourHours, j).part))
    ensures j.key.inst in catalog && j.interval in catalog[j.key.inst].intervals
  {
  }

  lemma {:induction false} EqualStartsEqualBuckets(a: Joined, b: Joined)
    requires a.interval.Trading? && b.interval.Trading? && SameKey(GroupOf(FourHours, a), GroupOf(FourHours, b))
    requires a.interval.opening == b.interval.opening && SlotsOf(a.interval) == SlotsOf(b.interval)
    ensures GroupOf(FourHours, a) == GroupOf(FourHours, b)
  {
  }

  lemma {:induction false} KeptKeysFit(curated: Curated, catalog: Catalog, scope: Scope)
    requires forall inst :: inst in catalog ==> KeepsKeys(catalog[inst])
    ensures DerivedKeysFit(curated, catalog, scope)
  {
    JoinShape(curated, catalog, scope);
    var rows := Join(curated, catalog, scope);
    hide Join, KeepsKeys, BucketAt, SlotsOf;
    forall g, h | g in Groups(FourHours, rows) && h in Groups(FourHours, rows) && SameKey(g, h) ensures g == h {
      var a := GroupRow(FourHours, rows, g);
      var b := GroupRow(FourHours, rows, h);
      RowsAreCompatible(curated, catalog, scope, a, b);
      RowIsInItsBucket(curated, catalog, scope, a);
      RowIsInItsBucket(curated, catalog, scope, b);
      EqualStartsEqualBuckets(a, b);
    }
    forall a, b | a in rows && b in rows && SameDay(a, b) ensures SlotsOf(a.interval) == SlotsOf(b.interval) {
      RowsAreCompatible(curated, catalog, scope, a, b);
    }
    DailyKeysFitExactly(rows);
  }

  lemma {:induction false} RowsAreCompatible(curated: Curated, catalog: Catalog, scope: Scope, a: Joined, b: Joined)
    requires forall inst :: inst in catalog ==> KeepsKeys(catalog[inst])
    requires a in Join(curated, catalog, scope) && b in Join(curated, catalog, scope) && a.key.inst == b.key.inst
    ensures Open(a.interval) && Open(b.interval) && Compatible(a.interval, b.interval)
  {
    hide Compatible;
    RowIsInItsBucket(curated, catalog, scope, a);
    RowIsInItsBucket(curated, catalog, scope, b);
    assert KeepsKeys(catalog[a.key.inst]);
  }

  // ---- Every other calendar can be made to fail ----

  const FLAT_ROW := Row(Content(Ohlc(1.0, 1.0, 1.0, 1.0), NO_SIDE, NO_SIDE, None, None, true), None, 1, 0, QualityPass)

  function HourKey(inst: int, t: int): Key { Key(inst, t, NativeOhlc) }

  /** A curated table with a row at each of two times. */
  function RowsAtTimes(inst: int, t: int, u: int): Curated {
    map[HourKey(inst, t) := FLAT_ROW, HourKey(inst, u) := FLAT_ROW]
  }

  lemma {:induction false} RowJoins(curated: Curated, catalog: Catalog, inst: int, t: int, iv: Interval)
    requires inst in catalog && iv in catalog[inst].intervals && iv.Trading? && iv.opening <= t < iv.closing
    requires (t - iv.opening) % 3600 == 0
    requires HourKey(inst, t) in curated && curated[HourKey(inst, t)] == FLAT_ROW
    ensures Joined(HourKey(inst, t), FLAT_ROW, iv) in Join(curated, catalog, AllInstruments)
  {
    assert Eligible(HourKey(inst, t), FLAT_ROW, iv);
  }

  lemma {:induction false} TwoGroupsClash(level: Level, rows: set<Joined>, a: Joined, b: Joined)
    requires Trade(rows) && a in rows && b in rows
    requires SameKey(GroupOf(level, a), GroupOf(level, b)) && GroupOf(level, a) != GroupOf(level, b)
    ensures !DistinctKeys(level, rows)
  {
    MemberOfOwnGroup(level, rows, a);
    MemberOfOwnGroup(level, rows, b);
  }

  /** Two sessions of a date with different slot counts, each with a row at its opening. */
  lemma {:induction false} UnequalDatesFail(catalog: Catalog, inst: int, i: Interval, j: Interval)
    requires inst in catalog && i in catalog[inst].intervals && j in catalog[inst].intervals && Open(i) && Open(j)
    requires i.date == j.date && SlotsOf(i) != SlotsOf(j)
    ensures !DerivedKeysFit(RowsAtTimes(inst, i.opening, j.opening), catalog, AllInstruments)
  {
    var curated := RowsAtTimes(inst, i.opening, j.opening);
    JoinShape(curated, catalog, AllInstruments);
    RowJoins(curated, catalog, inst, i.opening, i);
    RowJoins(curated, catalog, inst, j.opening, j);
    UnequalSessionsOfADateClash(Join(curated, catalog, AllInstruments),
      Joined(HourKey(inst, i.opening), FLAT_ROW, i), Joined(HourKey(inst, j.opening), FLAT_ROW, j));
  }

  lemma {:induction false} SharedStart(t: int, opening: int)
    requires (t - opening) % 14400 == 0
    ensures (t - opening) % 3600 == 0 && opening + 14400 * ((t - opening) / 14400) == t
  {
    var b := (t - opening) / 14400;
    assert t - opening == 14400 * b;
    assert t - opening == 3600 * (4 * b);
  }

  /** One row at the start of a bucket that two intervals share belongs to two groups. */
  lemma {:induction false} SharedBucketsFail(catalog: Catalog, inst: int, i: Interval, j: Interval, t: int)
    requires inst in catalog && i in catalog[inst].intervals && j in catalog[inst].intervals
    requires BucketAt(i, t) && BucketAt(j, t) && (i.opening != j.opening || SlotsOf(i) != SlotsOf(j))
    ensures !DerivedKeysFit(RowsAtTimes(inst, t, t), catalog, AllInstruments)
  {
    hide SlotsOf;
    var curated := RowsAtTimes(inst, t, t);
    JoinShape(curated, catalog, AllInstruments);
    SharedStart(t, i.opening);
    SharedStart(t, j.opening);
    RowJoins(curated, catalog, inst, t, i);
    RowJoins(curated, catalog, inst, t, j);
    var a, b := Joined(HourKey(inst, t), FLAT_ROW, i), Joined(HourKey(inst, t), FLAT_ROW, j);
    TwoGroupsClash(FourHours, Join(curated, catalog, AllInstruments), a, b);
  }

  lemma {:induction false} OtherCalendarsFail(catalog: Catalog, inst: int) returns (curated: Curated)
    requires inst in catalog && !KeepsKeys(catalog[inst])
    ensures !DerivedKeysFit(curated, catalog, AllInstruments)
  {
    hide DerivedKeysFit, RowsAtTimes, SlotsOf, BucketAt;
    var i, j :| i in catalog[inst].intervals && j in catalog[inst].intervals && Open(i) && Open(j) && !Compatible(i, j);
    if i.date == j.date && SlotsOf(i) != SlotsOf(j) {
      curated := RowsAtTimes(inst, i.opening, j.opening);
      UnequalDatesFail(catalog, inst, i, j);
    } else {
      var t :| BucketAt(i, t) && BucketAt(j, t) && !(i.opening == j.opening && SlotsOf(i) == SlotsOf(j));
      curated := RowsAtTimes(inst, t, t);
      SharedBucketsFail(catalog, inst, i, j, t);
    }
  }

  /**
   A rebuild never violates a primary key, whatever the curated rows and the instruments rebuilt, exactly when in
   every calendar sessions of one date have as many slots, and buckets of different sessions start apart.
   */
  lemma {:induction false} KeysFitExactly(catalog: Catalog)
    ensures (forall curated: Curated, scope: Scope :: DerivedKeysFit(curated, catalog, scope)) <==>
      (forall inst :: inst in catalog ==> KeepsKeys(catalog[inst]))
  {
    hide DerivedKeysFit, KeepsKeys;
    if forall inst :: inst in catalog ==> KeepsKeys(catalog[inst]) {
      forall curated: Curated, scope: Scope ensures DerivedKeysFit(curated, catalog, scope) {
        KeptKeysFit(curated, catalog, scope);
      }
    } else {
      var inst :| inst in catalog && !KeepsKeys(catalog[inst]);
      var curated := OtherCalendarsFail(catalog, inst);
    }
  }

  // ---- Calendars as the repository writes them ----

  predicate SameIdentity(i: Interval, j: Interval) { i.date == j.date && i.sequence == j.sequence }

  /** Every interval has sequence 0, the key admits one such interval a date, and sessions do not overlap. */
  ghost predicate AsWritten(calendar: Calendar) {
    && (forall i :: i in calendar.intervals ==> i.sequence == 0)
    && (forall i, j :: i in calendar.intervals && j in calendar.intervals && SameIdentity(i, j) ==> i == j)
    && (forall i, j :: i in calendar.intervals && j in calendar.intervals && Open(i) && Open(j) && i != j ==>
          i.closing <= j.opening || j.closing <= i.opening)
  }

  /** Under such a calendar no rebuild is ever refused, so no commit fails for its calendar. */
  lemma {:induction false} WrittenCalendarsFit(curated: Curated, catalog: Catalog, scope: Scope)
    requires forall inst :: inst in catalog ==> AsWritten(catalog[inst])
    ensures DerivedKeysFit(curated, catalog, scope)
  {
    hide DerivedKeysFit, AsWritten;
    forall inst | inst in catalog ensures KeepsKeys(catalog[inst]) {
      WrittenKeepsKeys(catalog[inst]);
    }
    KeptKeysFit(curated, catalog, scope);
  }

  lemma {:induction false} WrittenKeepsKeys(calendar: Calendar)
    requires AsWritten(calendar)
    ensures KeepsKeys(calendar)
  {
    forall i, j | i in calendar.intervals && j in calendar.intervals && Open(i) && Open(j) ensures Compatible(i, j) {
      assert i.date == j.date ==> i == j;
    }
  }

  // ---- A calendar from elsewhere ----

  /** One date with a session of one hour, and one of two hours right after it. */
  const SPLIT := map[1 := Calendar(Some("VERIFIED"), {Trading(0, 0, 0, 3600), Trading(0, 1, 3600, 10800)})]

  /** The hours 0, 1 and 2 of the sample series, the last one open. */
  function SplitItem(version: Option<int>, fetched: int): Item {
    Samples.Acquired(0, 2, Samples.OPEN, version, fetched)
  }

  lemma {:induction false} SplitRowsClash(curated: Curated, version: Option<int>, fetched: int)
    requires curated == ApplyCommit(Upserted(1), map[], Staging(StagedRows([SplitItem(version, fetched)])))
    ensures !DerivedKeysFit(curated, SPLIT, Only({1}))
  {
    hide Staging, StagedRows, Samples.Hours, Samples.HourBars;
    Samples.UpsertExtends(map[], 0, Samples.OPEN, 1, 0, 2, Samples.OPEN, version, fetched);
    Samples.HourIn(0, 2, 0);
    Samples.HourIn(0, 2, 3600);
    JoinShape(curated, SPLIT, Only({1}));
    var rows := Join(curated, SPLIT, Only({1}));
    var k, l := HourKey(1, 0), HourKey(1, 3600);
    var a, b := Joined(k, curated[k], Trading(0, 0, 0, 3600)), Joined(l, curated[l], Trading(0, 1, 3600, 10800));
    assert Eligible(k, curated[k], a.interval) && Eligible(l, curated[l], b.interval);
    assert a in rows && b in rows;
    assert SlotsOf(a.interval) == 1 && SlotsOf(b.interval) == 2;
    UnequalSessionsOfADateClash(rows, a, b);
  }

  /** Onboarding an instrument under that calendar with a bar in each session is rolled back. */
  lemma {:induction false} SplitDateRollsBack(version: Option<int>, fetched: int)
    ensures var started := Step(EMPTY, SPLIT, StartRun(1, "onboarding", {Samples.SERIES}));
      var after := Step(started, SPLIT, Onboard(1, SplitItem(version, fetched)));
      && started.IsRunning(1) && after == started.Finish(1, Failed)
      && after.market == EMPTY.market && after.watermarks == map[]
  {
    hide DerivedKeysFit, ApplyCommit, Staging, StagedRows, Samples.HourBars;
    var item := SplitItem(version, fetched);
    Samples.BarsAreSeries(0, 2, Samples.OPEN, version, fetched);
    var curated := ApplyCommit(Upserted(1), map[], Staging(StagedRows([item])));
    SplitRowsClash(curated, version, fetched);
    assert InstrumentsOf([item]) == Only({1}) by {
      assert item in [item] && item.inst == 1;
    }
  }
}
