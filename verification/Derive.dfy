/** The derived tables: 4-hour and daily bars rolled up from accepted, complete hourly bars. */
module Derive {
  import opened Sets
  import opened Types

  // ---- The tables and the calendar ----

  datatype Key = Key(inst: int, time: int, basis: Basis)

  datatype Quality = QualityPass | QualityWarn | QualityFail | NotEvaluated

  /** A row of the curated table. */
  datatype Row = Row(content: Content, dataVersion: Option<int>, run: int, retrievedAt: int, quality: Quality)

  type Curated = map<Key, Row>

  /** Session intervals are identified by date and sequence; holidays have no times. */
  datatype Interval =
    | Holiday(date: int, sequence: int)
    | Trading(date: int, sequence: int, opening: int, closing: int)

  datatype Calendar = Calendar(verification: Option<string>, intervals: set<Interval>)

  /** The session calendar of every instrument that has one. */
  type Catalog = map<int, Calendar>

  datatype Scope = AllInstruments | Only(ids: set<int>) {
    predicate Has(inst: int) { this.Only? ==> inst in ids }
  }

  // ---- Eligible rows: the join shared by both queries ----

  datatype Joined = Joined(key: Key, row: Row, interval: Interval)

  predicate Eligible(k: Key, row: Row, iv: Interval) {
    && iv.Trading? && iv.opening <= k.time < iv.closing
    && (k.time - iv.opening) % 3600 == 0
    && row.content.isComplete && row.quality == QualityPass
  }

  function Join(curated: Curated, catalog: Catalog, scope: Scope): set<Joined> {
    set k, iv | k in curated && scope.Has(k.inst) && k.inst in catalog && iv in catalog[k.inst].intervals
      && Eligible(k, curated[k], iv) :: Joined(k, curated[k], iv)
  }

  /** One row a key, however many intervals it joins. */
  ghost predicate OneRowAKey(rows: set<Joined>) {
    forall a, b :: a in rows && b in rows && a.key == b.key ==> a.row == b.row
  }

  // ---- Groups ----

  datatype Level = FourHours | Days

  datatype Part = Bucket(opening: int, bucket: int, slots: int) | Day(date: int, slots: int)

  datatype Group = Group(inst: int, basis: Basis, part: Part)

  /** CEIL(duration / 3600). */
  function SlotsOf(iv: Interval): int
    requires iv.Trading?
  {
    -((iv.opening - iv.closing) / 3600)
  }

  function GroupOf(level: Level, j: Joined): Group
    requires j.interval.Trading?
  {
    Group(j.key.inst, j.key.basis,
      match level
      case FourHours => Bucket(j.interval.opening, (j.key.time - j.interval.opening) / 14400, SlotsOf(j.interval))
      case Days => Day(j.interval.date, SlotsOf(j.interval)))
  }

  /** The time (4-hour bars) or date (daily bars) a group is stored under. */
  function At(part: Part): int {
    match part
    case Bucket(opening, bucket, _) => opening + 14400 * bucket
    case Day(date, _) => date
  }

  /** LEAST(4, slots - 4 * bucket), or all slots of the session. */
  function ExpectedSlots(part: Part): int {
    match part
    case Bucket(_, bucket, slots) => if slots - 4 * bucket < 4 then slots - 4 * bucket else 4
    case Day(_, slots) => slots
  }

  predicate Trade(rows: set<Joined>) { forall j :: j in rows ==> j.interval.Trading? }

  function Members(level: Level, rows: set<Joined>, g: Group): set<Joined>
    requires Trade(rows)
  {
    set j | j in rows && GroupOf(level, j) == g
  }

  // ---- Aggregates ----

  function TimesIn(rows: set<Joined>): set<int> { set j | j in rows :: j.key.time }

  /** All rows belong to one series, so a time determines the row. */
  ghost predicate OneSeries(rows: set<Joined>) {
    forall a, b :: a in rows && b in rows && a.key.time == b.key.time ==> a.row == b.row
  }

  function RowAt(rows: set<Joined>, t: int): (r: Row)
    requires OneSeries(rows) && t in TimesIn(rows)
    ensures forall j :: j in rows && j.key.time == t ==> r == j.row
  {
    var r :| exists j :: j in rows && j.key.time == t && j.row == r;
    r
  }

  function AddVolume(a: Option<real>, b: Option<real>): Option<real> {
    if a.None? then b else if b.None? then a else Some(a.value + b.value)
  }

  function Scale(n: nat, v: Option<real>): Option<real> {
    if v.None? then None else Some(n as real * v.value)
  }

  function RowsAt(rows: set<Joined>, t: int): set<Joined> { set j | j in rows && j.key.time == t }

  /** SUM(volume): NULLs are skipped, and a sum of NULLs only is NULL. */
  function SumVolume(rows: set<Joined>): Option<real>
    requires OneSeries(rows)
    decreases |rows|
  {
    if rows == {} then None
    else
      SomeTime(rows);
      var t := Min(TimesIn(rows));
      var here := RowsAt(rows, t);
      FewerRows(rows, here);
      AddVolume(Scale(|here|, RowAt(rows, t).content.volume), SumVolume(rows - here))
  }

  lemma {:induction false} SomeTime(rows: set<Joined>)
    requires rows != {}
    ensures TimesIn(rows) != {}
  {
    var j := Member(rows);
    assert j.key.time in TimesIn(rows);
  }

  lemma {:induction false} FewerRows(rows: set<Joined>, here: set<Joined>)
    requires rows != {} && TimesIn(rows) != {} && here == RowsAt(rows, Min(TimesIn(rows)))
    ensures |rows - here| < |rows|
  {
  }

  function Highs(rows: set<Joined>): set<real> { set j | j in rows :: j.row.content.ohlc.high }

  function Lows(rows: set<Joined>): set<real> { set j | j in rows :: j.row.content.ohlc.low }

  function Runs(rows: set<Joined>): set<int> { set j | j in rows :: j.row.run }

  /** One derived bar. */
  datatype Derived = Derived(
    inst: int, at: int, basis: Basis, ohlc: Ohlc, volume: Option<real>,
    complete: bool, firstRun: int, lastRun: int, quality: Quality)

  lemma {:induction false} SomeOfEach(rows: set<Joined>)
    requires rows != {}
    ensures TimesIn(rows) != {} && Highs(rows) != {} && Lows(rows) != {} && Runs(rows) != {}
  {
    var j := Member(rows);
    assert j.key.time in TimesIn(rows) && j.row.content.ohlc.high in Highs(rows);
    assert j.row.content.ohlc.low in Lows(rows) && j.row.run in Runs(rows);
  }

  /** A NULL verification status is not different from VERIFIED in SQL, so only other texts are unevaluated. */
  function QualityOf(verification: Option<string>, full: bool): Quality {
    if verification.Some? && verification.value != "VERIFIED" then NotEvaluated
    else if full then QualityPass
    else QualityWarn
  }

  function Aggregate(g: Group, rows: set<Joined>, verification: Option<string>): Derived
    requires rows != {} && OneSeries(rows)
  {
    SomeOfEach(rows);
    var first, last := Min(TimesIn(rows)), Max(TimesIn(rows));
    var full := |rows| == ExpectedSlots(g.part);
    Derived(g.inst, At(g.part), g.basis,
      Ohlc(RowAt(rows, first).content.ohlc.open, Greatest(Highs(rows)), Least(Lows(rows)),
          RowAt(rows, last).content.ohlc.close),
      SumVolume(rows), full, Min(Runs(rows)), Max(Runs(rows)), QualityOf(verification, full))
  }

  lemma {:induction false} JoinShape(curated: Curated, catalog: Catalog, scope: Scope)
    ensures var rows := Join(curated, catalog, scope);
      && Trade(rows) && OneRowAKey(rows)
      && (forall j :: j in rows ==>
          j.key in curated && curated[j.key] == j.row && j.key.inst in catalog && scope.Has(j.key.inst))
  {
  }

  lemma {:induction false} MembersAreOneSeries(level: Level, rows: set<Joined>, g: Group)
    requires Trade(rows) && OneRowAKey(rows)
    ensures OneSeries(Members(level, rows, g))
  {
  }

  lemma {:induction false} MemberOfOwnGroup(level: Level, rows: set<Joined>, j: Joined)
    requires Trade(rows) && j in rows
    ensures j in Members(level, rows, GroupOf(level, j))
  {
  }

  function VerificationOf(catalog: Catalog, inst: int): Option<string> {
    if inst in catalog then catalog[inst].verification else None
  }

  function BarOf(level: Level, rows: set<Joined>, catalog: Catalog, g: Group): Derived
    requires Trade(rows) && OneRowAKey(rows) && Members(level, rows, g) != {}
  {
    MembersAreOneSeries(level, rows, g);
    Aggregate(g, Members(level, rows, g), VerificationOf(catalog, g.inst))
  }

  function Groups(level: Level, rows: set<Joined>): (groups: set<Group>)
    requires Trade(rows)
    ensures forall g :: g in groups <==> Members(level, rows, g) != {}
  {
    assert forall j :: j in rows ==> j in Members(level, rows, GroupOf(level, j));
    set j | j in rows :: GroupOf(level, j)
  }

  /** The rows one INSERT ... SELECT produces: one bar a group. */
  function Bars(level: Level, rows: set<Joined>, catalog: Catalog): set<Derived>
    requires Trade(rows) && OneRowAKey(rows)
  {
    set g | g in Groups(level, rows) :: BarOf(level, rows, catalog, g)
  }

  predicate SameKey(g: Group, h: Group) { g.inst == h.inst && g.basis == h.basis && At(g.part) == At(h.part) }

  /** The primary key of a derived table: no two groups may be stored under one instrument, time and basis. */
  predicate DistinctKeys(level: Level, rows: set<Joined>)
    requires Trade(rows)
  {
    forall g, h :: g in Groups(level, rows) && h in Groups(level, rows) && SameKey(g, h) ==> g == h
  }

  /**
   The daily query groups by date and slot count, the daily table is keyed by date: two sessions of one date with
   different slot counts, both with bars of one series, always violate the key.
   */
  lemma {:induction false} UnequalSessionsOfADateClash(rows: set<Joined>, a: Joined, b: Joined)
    requires Trade(rows) && a in rows && b in rows && a.key.inst == b.key.inst && a.key.basis == b.key.basis
    requires a.interval.date == b.interval.date && SlotsOf(a.interval) != SlotsOf(b.interval)
    ensures !DistinctKeys(Days, rows)
  {
    var g, h := GroupOf(Days, a), GroupOf(Days, b);
    MemberOfOwnGroup(Days, rows, a);
    MemberOfOwnGroup(Days, rows, b);
    assert g in Groups(Days, rows) && h in Groups(Days, rows);
    assert SameKey(g, h) && g.part.slots != h.part.slots;
  }

  // ---- Rebuilding some instruments equals rebuilding all ----

  function Within(rows: set<Joined>, scope: Scope): set<Joined> { set j | j in rows && scope.Has(j.key.inst) }

  function BarsWithin(bars: set<Derived>, scope: Scope): set<Derived> { set b | b in bars && scope.Has(b.inst) }

  lemma {:induction false} ScopedJoin(curated: Curated, catalog: Catalog, scope: Scope)
    ensures Join(curated, catalog, scope) == Within(Join(curated, catalog, AllInstruments), scope)
  {
  }

  lemma {:induction false} MembersWithin(level: Level, rows: set<Joined>, scope: Scope, g: Group)
    requires Trade(rows) && scope.Has(g.inst)
    ensures Members(level, Within(rows, scope), g) == Members(level, rows, g)
  {
  }

  /** The bars of a set of instruments depend on the rows of those instruments alone. */
  lemma {:induction false} BarsOfScope(level: Level, rows: set<Joined>, catalog: Catalog, scope: Scope)
    requires Trade(rows) && OneRowAKey(rows)
    ensures Bars(level, Within(rows, scope), catalog) == BarsWithin(Bars(level, rows, catalog), scope)
  {
    hide BarOf, Members, GroupOf;
    var part := Within(rows, scope);
    forall g ensures g in Groups(level, part) <==> g in Groups(level, rows) && scope.Has(g.inst) {
      ScopedBar(level, rows, catalog, scope, g);
    }
    forall g | g in Groups(level, part)
      ensures BarOf(level, part, catalog, g) in BarsWithin(Bars(level, rows, catalog), scope)
    {
      ScopedBar(level, rows, catalog, scope, g);
    }
    forall g | g in Groups(level, rows) && scope.Has(BarOf(level, rows, catalog, g).inst)
      ensures BarOf(level, rows, catalog, g) in Bars(level, part, catalog)
    {
      ScopedBar(level, rows, catalog, scope, g);
    }
  }

  lemma {:induction false} ScopedBar(level: Level, rows: set<Joined>, catalog: Catalog, scope: Scope, g: Group)
    requires Trade(rows) && OneRowAKey(rows)
    ensures g in Groups(level, Within(rows, scope)) <==> g in Groups(level, rows) && scope.Has(g.inst)
    ensures g in Groups(level, Within(rows, scope)) ==>
      Members(level, rows, g) != {} && Members(level, Within(rows, scope), g) != {}
      && BarOf(level, Within(rows, scope), catalog, g) == BarOf(level, rows, catalog, g)
      && BarOf(level, rows, catalog, g).inst == g.inst
    ensures g in Groups(level, rows) ==> Members(level, rows, g) != {} && BarOf(level, rows, catalog, g).inst == g.inst
  {
    if scope.Has(g.inst) {
      MembersWithin(level, rows, scope, g);
    }
  }

  // ---- The stored tables ----

  /** A stored bar, under the version of the derivation that made it. */
  datatype StoredBar = StoredBar(version: string, bar: Derived)

  type Table = set<StoredBar>

  function Current(table: Table, version: string): set<Derived> {
    set s | s in table && s.version == version :: s.bar
  }

  function Stamp(bars: set<Derived>, version: string): Table { set b | b in bars :: StoredBar(version, b) }

  function Doomed(table: Table, version: string, scope: Scope): Table {
    set s | s in table && s.version == version && scope.Has(s.bar.inst)
  }

  /** DELETE the scope's bars of this version, then INSERT the scope's groups. */
  function Rebuilt(level: Level, table: Table, version: string, curated: Curated, catalog: Catalog,
      scope: Scope): Table {
    JoinShape(curated, catalog, scope);
    (table - Doomed(table, version, scope)) + Stamp(Bars(level, Join(curated, catalog, scope), catalog), version)
  }

  /** The bars a rebuild of every instrument from the curated rows would leave. */
  function FromScratch(level: Level, curated: Curated, catalog: Catalog): set<Derived> {
    JoinShape(curated, catalog, AllInstruments);
    Bars(level, Join(curated, catalog, AllInstruments), catalog)
  }

  function Outside(scope: Scope, curated: Curated): Curated { map k | k in curated && !scope.Has(k.inst) :: curated[k] }

  lemma {:induction false} CurrentOfRebuilt(level: Level, table: Table, version: string, curated: Curated,
      catalog: Catalog, scope: Scope)
    ensures Current(Rebuilt(level, table, version, curated, catalog, scope), version) ==
      (set b | b in Current(table, version) && !scope.Has(b.inst))
        + BarsWithin(FromScratch(level, curated, catalog), scope)
  {
    JoinShape(curated, catalog, scope);
    JoinShape(curated, catalog, AllInstruments);
    ScopedJoin(curated, catalog, scope);
    BarsOfScope(level, Join(curated, catalog, AllInstruments), catalog, scope);
    TableAlgebra(table, version, scope, Bars(level, Join(curated, catalog, scope), catalog));
  }

  lemma {:induction false} TableAlgebra(table: Table, version: string, scope: Scope, bars: set<Derived>)
    ensures Current((table - Doomed(table, version, scope)) + Stamp(bars, version), version)
      == (set b | b in Current(table, version) && !scope.Has(b.inst)) + bars
    ensures forall s: StoredBar :: s.version != version ==>
      (s in (table - Doomed(table, version, scope)) + Stamp(bars, version) <==> s in table)
  {
    var after := (table - Doomed(table, version, scope)) + Stamp(bars, version);
    var kept := set b | b in Current(table, version) && !scope.Has(b.inst);
    forall b ensures b in Current(after, version) <==> b in kept + bars {
      assert b in Current(after, version) <==> StoredBar(version, b) in after;
      assert b in Current(table, version) <==> StoredBar(version, b) in table;
      assert b in bars <==> StoredBar(version, b) in Stamp(bars, version);
    }
  }

  /** Instruments whose curated rows did not change keep the bars a full rebuild gives them. */
  lemma {:induction false} UntouchedInstrumentsKeepTheirBars(level: Level, before: Curated, after: Curated,
      catalog: Catalog, scope: Scope)
    requires Outside(scope, before) == Outside(scope, after)
    ensures (set b | b in FromScratch(level, before, catalog) && !scope.Has(b.inst))
         == (set b | b in FromScratch(level, after, catalog) && !scope.Has(b.inst))
  {
    var others := Only((set k | k in before.Keys + after.Keys && !scope.Has(k.inst) :: k.inst));
    JoinShape(before, catalog, AllInstruments);
    JoinShape(after, catalog, AllInstruments);
    BarsOfScope(level, Join(before, catalog, AllInstruments), catalog, others);
    BarsOfScope(level, Join(after, catalog, AllInstruments), catalog, others);
    SameJoinOutside(before, after, catalog, scope, others);
    BarsComeFromRows(level, before, catalog, others, scope);
    BarsComeFromRows(level, after, catalog, others, scope);
  }

  lemma {:induction false} SameJoinOutside(before: Curated, after: Curated, catalog: Catalog, scope: Scope,
      others: Scope)
    requires Outside(scope, before) == Outside(scope, after)
    requires others == Only((set k | k in before.Keys + after.Keys && !scope.Has(k.inst) :: k.inst))
    ensures Within(Join(before, catalog, AllInstruments), others)
        == Within(Join(after, catalog, AllInstruments), others)
  {
    forall k: Key | others.Has(k.inst) ensures k in before <==> k in after
      ensures k in before ==> before[k] == after[k]
    {
      assert k in before && !scope.Has(k.inst) ==> k in Outside(scope, before);
      assert k in after && !scope.Has(k.inst) ==> k in Outside(scope, after);
    }
  }

  /** A bar outside the scope belongs to an instrument that has rows outside the scope. */
  lemma {:induction false} BarsComeFromRows(level: Level, curated: Curated, catalog: Catalog, others: Scope,
      scope: Scope)
    requires others.Only? && forall k :: k in curated && !scope.Has(k.inst) ==> k.inst in others.ids
    requires forall i :: i in others.ids ==> !scope.Has(i)
    ensures BarsWithin(FromScratch(level, curated, catalog), others)
      == set b | b in FromScratch(level, curated, catalog) && !scope.Has(b.inst)
  {
  }

  /** Rebuilding again, with nothing changed, leaves the table as it is. */
  lemma {:induction false} RebuildIsIdempotent(level: Level, table: Table, version: string, curated: Curated,
      catalog: Catalog, scope: Scope)
    ensures var once := Rebuilt(level, table, version, curated, catalog, scope);
      Rebuilt(level, once, version, curated, catalog, scope) == once
  {
  }

  /**
   Incremental view maintenance: if the table was what a full rebuild gives, and the curated rows changed only
   for instruments in the scope, then rebuilding the scope alone restores exactly that, once and for all.
   */
  lemma {:induction false} ScopedRebuildEqualsFullRebuild(level: Level, table: Table, version: string,
      before: Curated, after: Curated, catalog: Catalog, scope: Scope)
    requires Current(table, version) == FromScratch(level, before, catalog)
    requires Outside(scope, before) == Outside(scope, after)
    ensures var rebuilt := Rebuilt(level, table, version, after, catalog, scope);
      && Current(rebuilt, version) == FromScratch(level, after, catalog)
      && Rebuilt(level, rebuilt, version, after, catalog, scope) == rebuilt
  {
    CurrentOfRebuilt(level, table, version, after, catalog, scope);
    RebuildIsIdempotent(level, table, version, after, catalog, scope);
    UntouchedInstrumentsKeepTheirBars(level, before, after, catalog, scope);
  }
}
