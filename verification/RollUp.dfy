/** Rolling a session's 4-hour bars up gives its daily bar. */
module RollUp {
  import opened Sets
  import opened Types
  import opened Derive

  /** Joined rows as the queries see them: eligible, and one row a key. */
  ghost predicate WellFormed(rows: set<Joined>) {
    && (forall j :: j in rows ==> Eligible(j.key, j.row, j.interval))
    && OneRowAKey(rows)
  }

  predicate Clashes(a: Interval, b: Interval)
    requires a.Trading? && b.Trading?
  {
    a.date == b.date || a.opening == b.opening
  }

  /** The calendar has one interval for this date, and no other interval opens at the same time. */
  ghost predicate SoleInterval(rows: set<Joined>, inst: int, iv: Interval) {
    && iv.Trading? && iv.opening < iv.closing
    && forall j :: j in rows && j.key.inst == inst && j.interval.Trading? && Clashes(j.interval, iv) ==>
        j.interval == iv
  }

  /** The hourly rows of one session of one series. */
  function Session(rows: set<Joined>, inst: int, basis: Basis, iv: Interval): set<Joined> {
    set j | j in rows && j.key.inst == inst && j.key.basis == basis && j.interval == iv
  }

  function BucketOf(iv: Interval, j: Joined): int
    requires iv.Trading?
  {
    (j.key.time - iv.opening) / 14400
  }

  function InBucket(s: set<Joined>, iv: Interval, b: int): set<Joined>
    requires iv.Trading?
  {
    set j | j in s && BucketOf(iv, j) == b
  }

  /** How many 4-hour buckets a session has. */
  function Buckets(iv: Interval): int
    requires iv.Trading?
  {
    (SlotsOf(iv) + 3) / 4
  }

  function DayGroup(inst: int, basis: Basis, iv: Interval): Group
    requires iv.Trading?
  {
    Group(inst, basis, Day(iv.date, SlotsOf(iv)))
  }

  function BucketGroup(inst: int, basis: Basis, iv: Interval, b: int): Group
    requires iv.Trading?
  {
    Group(inst, basis, Bucket(iv.opening, b, SlotsOf(iv)))
  }

  /** With one interval a date, the query groups are the session and its buckets. */
  lemma {:induction false} GroupsOfSession(rows: set<Joined>, inst: int, basis: Basis, iv: Interval, b: int)
    requires WellFormed(rows) && SoleInterval(rows, inst, iv)
    ensures Members(Days, rows, DayGroup(inst, basis, iv)) == Session(rows, inst, basis, iv)
    ensures Members(FourHours, rows, BucketGroup(inst, basis, iv, b)) == InBucket(Session(rows, inst, basis, iv), iv, b)
  {
  }

  // ---- Slots, buckets and quotas ----

  /** A session of the given rows: same series, same interval, whole hours from the opening. */
  ghost predicate IsSession(s: set<Joined>, iv: Interval) {
    && iv.Trading? && iv.opening < iv.closing
    && (forall j :: j in s ==> iv.opening <= j.key.time < iv.closing && (j.key.time - iv.opening) % 3600 == 0)
    && (forall j, k :: j in s && k in s && j.key.time == k.key.time ==> j == k)
  }

  lemma {:induction false} SessionIsSession(rows: set<Joined>, inst: int, basis: Basis, iv: Interval)
    requires WellFormed(rows) && SoleInterval(rows, inst, iv)
    ensures IsSession(Session(rows, inst, basis, iv), iv) && OneSeries(Session(rows, inst, basis, iv))
  {
  }

  function Slot(iv: Interval, j: Joined): int
    requires iv.Trading?
  {
    (j.key.time - iv.opening) / 3600
  }

  lemma {:induction false} SlotBounds(s: set<Joined>, iv: Interval, j: Joined)
    requires IsSession(s, iv) && j in s
    ensures 0 <= Slot(iv, j) < SlotsOf(iv)
    ensures j.key.time == iv.opening + 3600 * Slot(iv, j)
    ensures BucketOf(iv, j) == Slot(iv, j) / 4
    ensures 0 <= BucketOf(iv, j) < Buckets(iv)
  {
  }

  /** The quota of bucket `b`: four slots, or what is left of the session. */
  function Quota(iv: Interval, b: int): int
    requires iv.Trading?
  {
    ExpectedSlots(Bucket(iv.opening, b, SlotsOf(iv)))
  }

  function QuotaSum(iv: Interval, b: nat): int
    requires iv.Trading?
  {
    if b == 0 then 0 else QuotaSum(iv, b - 1) + Quota(iv, b - 1)
  }

  lemma {:induction false} QuotasUpTo(iv: Interval, b: nat)
    requires iv.Trading? && iv.opening < iv.closing && b <= Buckets(iv)
    ensures QuotaSum(iv, b) == if 4 * b <= SlotsOf(iv) then 4 * b else SlotsOf(iv)
    ensures forall i :: 0 <= i < b ==> Quota(iv, i) >= 1
  {
    if b > 0 {
      QuotasUpTo(iv, b - 1);
    }
  }

  /** The quotas of a session's buckets add up to its slots. */
  lemma {:induction false} QuotasSumToSlots(iv: Interval)
    requires iv.Trading? && iv.opening < iv.closing
    ensures 1 <= SlotsOf(iv) && 1 <= Buckets(iv)
    ensures QuotaSum(iv, Buckets(iv)) == SlotsOf(iv)
  {
    QuotasUpTo(iv, Buckets(iv));
  }

  function Before(s: set<Joined>, iv: Interval, b: int): set<Joined>
    requires iv.Trading?
  {
    set j | j in s && BucketOf(iv, j) < b
  }

  /** Distinct rows of one bucket fill distinct slots, so there are no more of them than its quota. */
  lemma {:induction false} BucketFitsQuota(s: set<Joined>, iv: Interval, b: nat)
    requires IsSession(s, iv) && b < Buckets(iv)
    ensures |InBucket(s, iv, b)| <= Quota(iv, b)
  {
    QuotasUpTo(iv, Buckets(iv));
    var slots := Run(4 * b, Quota(iv, b));
    var used := SlotsUsed(iv, InBucket(s, iv, b));
    forall j | j in InBucket(s, iv, b) ensures Slot(iv, j) in slots {
      SlotBounds(s, iv, j);
    }
    DistinctSlots(s, iv, InBucket(s, iv, b));
    SubsetSize(used, slots);
  }

  function SlotsUsed(iv: Interval, part: set<Joined>): set<int>
    requires iv.Trading?
  {
    set j | j in part :: Slot(iv, j)
  }

  lemma {:induction false} DistinctSlots(s: set<Joined>, iv: Interval, part: set<Joined>)
    requires IsSession(s, iv) && part <= s
    ensures |SlotsUsed(iv, part)| == |part|
  {
    if part != {} {
      var j :| j in part;
      var rest := part - {j};
      DistinctSlots(s, iv, rest);
      forall k | k in rest ensures Slot(iv, k) != Slot(iv, j) {
        SlotBounds(s, iv, j);
        SlotBounds(s, iv, k);
      }
      assert SlotsUsed(iv, part) == SlotsUsed(iv, rest) + {Slot(iv, j)};
    }
  }

  function Run(first: int, n: nat): (r: set<int>)
    ensures forall i :: i in r <==> first <= i < first + n
    ensures |r| == n
  {
    if n == 0 then {} else Run(first, n - 1) + {first + n - 1}
  }

  /** Counting buckets: the rows so far fill the quotas so far exactly when every bucket is full. */
  lemma {:induction false} FullExactlyWhenBucketsAre(s: set<Joined>, iv: Interval, b: nat)
    requires IsSession(s, iv) && b <= Buckets(iv)
    ensures |Before(s, iv, b)| <= QuotaSum(iv, b)
    ensures |Before(s, iv, b)| == QuotaSum(iv, b) <==>
      forall i :: 0 <= i < b ==> |InBucket(s, iv, i)| == Quota(iv, i)
  {
    if b == 0 {
      forall j | j in s ensures BucketOf(iv, j) >= 0 { SlotBounds(s, iv, j); }
      assert Before(s, iv, 0) == {};
    } else {
      FullExactlyWhenBucketsAre(s, iv, b - 1);
      BucketFitsQuota(s, iv, b - 1);
      assert Before(s, iv, b) == Before(s, iv, b - 1) + InBucket(s, iv, b - 1);
      assert Before(s, iv, b - 1) !! InBucket(s, iv, b - 1);
    }
  }

  lemma {:induction false} AllBeforeTheEnd(s: set<Joined>, iv: Interval)
    requires IsSession(s, iv)
    ensures Before(s, iv, Buckets(iv)) == s
  {
  }

  /** A session has all its slots exactly when every one of its buckets has its quota. */
  lemma {:induction false} SessionFullIffBucketsFull(s: set<Joined>, iv: Interval)
    requires IsSession(s, iv)
    ensures |s| == SlotsOf(iv) <==> forall b :: 0 <= b < Buckets(iv) ==> |InBucket(s, iv, b)| == Quota(iv, b)
    ensures forall b :: 0 <= b < Buckets(iv) ==> 1 <= Quota(iv, b)
  {
    QuotasSumToSlots(iv);
    QuotasUpTo(iv, Buckets(iv));
    AllBeforeTheEnd(s, iv);
    FullExactlyWhenBucketsAre(s, iv, Buckets(iv));
  }

  // ---- Volumes add up ----

  lemma {:induction false} AddVolumeAssociates(a: Option<real>, b: Option<real>, c: Option<real>)
    ensures AddVolume(AddVolume(a, b), c) == AddVolume(a, AddVolume(b, c))
    ensures AddVolume(a, None) == a
  {
  }

  lemma {:induction false} PartIsOneSeries(all: set<Joined>, part: set<Joined>)
    requires OneSeries(all) && part <= all
    ensures OneSeries(part)
  {
  }

  /** The volume of rows split by time is the volume of the earlier part plus that of the later part. */
  lemma {:induction false} VolumeSplits(early: set<Joined>, late: set<Joined>)
    requires OneSeries(early + late)
    requires forall a, b :: a in early && b in late ==> a.key.time < b.key.time
    ensures OneSeries(early) && OneSeries(late)
    ensures SumVolume(early + late) == AddVolume(SumVolume(early), SumVolume(late))
    decreases |early|
  {
    PartIsOneSeries(early + late, early);
    PartIsOneSeries(early + late, late);
    if early == {} {
      assert early + late == late;
    } else {
      var all := early + late;
      SomeTime(early);
      SomeTime(all);
      EarliestIsEarly(early, late);
      var t := Min(TimesIn(early));
      var here := RowsAt(early, t);
      FewerRows(early, here);
      assert all - here == (early - here) + late;
      PartIsOneSeries(all, (early - here) + late);
      VolumeSplits(early - here, late);
      VolumeStep(all, t, here);
      VolumeStep(early, t, here);
      SameRowAt(early, all, t);
      AddVolumeAssociates(Scale(|here|, RowAt(early, t).content.volume), SumVolume(early - here), SumVolume(late));
    }
  }

  lemma {:induction false} EarliestIsEarly(early: set<Joined>, late: set<Joined>)
    requires early != {} && TimesIn(early) != {} && TimesIn(early + late) != {}
    requires forall a, b :: a in early && b in late ==> a.key.time < b.key.time
    ensures Min(TimesIn(early + late)) == Min(TimesIn(early))
    ensures RowsAt(early + late, Min(TimesIn(early))) == RowsAt(early, Min(TimesIn(early)))
  {
    var first :| first in early && first.key.time == Min(TimesIn(early));
    assert Min(TimesIn(early)) in TimesIn(early + late);
    forall j | j in early + late ensures Min(TimesIn(early)) <= j.key.time {
      if j in early { assert j.key.time in TimesIn(early); }
    }
    var least :| least in early + late && least.key.time == Min(TimesIn(early + late));
  }

  lemma {:induction false} VolumeStep(rows: set<Joined>, t: int, here: set<Joined>)
    requires OneSeries(rows) && rows != {} && TimesIn(rows) != {}
    requires t == Min(TimesIn(rows)) && here == RowsAt(rows, t)
    ensures OneSeries(rows - here)
    ensures SumVolume(rows) == AddVolume(Scale(|here|, RowAt(rows, t).content.volume), SumVolume(rows - here))
  {
  }

  lemma {:induction false} SameRowAt(part: set<Joined>, all: set<Joined>, t: int)
    requires part <= all && OneSeries(all) && OneSeries(part) && t in TimesIn(part)
    ensures t in TimesIn(all) && RowAt(part, t) == RowAt(all, t)
  {
  }

  /** The volumes of the first `b` buckets, added bucket by bucket. */
  function BucketVolumes(s: set<Joined>, iv: Interval, b: nat): Option<real>
    requires iv.Trading? && OneSeries(s)
  {
    if b == 0 then None
    else
      PartIsOneSeries(s, InBucket(s, iv, b - 1));
      AddVolume(BucketVolumes(s, iv, b - 1), SumVolume(InBucket(s, iv, b - 1)))
  }

  lemma {:induction false} BucketVolumesAddUp(s: set<Joined>, iv: Interval, b: nat)
    requires iv.Trading? && IsSession(s, iv) && OneSeries(s)
    ensures OneSeries(Before(s, iv, b)) && SumVolume(Before(s, iv, b)) == BucketVolumes(s, iv, b)
  {
    hide Before, InBucket, BucketOf, IsSession, OneSeries;
    FirstBuckets(s, iv, b);
    PartIsOneSeries(s, Before(s, iv, b));
    if b > 0 {
      BucketVolumesAddUp(s, iv, b - 1);
      PartIsOneSeries(s, InBucket(s, iv, b - 1));
      VolumeSplits(Before(s, iv, b - 1), InBucket(s, iv, b - 1));
    }
  }

  /** The first buckets grow by one bucket, all of whose rows are later. */
  lemma {:induction false} FirstBuckets(s: set<Joined>, iv: Interval, b: nat)
    requires IsSession(s, iv)
    ensures Before(s, iv, b) <= s && (b == 0 ==> Before(s, iv, b) == {})
    ensures b > 0 ==> InBucket(s, iv, b - 1) <= s && Before(s, iv, b) == Before(s, iv, b - 1) + InBucket(s, iv, b - 1)
    ensures b > 0 ==> forall x, y :: x in Before(s, iv, b - 1) && y in InBucket(s, iv, b - 1) ==>
        x.key.time < y.key.time
  {
  }

  // ---- Prices and runs ----

  /** The 4-hour bar of bucket `b` of a session. */
  function BucketBar(s: set<Joined>, inst: int, basis: Basis, iv: Interval, verification: Option<string>,
      b: int): Derived
    requires iv.Trading? && OneSeries(s) && InBucket(s, iv, b) != {}
  {
    PartIsOneSeries(s, InBucket(s, iv, b));
    Aggregate(BucketGroup(inst, basis, iv, b), InBucket(s, iv, b), verification)
  }

  function DayBar(s: set<Joined>, inst: int, basis: Basis, iv: Interval, verification: Option<string>): Derived
    requires iv.Trading? && OneSeries(s) && s != {}
  {
    Aggregate(DayGroup(inst, basis, iv), s, verification)
  }

  lemma {:induction false} BucketsFollowTime(iv: Interval, x: Joined, y: Joined)
    requires iv.Trading? && x.key.time <= y.key.time
    ensures BucketOf(iv, x) <= BucketOf(iv, y)
  {
  }

  lemma {:induction false} TimesBound(s: set<Joined>, j: Joined)
    requires j in s
    ensures TimesIn(s) != {} && Min(TimesIn(s)) <= j.key.time <= Max(TimesIn(s))
  {
    assert j.key.time in TimesIn(s);
  }

  /** The bucket of the earliest (latest) row, and the times it holds. */
  lemma {:induction false} BucketOfRow(s: set<Joined>, iv: Interval, j: Joined)
    requires iv.Trading? && j in s
    ensures var part := InBucket(s, iv, BucketOf(iv, j));
      part != {} && TimesIn(part) != {} && j.key.time in TimesIn(part) && TimesIn(part) <= TimesIn(s)
  {
    var part := InBucket(s, iv, BucketOf(iv, j));
    assert j in part;
    TimesBound(part, j);
    assert part <= s;
  }

  lemma {:induction false} FirstBucket(s: set<Joined>, iv: Interval) returns (b: int)
    requires IsSession(s, iv) && s != {}
    ensures InBucket(s, iv, b) != {}
    ensures forall c :: InBucket(s, iv, c) != {} ==> b <= c
    ensures TimesIn(s) != {} && TimesIn(InBucket(s, iv, b)) != {}
    ensures Min(TimesIn(InBucket(s, iv, b))) == Min(TimesIn(s))
  {
    SomeTime(s);
    var first :| first in s && first.key.time == Min(TimesIn(s));
    b := BucketOf(iv, first);
    BucketOfRow(s, iv, first);
    forall c | InBucket(s, iv, c) != {} ensures b <= c {
      var j := Member(InBucket(s, iv, c));
      TimesBound(s, j);
      BucketsFollowTime(iv, first, j);
    }
  }

  lemma {:induction false} LastBucket(s: set<Joined>, iv: Interval) returns (b: int)
    requires IsSession(s, iv) && s != {}
    ensures InBucket(s, iv, b) != {}
    ensures forall c :: InBucket(s, iv, c) != {} ==> c <= b
    ensures TimesIn(s) != {} && TimesIn(InBucket(s, iv, b)) != {}
    ensures Max(TimesIn(InBucket(s, iv, b))) == Max(TimesIn(s))
  {
    SomeTime(s);
    var last :| last in s && last.key.time == Max(TimesIn(s));
    b := BucketOf(iv, last);
    BucketOfRow(s, iv, last);
    forall c | InBucket(s, iv, c) != {} ensures c <= b {
      var j := Member(InBucket(s, iv, c));
      TimesBound(s, j);
      BucketsFollowTime(iv, j, last);
    }
  }

  /** The daily open is the first 4-hour open, the daily close the last 4-hour close. */
  lemma {:induction false} OpenAndClose(s: set<Joined>, inst: int, basis: Basis, iv: Interval,
      v: Option<string>) returns (first: int, last: int)
    requires IsSession(s, iv) && OneSeries(s) && s != {}
    ensures InBucket(s, iv, first) != {} && InBucket(s, iv, last) != {}
    ensures forall b :: InBucket(s, iv, b) != {} ==> first <= b <= last
    ensures DayBar(s, inst, basis, iv, v).ohlc.open == BucketBar(s, inst, basis, iv, v, first).ohlc.open
    ensures DayBar(s, inst, basis, iv, v).ohlc.close == BucketBar(s, inst, basis, iv, v, last).ohlc.close
  {
    first := FirstBucket(s, iv);
    last := LastBucket(s, iv);
    PartIsOneSeries(s, InBucket(s, iv, first));
    PartIsOneSeries(s, InBucket(s, iv, last));
    SameRowAt(InBucket(s, iv, first), s, Min(TimesIn(s)));
    SameRowAt(InBucket(s, iv, last), s, Max(TimesIn(s)));
  }

  lemma {:induction false} BucketWithin(s: set<Joined>, iv: Interval, b: int)
    requires iv.Trading? && InBucket(s, iv, b) != {}
    ensures s != {} && Highs(s) != {} && Lows(s) != {} && Runs(s) != {}
    ensures Highs(InBucket(s, iv, b)) != {} && Lows(InBucket(s, iv, b)) != {} && Runs(InBucket(s, iv, b)) != {}
    ensures Highs(InBucket(s, iv, b)) <= Highs(s) && Lows(InBucket(s, iv, b)) <= Lows(s)
        && Runs(InBucket(s, iv, b)) <= Runs(s)
  {
    SomeOfEach(InBucket(s, iv, b));
    assert InBucket(s, iv, b) <= s;
  }

  /** No 4-hour bar reaches beyond its daily bar. */
  lemma {:induction false} BucketInsideDay(s: set<Joined>, inst: int, basis: Basis, iv: Interval,
      v: Option<string>, b: int)
    requires IsSession(s, iv) && OneSeries(s) && InBucket(s, iv, b) != {}
    ensures s != {}
    ensures Inside(BucketBar(s, inst, basis, iv, v, b), DayBar(s, inst, basis, iv, v))
  {
    BucketWithin(s, iv, b);
  }

  lemma {:induction false} HighIsAttained(s: set<Joined>, inst: int, basis: Basis, iv: Interval,
      v: Option<string>) returns (b: int)
    requires IsSession(s, iv) && OneSeries(s) && s != {}
    ensures InBucket(s, iv, b) != {}
        && BucketBar(s, inst, basis, iv, v, b).ohlc.high == DayBar(s, inst, basis, iv, v).ohlc.high
  {
    SomeOfEach(s);
    b := BucketOfHigh(s, iv);
    BucketWithin(s, iv, b);
  }

  lemma {:induction false} LowIsAttained(s: set<Joined>, inst: int, basis: Basis, iv: Interval,
      v: Option<string>) returns (b: int)
    requires IsSession(s, iv) && OneSeries(s) && s != {}
    ensures InBucket(s, iv, b) != {}
        && BucketBar(s, inst, basis, iv, v, b).ohlc.low == DayBar(s, inst, basis, iv, v).ohlc.low
  {
    SomeOfEach(s);
    b := BucketOfLow(s, iv);
    BucketWithin(s, iv, b);
  }

  lemma {:induction false} FirstRunIsAttained(s: set<Joined>, inst: int, basis: Basis, iv: Interval,
      v: Option<string>) returns (b: int)
    requires IsSession(s, iv) && OneSeries(s) && s != {}
    ensures InBucket(s, iv, b) != {}
        && BucketBar(s, inst, basis, iv, v, b).firstRun == DayBar(s, inst, basis, iv, v).firstRun
  {
    SomeOfEach(s);
    b := BucketOfRun(s, iv, Min(Runs(s)));
    BucketWithin(s, iv, b);
  }

  lemma {:induction false} LastRunIsAttained(s: set<Joined>, inst: int, basis: Basis, iv: Interval,
      v: Option<string>) returns (b: int)
    requires IsSession(s, iv) && OneSeries(s) && s != {}
    ensures InBucket(s, iv, b) != {}
        && BucketBar(s, inst, basis, iv, v, b).lastRun == DayBar(s, inst, basis, iv, v).lastRun
  {
    SomeOfEach(s);
    b := BucketOfRun(s, iv, Max(Runs(s)));
    BucketWithin(s, iv, b);
  }

  lemma {:induction false} BucketOfHigh(s: set<Joined>, iv: Interval) returns (b: int)
    requires iv.Trading? && Highs(s) != {}
    ensures InBucket(s, iv, b) != {} && Greatest(Highs(s)) in Highs(InBucket(s, iv, b))
  {
    var j :| j in s && j.row.content.ohlc.high == Greatest(Highs(s));
    b := BucketOf(iv, j);
    assert j in InBucket(s, iv, b);
  }

  lemma {:induction false} BucketOfLow(s: set<Joined>, iv: Interval) returns (b: int)
    requires iv.Trading? && Lows(s) != {}
    ensures InBucket(s, iv, b) != {} && Least(Lows(s)) in Lows(InBucket(s, iv, b))
  {
    var j :| j in s && j.row.content.ohlc.low == Least(Lows(s));
    b := BucketOf(iv, j);
    assert j in InBucket(s, iv, b);
  }

  lemma {:induction false} BucketOfRun(s: set<Joined>, iv: Interval, run: int) returns (b: int)
    requires iv.Trading? && run in Runs(s)
    ensures InBucket(s, iv, b) != {} && run in Runs(InBucket(s, iv, b))
  {
    var j :| j in s && j.row.run == run;
    b := BucketOf(iv, j);
    assert j in InBucket(s, iv, b);
  }

  /** The daily bar is complete exactly when every 4-hour bar of the session is there and complete. */
  lemma {:induction false} CompleteDay(s: set<Joined>, inst: int, basis: Basis, iv: Interval, v: Option<string>)
    requires IsSession(s, iv) && OneSeries(s) && s != {}
    ensures DayBar(s, inst, basis, iv, v).complete <==>
      forall b :: 0 <= b < Buckets(iv) ==> InBucket(s, iv, b) != {} && BucketBar(s, inst, basis, iv, v, b).complete
  {
    SessionFullIffBucketsFull(s, iv);
    forall b | 0 <= b < Buckets(iv)
      ensures |InBucket(s, iv, b)| == Quota(iv, b) <==>
        InBucket(s, iv, b) != {} && BucketBar(s, inst, basis, iv, v, b).complete
    {
    }
  }

  /** Valid hourly prices make a valid bar, at either level. */
  lemma {:induction false} AggregateIsValid(g: Group, rows: set<Joined>, v: Option<string>)
    requires rows != {} && OneSeries(rows)
    requires forall j :: j in rows ==> j.row.content.ohlc.Valid()
    ensures Aggregate(g, rows, v).ohlc.Valid()
  {
    SomeOfEach(rows);
    var first, last := Min(TimesIn(rows)), Max(TimesIn(rows));
    var a :| a in rows && a.key.time == first;
    var b :| b in rows && b.key.time == last;
    var h :| h in rows && h.row.content.ohlc.high == Greatest(Highs(rows));
    var l :| l in rows && l.row.content.ohlc.low == Least(Lows(rows));
    assert a.row.content.ohlc.high in Highs(rows) && b.row.content.ohlc.high in Highs(rows)
        && l.row.content.ohlc.high in Highs(rows);
    assert a.row.content.ohlc.low in Lows(rows) && b.row.content.ohlc.low in Lows(rows);
  }

  /** A 4-hour bar lies inside the daily bar. */
  predicate Inside(bar: Derived, day: Derived) {
    && bar.ohlc.high <= day.ohlc.high && day.ohlc.low <= bar.ohlc.low
    && day.firstRun <= bar.firstRun && bar.lastRun <= day.lastRun
  }

  /** The buckets that have rows. */
  function Present(s: set<Joined>, iv: Interval): (present: set<int>)
    requires iv.Trading?
    ensures forall b :: b in present <==> InBucket(s, iv, b) != {}
  {
    assert forall j :: j in s ==> j in InBucket(s, iv, BucketOf(iv, j));
    set j | j in s :: BucketOf(iv, j)
  }

  /** The 4-hour bar of every bucket that has rows. */
  function BarsOfSession(s: set<Joined>, inst: int, basis: Basis, iv: Interval, v: Option<string>): (bars: map<int,
      Derived>)
    requires IsSession(s, iv) && OneSeries(s)
    ensures forall b :: b in bars <==> InBucket(s, iv, b) != {}
    ensures forall b :: b in bars ==> bars[b] == BucketBar(s, inst, basis, iv, v, b)
  {
    map b | b in Present(s, iv) :: BucketBar(s, inst, basis, iv, v, b)
  }

  /** Rolling up: what the daily bar says, said by the 4-hour bars of the same session. */
  ghost predicate RollsUp(day: Derived, bars: map<int, Derived>, buckets: int) {
    && (exists first ::
          first in bars && (forall b :: b in bars ==> first <= b) && bars[first].ohlc.open == day.ohlc.open)
    && (exists last :: last in bars && (forall b :: b in bars ==> b <= last) && bars[last].ohlc.close == day.ohlc.close)
    && (forall b :: b in bars ==> Inside(bars[b], day))
    && (exists b :: b in bars && bars[b].ohlc.high == day.ohlc.high)
    && (exists b :: b in bars && bars[b].ohlc.low == day.ohlc.low)
    && (exists b :: b in bars && bars[b].firstRun == day.firstRun)
    && (exists b :: b in bars && bars[b].lastRun == day.lastRun)
    && day.volume == VolumesOf(bars, if buckets < 0 then 0 else buckets)
    && (day.complete <==> forall b :: 0 <= b < buckets ==> b in bars && bars[b].complete)
  }

  /** The volumes of the bars in the first `b` buckets, NULL when all of them are. */
  function VolumesOf(bars: map<int, Derived>, b: nat): Option<real> {
    if b == 0 then None
    else AddVolume(VolumesOf(bars, b - 1), if b - 1 in bars then bars[b - 1].volume else None)
  }

  lemma {:induction false} VolumesOfBars(s: set<Joined>, inst: int, basis: Basis, iv: Interval, v: Option<string>,
      b: nat)
    requires IsSession(s, iv) && OneSeries(s)
    ensures BucketVolumes(s, iv, b) == VolumesOf(BarsOfSession(s, inst, basis, iv, v), b)
  {
    if b > 0 {
      VolumesOfBars(s, inst, basis, iv, v, b - 1);
      PartIsOneSeries(s, InBucket(s, iv, b - 1));
    }
  }

  lemma {:induction false} SessionRollsUp(s: set<Joined>, inst: int, basis: Basis, iv: Interval, v: Option<string>)
    requires IsSession(s, iv) && OneSeries(s) && s != {}
    ensures RollsUp(DayBar(s, inst, basis, iv, v), BarsOfSession(s, inst, basis, iv, v), Buckets(iv))
  {
    hide DayBar, BucketBar, InBucket, VolumesOf, BucketVolumes, Inside;
    var first, last := OpenAndClose(s, inst, basis, iv, v);
    var h := HighIsAttained(s, inst, basis, iv, v);
    var l := LowIsAttained(s, inst, basis, iv, v);
    var f := FirstRunIsAttained(s, inst, basis, iv, v);
    var r := LastRunIsAttained(s, inst, basis, iv, v);
    var bars, day := BarsOfSession(s, inst, basis, iv, v), DayBar(s, inst, basis, iv, v);
    assert first in bars && last in bars && h in bars && l in bars && f in bars && r in bars;
    forall b | b in bars ensures Inside(bars[b], day) {
      BucketInsideDay(s, inst, basis, iv, v, b);
    }
    CompleteDay(s, inst, basis, iv, v);
    QuotasSumToSlots(iv);
    DayVolume(s, inst, basis, iv, v);
    VolumesOfBars(s, inst, basis, iv, v, Buckets(iv));
  }

  lemma {:induction false} DayVolume(s: set<Joined>, inst: int, basis: Basis, iv: Interval, v: Option<string>)
    requires IsSession(s, iv) && OneSeries(s) && s != {}
    ensures DayBar(s, inst, basis, iv, v).volume == BucketVolumes(s, iv, Buckets(iv))
  {
    QuotasSumToSlots(iv);
    AllBeforeTheEnd(s, iv);
    BucketVolumesAddUp(s, iv, Buckets(iv));
  }

  /**
   The stored tables agree: for every session with one interval on its date, the daily bar the full rebuild
   stores is the roll-up of the 4-hour bars the same rebuild stores.
   */
  lemma {:induction false} StoredDaysAreRolledUp(curated: Curated, catalog: Catalog, inst: int, basis: Basis,
      iv: Interval)
    requires var rows := Join(curated, catalog, AllInstruments);
      SoleInterval(rows, inst, iv) && Session(rows, inst, basis, iv) != {}
    ensures var rows := Join(curated, catalog, AllInstruments);
      var s, v := Session(rows, inst, basis, iv), VerificationOf(catalog, inst);
      && IsSession(s, iv) && OneSeries(s)
      && DayBar(s, inst, basis, iv, v) in FromScratch(Days, curated, catalog)
      && (forall b :: InBucket(s, iv, b) != {} ==>
          BucketBar(s, inst, basis, iv, v, b) in FromScratch(FourHours, curated, catalog))
      && RollsUp(DayBar(s, inst, basis, iv, v), BarsOfSession(s, inst, basis, iv, v), Buckets(iv))
  {
    hide DayBar, BucketBar, InBucket, Session, RollsUp, Bars;
    var rows := Join(curated, catalog, AllInstruments);
    JoinIsWellFormed(curated, catalog);
    SessionIsSession(rows, inst, basis, iv);
    var s, v := Session(rows, inst, basis, iv), VerificationOf(catalog, inst);
    SessionRollsUp(s, inst, basis, iv, v);
    StoredDay(rows, catalog, inst, basis, iv);
    forall b | InBucket(s, iv, b) != {}
      ensures BucketBar(s, inst, basis, iv, v, b) in FromScratch(FourHours, curated, catalog)
    {
      StoredBucket(rows, catalog, inst, basis, iv, b);
    }
  }

  lemma {:induction false} JoinIsWellFormed(curated: Curated, catalog: Catalog)
    ensures var rows := Join(curated, catalog, AllInstruments); Trade(rows) && WellFormed(rows)
  {
  }

  lemma {:induction false} StoredDay(rows: set<Joined>, catalog: Catalog, inst: int, basis: Basis, iv: Interval)
    requires Trade(rows) && WellFormed(rows) && SoleInterval(rows, inst, iv) && Session(rows, inst, basis, iv) != {}
    requires OneSeries(Session(rows, inst, basis, iv))
    ensures DayBar(Session(rows, inst, basis, iv), inst, basis, iv, VerificationOf(catalog, inst)) 
      in Bars(Days, rows, catalog)
  {
    GroupsOfSession(rows, inst, basis, iv, 0);
    var g := DayGroup(inst, basis, iv);
    assert g in Groups(Days, rows);
    assert BarOf(Days, rows, catalog, g) in Bars(Days, rows, catalog);
  }

  lemma {:induction false} StoredBucket(rows: set<Joined>, catalog: Catalog, inst: int, basis: Basis, iv: Interval,
      b: int)
    requires Trade(rows) && WellFormed(rows) && SoleInterval(rows, inst, iv)
    requires OneSeries(Session(rows, inst, basis, iv)) && InBucket(Session(rows, inst, basis, iv), iv, b) != {}
    ensures BucketBar(Session(rows, inst, basis, iv), inst, basis, iv, VerificationOf(catalog, inst), b)
      in Bars(FourHours, rows, catalog)
  {
    GroupsOfSession(rows, inst, basis, iv, b);
    var g := BucketGroup(inst, basis, iv, b);
    assert g in Groups(FourHours, rows);
    assert BarOf(FourHours, rows, catalog, g) in Bars(FourHours, rows, catalog);
  }

  /** Valid curated prices carry to every bar of both tables. */
  lemma {:induction false} StoredBarsAreValid(level: Level, curated: Curated, catalog: Catalog, b: Derived)
    requires forall k :: k in curated ==> curated[k].content.ohlc.Valid()
    requires b in FromScratch(level, curated, catalog)
    ensures b.ohlc.Valid()
  {
    var rows := Join(curated, catalog, AllInstruments);
    JoinShape(curated, catalog, AllInstruments);
    var g :| g in Groups(level, rows) && BarOf(level, rows, catalog, g) == b;
    MembersAreOneSeries(level, rows, g);
    AggregateIsValid(g, Members(level, rows, g), VerificationOf(catalog, g.inst));
  }
}
