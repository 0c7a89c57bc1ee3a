/**
 Session arithmetic. Five places split a trading session into hourly slots, each in its own way.
 Times here are whole microseconds, the resolution of the program's timestamps.
 */
module SessionSlots {

  const SECOND := 1_000_000
  const HOUR := 3600 * SECOND

  /** The derived tables: CEIL(duration / 3600). */
  function SlotCount(duration: int): int {
    -((-duration) / HOUR)
  }

  /** Bar normalisation: (duration - 1) // 3600 with the duration in (fractional) seconds. */
  function TerminalIndexByFloor(duration: int): int {
    (duration - SECOND) / HOUR
  }

  /** The scheduler: max(1, (int(duration) + 3599) // 3600) - 1. */
  function TerminalIndexByTruncation(duration: int): int
    requires 0 <= duration
  {
    var seconds := duration / SECOND;
    var expected := (seconds + 3599) / 3600;
    (if 1 < expected then expected else 1) - 1
  }

  /** Every slot start of a session, the last one possibly a short slot. */
  function SlotStarts(opening: int, closing: int): (starts: seq<int>)
    ensures forall i :: 0 <= i < |starts| ==> starts[i] == opening + i * HOUR
    ensures forall i :: 0 <= i < |starts| ==> opening <= starts[i] < closing
  {
    if opening < closing then
      seq(SlotCount(closing - opening), i requires 0 <= i < SlotCount(closing - opening) => opening + i * HOUR)
    else []
  }

  /** The imputation refresh walks the session hour by hour. */
  method ExpectedSlots(opening: int, closing: int) returns (expected: seq<int>)
    ensures expected == SlotStarts(opening, closing)
  {
    expected := [];
    var slot := opening;
    while slot < closing
      invariant slot == opening + |expected| * HOUR
      invariant expected != [] ==> slot - HOUR < closing
      invariant forall i :: 0 <= i < |expected| ==> expected[i] == opening + i * HOUR
      decreases closing - slot
    {
      expected := expected + [slot];
      slot := slot + HOUR;
    }
    if opening < closing {
      SlotCountIsCeiling(closing - opening);
    }
  }

  /** A session starts a slot in every started hour and in no other. */
  lemma {:induction false} SlotCountIsCeiling(duration: int)
    ensures (SlotCount(duration) - 1) * HOUR < duration <= SlotCount(duration) * HOUR
  {
  }

  /**
   Which terminal bar the four computations name, for every session of positive length.
   They agree on whole seconds; a fraction of a second past a full hour separates them.
   */
  lemma {:induction false} TerminalSlotAgreement(opening: int, closing: int)
    requires opening < closing
    ensures var d := closing - opening;
      var starts := SlotStarts(opening, closing);
      && starts != []
      && starts[|starts| - 1] == opening + (SlotCount(d) - 1) * HOUR
      && (TerminalIndexByFloor(d) == SlotCount(d) - 1 <==> !(0 < d % HOUR < SECOND))
      && (TerminalIndexByTruncation(d) == SlotCount(d) - 1 <==> d < HOUR || !(0 < d % HOUR < SECOND))
  {
    var d := closing - opening;
    var q, r := d / HOUR, d % HOUR;
    assert d == q * HOUR + r;
    CeilingByParts(q, r);
    FloorByParts(q, r);
    TruncationByParts(q, r);
  }

  lemma {:induction false} CeilingByParts(q: int, r: int)
    requires 0 <= r < HOUR
    ensures SlotCount(q * HOUR + r) == if r == 0 then q else q + 1
  {
  }

  lemma {:induction false} FloorByParts(q: int, r: int)
    requires 0 <= r < HOUR
    ensures TerminalIndexByFloor(q * HOUR + r) == if r < SECOND then q - 1 else q
  {
  }

  lemma {:induction false} TruncationByParts(q: int, r: int)
    requires 0 <= q && 0 <= r < HOUR
    ensures TerminalIndexByTruncation(q * HOUR + r) ==
      if q == 0 then 0 else if r < SECOND then q - 1 else q
  {
    var seconds := r / SECOND;
    assert (q * HOUR + r) / SECOND == q * 3600 + seconds;
    assert 0 <= seconds < 3600;
    assert (q * 3600 + seconds + 3599) / 3600 == if seconds == 0 then q else q + 1;
  }

  /** For sessions of whole seconds all four computations name the same terminal bar. */
  lemma {:induction false} WholeSecondsAgree(opening: int, closing: int)
    requires opening < closing && (closing - opening) % SECOND == 0
    ensures var d := closing - opening;
      TerminalIndexByFloor(d) == TerminalIndexByTruncation(d) == SlotCount(d) - 1 == |SlotStarts(opening, closing)| - 1
  {
    TerminalSlotAgreement(opening, closing);
    var d := closing - opening;
    WholeSecondRemainder(d);
  }

  lemma {:induction false} WholeSecondRemainder(d: int)
    requires d % SECOND == 0
    ensures !(0 < d % HOUR < SECOND)
  {
    var k := d / SECOND;
    assert d == k * SECOND;
    assert d % HOUR == (k % 3600) * SECOND by {
      assert d == (k / 3600) * HOUR + (k % 3600) * SECOND;
    }
  }

  /** Half a second past an hour: normalisation and the scheduler stop one slot early. */
  lemma {:induction false} SubSecondSessionsDisagree()
    ensures var d := HOUR + SECOND / 2;
      SlotCount(d) - 1 == 1 && TerminalIndexByFloor(d) == 0 && TerminalIndexByTruncation(d) == 0
  {
  }

  /** The first bar start the scheduler considers. */
  function FirstStart(opening: int, alignToHour: bool): (first: int)
    ensures opening <= first < opening + HOUR
    ensures alignToHour ==> first % HOUR == 0
    ensures !alignToHour ==> first == opening
  {
    if alignToHour then
      var current := opening - opening % HOUR;
      if current < opening then current + HOUR else current
    else opening
  }

  /** `values` steps hour by hour from `first` and stops where the next hour would pass `closing`. */
  ghost predicate AllWholeHours(values: seq<int>, first: int, closing: int) {
    && (forall i :: 0 <= i < |values| ==> values[i] == first + i * HOUR)
    && (forall i :: 0 <= i < |values| ==> values[i] + HOUR <= closing)
    && closing < first + |values| * HOUR + HOUR
  }

  /** The bars whose whole hour lies in the session once the margins are taken off. */
  method FullyContainedHourStarts(openTime: int, closeTime: int, alignToHour: bool, openingDelay: int, closingLead: int)
    returns (values: seq<int>)
    ensures AllWholeHours(values, FirstStart(openTime + openingDelay, alignToHour), closeTime - closingLead)
  {
    var opening := openTime + openingDelay;
    var closing := closeTime - closingLead;
    var current := opening;
    if alignToHour {
      current := opening - opening % HOUR;
      if current < opening {
        current := current + HOUR;
      }
    }
    values := [];
    while current + HOUR <= closing
      invariant current == FirstStart(opening, alignToHour) + |values| * HOUR
      invariant forall i :: 0 <= i < |values| ==>
        values[i] == FirstStart(opening, alignToHour) + i * HOUR && values[i] + HOUR <= closing
      decreases closing - current
    {
      values := values + [current];
      current := current + HOUR;
    }
  }

  /**
   Without alignment or margins the scheduler's bars are the session's slots except the terminal one,
   which is listed exactly when the session is a whole number of hours.
   */
  lemma {:induction false} ContainedHoursAreTheSlots(opening: int, closing: int, values: seq<int>)
    requires opening < closing
    requires AllWholeHours(values, FirstStart(opening, false), closing)
    ensures var starts := SlotStarts(opening, closing);
      values == if (closing - opening) % HOUR == 0 then starts else starts[..|starts| - 1]
  {
    var d := closing - opening;
    CeilingByParts(d / HOUR, d % HOUR);
    var starts := SlotStarts(opening, closing);
    if values != [] {
      assert values[|values| - 1] == opening + (|values| - 1) * HOUR;
    }
    assert |values| * HOUR <= d < (|values| + 1) * HOUR;
    assert |values| == d / HOUR;
  }

  /** With hour alignment the scheduler lists exactly the whole UTC hours that fit the margins. */
  lemma {:induction false} AlignedHoursAreAll(opening: int, closing: int, values: seq<int>, t: int)
    requires AllWholeHours(values, FirstStart(opening, true), closing)
    ensures t in values <==> t % HOUR == 0 && opening <= t && t + HOUR <= closing
  {
    var first := FirstStart(opening, true);
    if t % HOUR == 0 && opening <= t && t + HOUR <= closing {
      AlignedDistance(first, t);
      var k := (t - first) / HOUR;
      assert t == first + k * HOUR;
      assert opening <= t && first < opening + HOUR ==> k > -1;
      assert k < |values|;
      assert values[k] == t;
    }
    if t in values {
      var i :| 0 <= i < |values| && values[i] == t;
      assert t == first + i * HOUR;
      AlignedSum(first, i);
    }
  }

  lemma {:induction false} AlignedDistance(a: int, b: int)
    requires a % HOUR == 0 && b % HOUR == 0
    ensures b == a + ((b - a) / HOUR) * HOUR
  {
    assert b - a == (b / HOUR - a / HOUR) * HOUR;
  }

  lemma {:induction false} AlignedSum(a: int, i: int)
    requires a % HOUR == 0
    ensures (a + i * HOUR) % HOUR == 0
  {
    assert a + i * HOUR == (a / HOUR + i) * HOUR;
  }
}
