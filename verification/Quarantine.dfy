/** The narrowly scoped quarantine of crossed FX extrema in a full refetch. */
module Quarantine {
  import opened Sets
  import opened Types

  const MAX_QUARANTINED_ROWS := 10
  /** A rate of 0.0001: at most one rejected row in this many. */
  const ROWS_PER_REJECTION := 10000

  /** A rejected sample. Its evidence (error code and violated fields) is opaque. */
  datatype Rejected = Rejected(time: int, evidence: string, version: Option<int>, payload: string) {
    predicate SameEvidence(other: Rejected) { evidence == other.evidence && version == other.version }
  }

  datatype QuarantineError =
    AcceptedRejectedConflict | DuplicateConflict | LatestSampleIneligible | RowLimitExceeded | RateLimitExceeded

  function RejectedTimes(rows: seq<Rejected>): set<int> { set r | r in rows :: r.time }

  /** No time is both accepted and rejected, and repeated rejections of a time tell the same story. */
  predicate Clean(accepted: set<int>, rows: seq<Rejected>) {
    && (forall r :: r in rows ==> r.time !in accepted)
    && (forall a, b :: a in rows && b in rows && a.time == b.time ==> a.SameEvidence(b))
  }

  /** At most ten times, at most one in ten thousand, and never the newest. */
  predicate WithinLimits(accepted: set<int>, rejected: set<int>) {
    rejected != {} ==>
      && Max(accepted + rejected) !in rejected
      && |rejected| <= MAX_QUARANTINED_ROWS
      && |rejected| * ROWS_PER_REJECTION <= |accepted + rejected|
  }

  predicate Quarantinable(accepted: set<int>, rows: seq<Rejected>) {
    Clean(accepted, rows) && WithinLimits(accepted, RejectedTimes(rows))
  }

  /** The dictionary of the rows so far holds one row a time, with the evidence of all of them. */
  ghost predicate Collects(byTime: map<int, Rejected>, rows: seq<Rejected>) {
    && byTime.Keys == RejectedTimes(rows)
    && (forall t :: t in byTime ==> byTime[t] in rows && byTime[t].time == t)
  }

  lemma {:induction false} CollectNext(byTime: map<int, Rejected>, rows: seq<Rejected>, r: Rejected)
    requires Collects(byTime, rows)
    ensures Collects(byTime[r.time := r], rows + [r])
  {
  }

  lemma {:induction false} StaysClean(accepted: set<int>, byTime: map<int, Rejected>, rows: seq<Rejected>, r: Rejected)
    requires Clean(accepted, rows) && Collects(byTime, rows)
    ensures Clean(accepted, rows + [r]) <==>
        r.time !in accepted && (r.time in byTime ==> byTime[r.time].SameEvidence(r))
  {
  }

  lemma {:induction false} DirtForever(accepted: set<int>, rows: seq<Rejected>, n: nat)
    requires n <= |rows| && !Clean(accepted, rows[..n])
    ensures !Clean(accepted, rows)
  {
  }

  method CollectRejected(accepted: set<int>, rows: seq<Rejected>) returns (r: Result<map<int, Rejected>,
      QuarantineError>)
    ensures r.Ok? <==> Clean(accepted, rows)
    ensures r.Ok? ==> Collects(r.value, rows)
    ensures r.Err? ==> r.error in {AcceptedRejectedConflict, DuplicateConflict}
  {
    hide Clean, Collects;
    var byTime: map<int, Rejected> := map[];
    assert Clean(accepted, []) && Collects(map[], []) by { NothingCollected(accepted); }
    for i := 0 to |rows|
      invariant Clean(accepted, rows[..i]) && Collects(byTime, rows[..i])
    {
      var rejected := rows[i];
      assert rows[..i + 1] == rows[..i] + [rejected];
      StaysClean(accepted, byTime, rows[..i], rejected);
      CollectNext(byTime, rows[..i], rejected);
      if rejected.time in accepted {
        DirtForever(accepted, rows, i + 1);
        return Err(AcceptedRejectedConflict);
      }
      if rejected.time in byTime && !byTime[rejected.time].SameEvidence(rejected) {
        DirtForever(accepted, rows, i + 1);
        return Err(DuplicateConflict);
      }
      byTime := byTime[rejected.time := rejected];
    }
    assert rows[..|rows|] == rows;
    r := Ok(byTime);
  }

  lemma {:induction false} NothingCollected(accepted: set<int>)
    ensures Clean(accepted, []) && Collects(map[], [])
  {
  }

  /** The unique rejected rows in time order, or the first reason to refuse the whole refetch. */
  method ValidateQuarantine(accepted: set<int>, rows: seq<Rejected>) returns (r: Result<seq<Rejected>, QuarantineError>)
    ensures r.Ok? <==> Quarantinable(accepted, rows)
    ensures r.Ok? ==> |r.value| == |RejectedTimes(rows)|
    ensures r.Ok? ==>
      forall i :: 0 <= i < |r.value| ==> r.value[i] in rows && r.value[i].time == Sorted(RejectedTimes(rows))[i]
    ensures r == Err(RowLimitExceeded) ==> |RejectedTimes(rows)| > MAX_QUARANTINED_ROWS
    ensures r == Err(RateLimitExceeded) ==> |RejectedTimes(rows)| <= MAX_QUARANTINED_ROWS
  {
    hide Clean;
    var collected := CollectRejected(accepted, rows);
    if collected.Err? {
      return Err(collected.error);
    }
    var byTime := collected.value;
    if byTime.Keys == {} {
      return Ok([]);
    }
    var observed := accepted + byTime.Keys;
    if Max(observed) in byTime {
      return Err(LatestSampleIneligible);
    }
    if |byTime.Keys| > MAX_QUARANTINED_ROWS {
      return Err(RowLimitExceeded);
    }
    if |byTime.Keys| * ROWS_PER_REJECTION > |observed| {
      return Err(RateLimitExceeded);
    }
    var times := Sorted(byTime.Keys);
    r := Ok(seq(|times|, i requires 0 <= i < |times| => assert times[i] in byTime.Keys; byTime[times[i]]));
  }

  /** No rejected time was also accepted, and rows of one time agree in their evidence and their version. */
  predicate Consistent(accepted: set<int>, rows: seq<Rejected>) {
    && (forall r :: r in rows ==> r.time !in accepted)
    && (forall a, b :: a in rows && b in rows && a.time == b.time ==>
          a.evidence == b.evidence && a.version == b.version)
  }

  /** At most ten times set aside, of ten thousand shown for each, and a later one accepted. */
  ghost predicate Sparse(accepted: set<int>, rejected: set<int>) {
    && |rejected| <= 10 && 10000 * |rejected| <= |accepted| + |rejected|
    && exists a :: a in accepted && forall t :: t in rejected ==> t < a
  }

  /** Exactly what may be set aside. */
  lemma {:induction false} QuarantineExactly(accepted: set<int>, rows: seq<Rejected>)
    ensures Quarantinable(accepted, rows) <==>
        Consistent(accepted, rows) && (rows == [] || Sparse(accepted, set r | r in rows :: r.time))
  {
    var rejected := RejectedTimes(rows);
    assert rejected == set r | r in rows :: r.time;
    if rows != [] {
      assert rows[0].time in rejected;
      if Consistent(accepted, rows) {
        assert accepted !! rejected;
        assert |accepted + rejected| == |accepted| + |rejected|;
        NewestIsAccepted(accepted, rejected);
      }
    }
  }

  lemma {:induction false} NewestIsAccepted(accepted: set<int>, rejected: set<int>)
    requires accepted !! rejected && rejected != {}
    ensures Max(accepted + rejected) !in rejected <==> exists a :: a in accepted && forall t :: t in rejected ==> t < a
  {
    var newest := Max(accepted + rejected);
    if newest !in rejected {
      assert newest in accepted && forall t :: t in rejected ==> t < newest;
    }
  }

  /** What a non-empty quarantine needs: a long history, whose newest sample was accepted. */
  lemma {:induction false} QuarantineNeedsALongHistory(accepted: set<int>, rows: seq<Rejected>)
    requires Quarantinable(accepted, rows) && rows != []
    ensures |accepted| >= ROWS_PER_REJECTION - 1
    ensures accepted != {} && forall r :: r in rows ==> r.time < Max(accepted)
  {
    var rejected := RejectedTimes(rows);
    assert rows[0].time in rejected;
    assert accepted !! rejected;
    assert |accepted + rejected| == |accepted| + |rejected|;
    var newest := Max(accepted + rejected);
    assert newest in accepted;
    forall r | r in rows ensures r.time < Max(accepted) {
      assert r.time in rejected;
    }
  }
}
