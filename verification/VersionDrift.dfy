/** Two things an ordinary incremental run can do: open the gate for another data version, and go back in time. */
module VersionDrift {
  import opened Types
  import opened Store
  import opened Samples
  import opened SampleRuns
  import Acquisition

  function KnownVersion(db: Db): Option<int> {
    if SERIES in db.watermarks then db.watermarks[SERIES].version else None
  }

  /** The day up to its 22nd hour, under version 1. */
  const ONBOARDED := Onboarded(21, 22 * 3600)

  // ---- A version that changes without a review ----

  /** The next hour, from a response without a version. */
  const UNVERSIONED := Acquired(1, 22, OPEN, None, 23 * 3600)
  const FORGOTTEN := Next(ONBOARDED, 2, UNVERSIONED, 23 * 3600)

  /** The last hour, under version 2. */
  const RENEWED := Acquired(2, 23, OPEN, Some(2), CLOSE)
  const DRIFTED := Next(FORGOTTEN, 3, RENEWED, CLOSE)

  lemma {:induction false} ForgottenStands()
    ensures Stands(FORGOTTEN, 2, Mark(2, 22, OPEN, None)) && Stores(FORGOTTEN.market.curated, 22, OPEN)
    ensures Acquisition.Acquires(ONBOARDED.market.curated, CATALOG, UNVERSIONED, Served(22, FLAT, None, 23 * 3600))
  {
    hide Next, Onboarded, Stores, Acquisition.Acquires, ApplyCommit, Acquired, Staged;
    OnboardedStands(21, 22 * 3600);
    AcquiresOpen(ONBOARDED.market.curated, 21, OPEN, 22, FLAT, None, 23 * 3600);
    NextStands(ONBOARDED, 1, Mark(1, 21, OPEN, Some(1)), 1, 22, OPEN, None, 23 * 3600);
    UpsertExtends(ONBOARDED.market.curated, 21, OPEN, 2, 1, 22, OPEN, None, 23 * 3600);
  }

  /**
   Onboarded under version 1, then updated once by bars without a version, a series accepts bars of version 2:
   no warning is recorded and no review takes place. Both runs acquire what the provider serves from the overlap on.
   */
  lemma {:induction false} VersionChangesWithoutReview()
    ensures Acquisition.Acquires(ONBOARDED.market.curated, CATALOG, UNVERSIONED, Served(22, FLAT, None, 23 * 3600))
    ensures Acquisition.Acquires(FORGOTTEN.market.curated, CATALOG, RENEWED, Served(23, FLAT, Some(2), CLOSE))
    ensures KnownVersion(ONBOARDED) == Some(1) && KnownVersion(FORGOTTEN) == None && KnownVersion(DRIFTED) == Some(2)
    ensures DRIFTED.events == map[]
  {
    hide Next, Onboarded, Stores, Acquisition.Acquires, ApplyCommit, Acquired, Staged;
    OnboardedStands(21, 22 * 3600);
    ForgottenStands();
    AcquiresOpen(FORGOTTEN.market.curated, 22, OPEN, 23, FLAT, Some(2), CLOSE);
    NextStands(FORGOTTEN, 2, Mark(2, 22, OPEN, None), 2, 23, OPEN, Some(2), CLOSE);
  }

  // ---- A watermark that moves back ----

  /** The provider no longer serves its two newest hours. */
  const SHORTENED := Acquired(1, 19, OPEN, Some(1), 22 * 3600)
  const MOVED := Next(ONBOARDED, 2, SHORTENED, 22 * 3600)

  /** An incremental run overwrites the watermark: when the provider dropped its newest bars, it moves back. */
  lemma {:induction false} WatermarkMovesBack()
    ensures Acquisition.Acquires(ONBOARDED.market.curated, CATALOG, SHORTENED, Served(19, FLAT, Some(1), 22 * 3600))
    ensures SERIES in ONBOARDED.watermarks && SERIES in MOVED.watermarks
    ensures var before, after := ONBOARDED.watermarks[SERIES], MOVED.watermarks[SERIES];
      && before.latestSeen == 21 * 3600 && before.latestComplete == 20 * 3600
      && after.latestSeen == 19 * 3600 && after.latestComplete == 18 * 3600
  {
    hide Next, Onboarded, Stores, Acquisition.Acquires, ApplyCommit, Acquired, Staged;
    OnboardedStands(21, 22 * 3600);
    AcquiresOpen(ONBOARDED.market.curated, 21, OPEN, 19, FLAT, Some(1), 22 * 3600);
    NextStands(ONBOARDED, 1, Mark(1, 21, OPEN, Some(1)), 1, 19, OPEN, Some(1), 22 * 3600);
  }
}
