# Bar store and scheduler: a verified model

This project models the market-data store of the repository and the scheduler that drives it, and proves what they
keep over whole runs.

The **bar store** holds an append-only raw log, the curated latest rows, one watermark a series and two derived tables
(4-hour and daily bars). It is changed by incremental commits, full refetches, first commits of new series, bounded
revisions, recorded warnings and failures, and human reviews. Every database transaction is one atomic step: where a
statement would raise, the market tables stay as they were and only the run is marked. The **scheduler** polls, picks
the latest due slot of each lane, executes it, retries transient failures and records terminal blockers. Around the two
stand smaller cores: inclusive-boundary paging and page merging, window comparison and the window-expansion loop, the
FX quarantine, the recover-and-retry loop, the imputation planner, candidate acceptance, backup retention, and session
arithmetic.

## How it is built

One module a component, one file a module. `Store`, `Scheduler`, `Derive`, `Revision`, `Publication` and `Reconcile`
define the states and what each operation does to them. `MarketStores.MarketStore`, `SchedulerDaemons.SchedulerDaemon`
and `Publication.Row` are the objects the code updates in place; their methods follow the code statement by statement,
with loops, early exits and rollback, and each is proved to reach exactly the state the functions describe. The laws
are lemmas about those functions: `StoreLaws`, `CommitLaws`, `WatermarkLaws`, `EventLaws` and `Calendars` for the store,
`SchedulerLaws`, `BlockerLaws`, `RetryLaws`, `ContentionLaws`, `ContentionBounds`, `RestartLaws`, `Schedule` and
`PlannedLanes` for the scheduler. What an operation computes is also told without its functions, by what it was given
and by the state before and after: `TransactionLaws` for the transactions, `DerivedBars` for the two derived tables,
`RevisionRules` for the comparison and `PlannedSlots` for the schedule. `MarketStores.Serve` ties the two levels: any sequence of transactions performed by the
object keeps every law of the store.

The example runs of the store (`VersionDrift`, `RevisionRuns`) play on the hourly bars of `Samples` and `SampleRuns`: one
series, one verified session of 24 hours. `Acquisition` says what an incremental run acquires of what a provider serves:
everything from the overlap with the stored rows on, the last bar open unless a session proves it finished. Every
incremental run of an example is shown to acquire exactly that. `RivalRuns` builds the example runs of the scheduler.

Prices are exact rationals, times are whole seconds (whole microseconds in `SessionSlots`, where the fraction of a
second matters), payload hashes and error evidence are opaque. Every lemma switches automatic induction off, so a proof
is exactly what its body says.

## What the code does not promise

Some properties turned out to be false of the code. Each is shown by a concrete input or run, and the condition under
which the property does hold is proved.

- A ready comparison that finds a new data version but no changed content is never applied: the event stores no
  affected range, the guard is passed the last row of the window, and the two are compared with `IS DISTINCT FROM`
  (`CommitLaws.UnchangedContentIsNeverApplied`). Everything else being allowed, a ready revision is applied exactly when
  something is affected (`EventLaws.AppliedExactlyWhenAffected`). `RevisionRuns.ApprovedRevision` follows one series from
  the empty store through onboarding, update, warning and approval, before and after its last hour is finished: where
  the last row is stored complete and the provider changed no content the run fails, in every other case the revision
  is applied. The comment in the commit about replacing one boundary row describes a path that
  always rolls back.
- Stored rows are read between the first and the last row of the payload. For a payload out of time order the patched
  window can keep a stray row (`Revision.MisorderedPayloadLeavesAStrayRow`); it agrees with the provider exactly when no
  stored row behind the payload's last row escapes the affected range
  (`Revision.PatchAgreesExactlyWhenNothingIsHidden`).
- A known data version can be lost without an event. An incremental run that commits keeps the version of a series
  exactly when some bar it acquired for the series carries one (`WatermarkLaws.VersionIsKeptExactlyWhenCarried`), and
  never replaces one known version by another (`CommitLaws.VersionIsKeptOrForgotten`). A run of bars without a version
  clears it, after which any version is accepted without a warning or a review
  (`VersionDrift.VersionChangesWithoutReview`).
- An incremental run overwrites the watermark (there is no GREATEST in its UPDATE). The watermark stays or moves on
  exactly when the run acquired a bar no older than it, for the complete watermark a complete bar
  (`WatermarkLaws.WatermarkMovesBackExactly`); a provider that dropped its newest bars inside the overlap moves it back
  (`VersionDrift.WatermarkMovesBack`). Whatever the sequence of runs, a watermark names stored rows
  (`WatermarkLaws.WatermarksNameStoredRows`).
- The pages of a bounded revision are used as they were normalised, with every row marked complete
  (`market_db/normalize_bars.py:149`), whereas a merge of incremental pages leaves its last bar open
  (`Normalize.MergeShape`). An applied revision moves the complete watermark to the newest row of its last page unless
  it was further on, so the watermark names an hour that is over exactly when it did before and that row's hour is over
  too (`WatermarkLaws.RevisionCompletesItsLastRow`). A revision applied before the session's end calls the hour that is
  still forming complete (`RevisionRuns.RevisionCompletesAnOpenHour`).
- A bounded patch deletes the rows of every price basis of the instrument inside the range, so its row count is off by
  exactly the rows of the other bases (`CommitLaws.PatchedRowsAreConserved`). The registry fixes one basis an instrument
  (`market_db/instrument_registry.py:30-32`), so no module of the repository writes rows of a second one.
- The daily query groups by date and slot count, the daily table is keyed by date. The primary keys of both derived
  tables accept every curated table exactly when, in every calendar, sessions of one date have as many slots and buckets
  of different sessions start apart (`Calendars.KeysFitExactly`). The calendar writer of the repository
  (`market_db/session_calendar.py:258-280`) writes one session a date, and under such calendars no rebuild is ever
  refused (`Calendars.WrittenCalendarsFit`); only a calendar written from elsewhere can hold a date with two unequal
  sessions, and then a commit with bars in both rolls back (`Calendars.SplitDateRollsBack`).
- The four ways of finding a session's terminal slot agree on whole seconds; a fraction of a second past a full hour
  separates them (`SessionSlots.TerminalSlotAgreement`, `SessionSlots.SubSecondSessionsDisagree`).
- The recovery loop reports the status PASS together with an error exactly when its last refetch was answered for
  another instrument (`Reconcile.PassMeansRecovered`). A PASS without a run id counts towards the streak: an outcome of
  PASS reports all its ids exactly when each of the last required runs carried one (`Reconcile.ReportedIdsAreComplete`),
  and enough runs without ids end the loop with PASS and no ids (`Reconcile.PassesWithoutIdsCount`).
- A slot can be executed more than the four times its retries allow. In a run from a fresh start whose polls are at
  least the sleep of fifteen seconds apart, a slot of an instrument with two lanes is bounded by four exactly when at no
  time a slot of the other lane may run one poll after it could first run and one poll before it still can
  (`ContentionBounds.RetriesAreBoundedExactly`). The FX instruments have one lane (`PlannedLanes.FxSlotsAreUncontended`),
  and there the bound holds even without the sleep (`RetryLaws.RetriesAreBounded`); the exchange instruments have exactly
  two, sparse enough for the exact condition to speak of every slot of them
  (`PlannedLanes.ExchangePlanHasTwoLanes`). An hourly slot that is still open when the daily close comes due is such a
  case: the candidate of one lane drops the late-publication blocker of the other, and the hourly slot runs a fifth time
  (`RestartLaws.TwoLanesRetryAFifthTime`). Lanes that contend for long take turns: `n` retry delays of contention allow
  `n + 1` executions (`ContentionBounds.RivalsTakeTurns`), because an exception is not counted as an attempt. Executions
  of a slot are never less than thirty seconds apart, so within the catch-up age there are never more than 721
  (`ContentionLaws.ExecutionsAreBounded`), and two slots due together reach that number
  (`ContentionBounds.BoundIsReached`).
- An unexpected exception is recorded as an interface fault, which holds back only its own slot; after a restart the same
  blocker holds back every slot of the instrument (`RestartLaws.CrashBlocksAfterRestart`).
- Onboarding a candidate that is staged or published blocks it (`Publication.OnboardingTwiceBlocks`); three statuses of
  the imputation planner and three answers of candidate acceptance can never occur.
- Only a failure with one of two error codes makes a series stale (`CommitLaws.StaleComesFromFailures`), and no module of
  the repository raises either code, so under the present code no further series becomes ready for a full refetch or
  for a bounded revision of the older policy.

## Model

| member | source | states |
|---|---|---|
| StoreLaws.EveryRunIsConsistent | market_db/incremental_update.py:833-1061 | Over any sequence of transactions from the empty store the curated rows are the replay of the commit list over the raw log, every curated row equals the log row of the run it names, all prices satisfy the table's checks, and both derived tables equal a rebuild of every instrument although each commit rebuilt only its own. |
| StoreLaws.LogOnlyGrows | market_db/incremental_update.py:932-938 | No transaction, in any sequence, changes or removes a row of the raw log or takes back a commit. |
| StoreLaws.OtherInstrumentsAreUntouched | market_db/incremental_update.py:1026-1035 | A transaction leaves the market tables alone or makes one write; outside that write's instruments no curated row and no derived bar changes, nor does a derived bar of another derivation version. |
| StoreLaws.StepMovesRunsOn | market_db/incremental_update.py:1041-1062 | No transaction forgets a run, and none changes the row of a finished run. |
| StoreLaws.DerivedPricesAreValid | market_db/derive_bars.py:65-204 | In every reachable store each derived bar has positive prices bounded by its high and low. |
| StoreLaws.StoredSessionsRollUp | market_db/derive_bars.py:65-204 | In every reachable store the stored daily bar of a session alone on its date is the roll-up of the stored 4-hour bars of that session. |
| DerivedBars.StoredBarsDescribeTheirRows | market_db/derive_bars.py:65-204 | A bar is in the 4-hour table of a reachable store if and only if it describes the accepted hourly rows of four hours of a session, and in the daily table if and only if those of a date: open of an earliest row, close of a latest, high and low bounding all and met, volume the sum over any listing of the rows, first and last run bounding all and met, complete exactly when every expected slot has a row, and the quality case by case. |
| DerivedBars.EveryRowIsRolledUp | market_db/derive_bars.py:65-204 | Every accepted row of a reachable store lies in a stored 4-hour bar and in a stored daily bar of its series. |
| DerivedBars.OneBarAPlace | market_db/derive_bars.py:65-204 | In every reachable store no two bars of a derived table share instrument, time or date, and price basis. |
| MarketStores.Serve | market_db/incremental_update.py:747-1089 | An object that starts empty and performs any sequence of transactions ends in the state the model computes and keeps the invariants of the store and of the revision events. |
| MarketStores.MarketStore.CommitAcquired | market_db/incremental_update.py:747-1089 | The commit transaction, with its staging, insertion, watermark and rebuild statements and rollback, reaches the model's state and reports the inserted, updated and removed rows; it succeeds exactly when no statement raises. |
| MarketStores.MarketStore.CommitBounded | market_db/data_version_reconcile.py:689-913 | The bounded commit transaction reaches the model's state and succeeds exactly when every constraint and the guard allow it; otherwise nothing but the run changes. |
| MarketStores.MarketStore.Rebuild | market_db/derive_bars.py:15-211 | Deleting and reinserting both tables for a set of instruments gives the tables whose bars `DerivedBars.StoredBarsDescribeTheirRows` describes row by row, and is refused exactly when two groups share a primary key. |
| MarketStores.MarketStore.RunIncremental | market_db/incremental_update.py:1500-1698 | The gate over the acquired instruments decides between committing, recording a warning and failing, as the model says. |
| MarketStores.MarketStore.RunBounded | market_db/data_version_reconcile.py:969-1124 | Widening the window until a comparison decides, then applying the last window, recording the comparisons made and blocking, or failing, reaches the model's state. |
| MarketStores.MarketStore.RecordFailure | market_db/incremental_update.py:1135-1270 | The failure record marks the run, and for a version code of a single instrument its series and a detected event. |
| MarketStores.GateItems | market_db/incremental_update.py:1539-1655 | Walking the instruments in order, the first that does not pass decides the run. |
| MarketStores.ListRows | market_db/incremental_update.py:593-625 | The nested loops list one staged row for every bar of every instrument, in order. |
| CommitLaws.RowsAreConserved | market_db/incremental_update.py:833-926 | After an incremental or refetch commit the number of curated rows is the old number plus the reported insertions minus the reported removals. |
| CommitLaws.PatchedRowsAreConserved | market_db/data_version_reconcile.py:750-807 | After a bounded patch the number of curated rows is the old one plus insertions minus removals minus the rows of other price bases inside the range. |
| CommitLaws.ZeroCountsExactlyWhenStored | market_db/incremental_update.py:833-863 | A commit reports no insertion, update or removal exactly when its rows are stored already, with the same contents and versions, and a refetched instrument has no others. |
| CommitLaws.ZeroCountsMeanSameValues | market_db/incremental_update.py:833-863 | A commit that reports no insertion, update or removal leaves every key, content and data version as it was. |
| CommitLaws.BoundedRevisionEqualsReplacement | market_db/data_version_reconcile.py:703-807 | Whenever a bounded run changes the market tables, its last comparison was ready, the curated rows of the series have exactly the provider's times and contents over the whole window compared last, and every row outside the affected range stands. |
| CommitLaws.UnchangedContentIsNeverApplied | market_db/data_version_reconcile.py:703-712 | A bounded run whose last comparison is ready and finds nothing affected always ends as a failed run with nothing changed. |
| TransactionLaws.RevisionStartsExactly | market_db/data_version_reconcile.py:261-331 | A bounded run starts from a known version if and only if the series is stale, or current with an event whose application was approved for that version. |
| TransactionLaws.BoundedEndsExactly | market_db/data_version_reconcile.py:969-1124 | A bounded run that may not start changes nothing, fails if a window is refused, applies a ready last comparison, and otherwise records the comparisons and blocks. |
| TransactionLaws.EventIsPlacedExactly | market_db/data_version_reconcile.py:487-686 | Which event a bounded run reports to: the approved one while it stands so, else the first open one that waits for no review, else a new one unless a ready revision meets one that waits; it reports the comparisons as consecutive steps and no other event changes. |
| TransactionLaws.RevisionNeeds | market_db/data_version_reconcile.py:689-749 | What an applied revision needs of its run, its trigger, its event and the state of the series. |
| TransactionLaws.RevisionAllOrNothing | market_db/data_version_reconcile.py:689-913 | The same of the commit of a bounded revision. |
| TransactionLaws.RevisionLeaves | market_db/data_version_reconcile.py:750-807 | An applied revision puts the page in the log and, under every key of the instrument inside the affected range, the row of the page or none; all other rows stand. |
| TransactionLaws.RevisionEnds | market_db/data_version_reconcile.py:809-913 | It passes its run, installs the version in the watermark of its series alone, and closes its event, the review too if there was one. |
| RevisionRuns.ApprovedRevision | market_db/data_version_reconcile.py:969-1124 | From the empty store: a series is onboarded, updated, meets a new version, is approved and revised, every incremental run acquiring what the provider serves from the overlap on. If its last row was finished and the provider changed no content, the run fails and changes nothing; otherwise the last row is replaced, the version installed and the event applied. |
| RevisionRuns.RevisionCompletesAnOpenHour | market_db/normalize_bars.py:141-153 | In that example, revised half an hour before the last hour ends, the complete watermark moves from an hour that is over at the request time to one that is not. |
| CommitLaws.RefetchKeepsHistory | market_db/incremental_update.py:1780-1826 | A full refetch run either changes nothing but its own status, or passes and leaves exactly the accepted times; with the quarantined times they reach back at least as far as the old rows; no quarantined time is stored. |
| CommitLaws.VersionIsKeptOrForgotten | market_db/incremental_update.py:1593-1655 | An incremental run keeps a known data version or, only if none of the series' bars carries one, forgets it; it never installs another. |
| WatermarkLaws.VersionIsKeptExactlyWhenCarried | market_db/incremental_update.py:979-1022 | An incremental run that commits keeps the known data version of a series if and only if some bar acquired for the series carries one, and forgets it otherwise. |
| CommitLaws.StaleComesFromFailures | market_db/incremental_update.py:1181-1189 | A series becomes stale only through a recorded failure with a version code whose scope is a single instrument. |
| VersionDrift.VersionChangesWithoutReview | market_db/incremental_update.py:979-1022 | A three-run example in which a series goes from version 1 over no version to version 2 with no event recorded; both incremental runs acquire exactly what the provider serves from the overlap on. |
| VersionDrift.WatermarkMovesBack | market_db/incremental_update.py:1004-1022 | A two-run example: the provider no longer serves its two newest hours, the run acquires what is left from the overlap on, and both times of the watermark move back by two hours. |
| WatermarkLaws.WatermarkMovesBackExactly | market_db/incremental_update.py:979-1022 | After an incremental run that commits, the newest time seen of a series is no earlier than before if and only if the run acquired a bar that is no older; the same holds of the newest complete time and complete bars. |
| WatermarkLaws.RevisionCompletesItsLastRow | market_db/data_version_reconcile.py:809-831 | When a run over all-complete pages is applied, the complete watermark becomes the later of the old one and the newest time of the last page; at any request time it names an hour that is over if and only if both of these do. |
| Acquisition.OverlapIsCounted | market_db/incremental_update.py:288-306 | A series is refused for want of overlap exactly when it has fewer complete accepted rows than its overlap; otherwise the walk starts at such a row with exactly that many from it on. |
| Acquisition.SessionHoldsTime | market_db/incremental_update.py:325-345 | The session that may finish a bar is a verified one that holds its time from the opening on and before the close. |
| Acquisition.AcquiredBars | market_db/incremental_update.py:1578-1590 | A run acquires exactly the times the provider serves from the overlap start on, in order, all but the last bar complete. |
| CommitLaws.RecommitChangesNothing | market_db/incremental_update.py:833-863 | Committing the same rows again, under any later run, reports no insertion, no update and no removal. |
| TransactionLaws.CommitStoresItsBars | market_db/incremental_update.py:833-938 | After an incremental, full-refetch or first commit the curated row under every key is the acquired bar, accepted if and only if complete, or else the row from before unless its instrument was replaced; the log gains the acquired bars under the run and nothing else. |
| TransactionLaws.CommitNeeds | market_db/incremental_update.py:747-832 | What a commit needs: a running run, bars under keys of their own and new to the log, valid prices, a complete bar a series, series known exactly unless it is a first commit, and for a refetch its trigger and a stale series. |
| TransactionLaws.CommitAllOrNothing | market_db/incremental_update.py:747-1089 | A commit passes its run exactly when nothing in it raises; otherwise the run is failed and everything else is as it was. |
| TransactionLaws.CommitEnds | market_db/incremental_update.py:979-1062 | A commit passes its run and leaves every event and the watermarks of all other series alone. |
| TransactionLaws.CountsCompareTables | market_db/incremental_update.py:833-863 | The reported counts are those of the tables before and after: keys gained, keys whose values or version changed, and keys lost. |
| TransactionLaws.OnlyRunningRunsAct | market_db/incremental_update.py:1041-1062 | A run acts only while its row says it is running and is started once; a review needs no run. |
| TransactionLaws.OnboardingEndsExactly | market_db/fx_candidate_onboarding.py:817-1087 | A first commit with fewer than two rows blocks its run; otherwise it ends as its commit does. |
| TransactionLaws.IncrementalEndsExactly | market_db/incremental_update.py:1539-1698 | An incremental run is blocked where a series has no active watermark, commits where every response is fit and of the known version, and otherwise ends with the first that is not: failed if unfit, with a recorded warning if of another version. |
| TransactionLaws.WarningRecords | market_db/incremental_update.py:1273-1457 | A warning adds a pending event if none is open for the version, adds a step to the first that waits for its review, and fails the run if only other events are open or the run is not of the series. |
| TransactionLaws.FailureRecords | market_db/incremental_update.py:1135-1270 | A failure ends its run, and only a version code that concerns a single series makes the series of its instrument stale and may add a detected event. |
| TransactionLaws.ReviewDecides | market_db/data_version_reconcile.py:334-381 | A review decides an event that waits for one or was told to keep the current data, and changes nothing else. |
| TransactionLaws.RefetchEndsExactly | market_db/incremental_update.py:1701-1826 | A full refetch is blocked if the series is not stale, has no rows, or the response is too short or does not reach back to the oldest; it fails if the quarantine refuses the rows set aside or the response carries no version or several; otherwise it ends as its commit does. |
| WatermarkLaws.CommittedWatermarksAreTrue | market_db/incremental_update.py:979-1024 | After a commit each acquired series' watermark is active, names the run, and points at the newest row and the newest complete row that run stored. |
| WatermarkLaws.BoundedWatermarkMovesForward | market_db/data_version_reconcile.py:809-831 | A bounded revision never moves a watermark back, covers every row of the page, moves only to times of the page, and installs the new version. |
| WatermarkLaws.WatermarksNameStoredRows | market_db/incremental_update.py:979-1024 | Over any sequence of transactions on instruments of one price basis each, every watermark names a stored row it has seen and a stored complete row that is not later. |
| WatermarkLaws.VersionFailureMarksItsInstrument | market_db/incremental_update.py:1181-1189 | A version failure of one instrument makes exactly its series stale and changes nothing else of any watermark. |
| WatermarkLaws.CommittedRowsAreFit | market_db/incremental_update.py:1591-1604 | What an incremental run commits has at least two rows and a complete one a series, at most one version, no complete row in the future, and an active watermark before it. |
| EventLaws.EventsStayWellKept | market_db/data_version_reconcile.py:487-686 | Over any sequence of transactions every event's steps are numbered without gaps, a version of a series has at most one open event, and warning events wait for review until they are applied. |
| EventLaws.StepsNeverCollide | market_db/data_version_reconcile.py:639-683 | Whatever steps an event owns, new ones get numbers it does not use and change none of the old ones. |
| EventLaws.AppliedMeansApproved | db/migrations/0029_data_version_warning_review_policy.sql:158-198 | Over any run, a warning event that has been applied, or may be, was approved in a review before. |
| EventLaws.AppliedExactlyWhenAffected | db/migrations/0029_data_version_warning_review_policy.sql:200-269 | Where no constraint rejects the rows and the event can be placed, a ready revision is applied if and only if the comparison found an affected range. |
| Derive.ScopedRebuildEqualsFullRebuild | market_db/derive_bars.py:15-211 | If a table equals a full rebuild and curated rows change only for some instruments, rebuilding those instruments alone restores equality with a full rebuild, and rebuilding them again changes nothing. |
| Calendars.DailyKeysFitExactly | market_db/derive_bars.py:139-204 | The daily primary key accepts joined rows exactly when rows of one series and one date agree on the slots of their sessions. |
| Calendars.KeysFitExactly | market_db/derive_bars.py:65-204 | No rebuild of any curated table and any instruments violates a primary key exactly when, in every calendar, open sessions of one date have as many slots and two that share a bucket start share opening and slots. |
| Calendars.WrittenCalendarsFit | market_db/session_calendar.py:258-280 | With one session a date and sessions that do not overlap, as the calendar writer makes them, no rebuild is refused. |
| Calendars.SplitDateRollsBack | market_db/derive_bars.py:139-204 | Under a calendar with a one-hour and a two-hour session on one date, onboarding an instrument with a complete bar in each ends as a failed run with nothing written. |
| RollUp.StoredDaysAreRolledUp | market_db/derive_bars.py:65-204 | Of the bars a full rebuild gives, the daily bar of a session alone on its date has the open of its first and the close of its last 4-hour bar, their highest high, lowest low, volume sum and run range, and is complete exactly when every bucket is present and complete. |
| RollUp.SessionRollsUp | market_db/derive_bars.py:65-204 | The same for any set of hourly rows of one session, by open, close, high, low, runs, volume and completeness. |
| RollUp.QuotasSumToSlots | market_db/derive_bars.py:104-113 | The bucket quotas, four or what is left of the slots, add up to the session's slots. |
| RollUp.SessionFullIffBucketsFull | market_db/derive_bars.py:104-134 | A session has a row in every slot exactly when every bucket meets its quota. |
| RollUp.VolumeSplits | market_db/derive_bars.py:98-113 | A volume sum that skips NULLs splits along time into the sums of the parts. |
| RollUp.StoredBarsAreValid | market_db/normalize_bars.py:85-89 | Valid hourly prices give valid 4-hour and daily prices. |
| Revision.CompareRevisionWindow | market_db/data_version_reconcile.py:114-247 | The comparison loops and counters give the report and the decision, or the same refusal. |
| RevisionRules.RefusedWindows | market_db/data_version_reconcile.py:114-160 | Exactly when a window is refused, and for which of four reasons. |
| RevisionRules.ReportedChanges | market_db/data_version_reconcile.py:160-200 | The report lists the times whose content differs, the new times and the times gone, each in order, and the affected range is the least that holds them all. |
| RevisionRules.DecidedExactly | market_db/data_version_reconcile.py:200-247 | The decision and its reason from the report alone: more than 64 rows gone, more than 240 affected, or four fifths of the matched complete rows changed need a full refetch; without an anchor a wider window is asked for while there is one; otherwise the revision is ready. |
| Revision.RowsAreAccountedFor | market_db/data_version_reconcile.py:139-162 | Every provider row is matched or new, every stored row of the window is matched or removed, and differing and version-only rows are distinct matched rows. |
| Revision.ReadyIsProven | market_db/data_version_reconcile.py:173-226 | The anchor is the longest complete suffix before the affected range, and a ready decision is within the limits on anchors, removals and affected rows and starts behind the window's first row. |
| Revision.SuffixIsAnchored | market_db/data_version_reconcile.py:173-178 | Every row counted as an anchor is stored, complete and equal in content. |
| Revision.PatchEqualsReplacement | market_db/data_version_reconcile.py:114-226 | For a payload whose last row is its latest, a ready comparison means that patching the affected range alone makes the whole window equal to the provider's. |
| Revision.PatchAgreesExactlyWhenNothingIsHidden | market_db/data_version_reconcile.py:384-412 | For any payload, the patched window equals the provider's exactly when no stored row behind the payload's last row escapes the affected range. |
| Revision.MisorderedPayloadLeavesAStrayRow | market_db/data_version_reconcile.py:1029-1041 | A payload of eighteen rows, two of them swapped, is ready to apply and leaves a stray row. |
| Revision.NestedWindows | market_db/data_version_reconcile.py:155-167 | For windows that agree in times and contents, the affected rows of the smaller are those of the larger from its start on, so a wider window only moves the start back. |
| Revision.ExpansionOnlyMovesBack | market_db/data_version_reconcile.py:1015-1054 | Of any two comparisons the expansion loop makes of one series, each window fetched on its own, the later one's window and affected range start no later and end at the same row. |
| Revision.DiscoverRevision | market_db/data_version_reconcile.py:1015-1054 | The expansion loop makes one comparison a window, asks for the next only after EXPAND, ends with a decision that is not EXPAND, and stops without one exactly where a window is empty or its comparison is refused, with that reason. |
| Revision.WidestWindowDecides | market_db/data_version_reconcile.py:213-219 | At the widest window the answer is never to expand. |
| Paging.FetchChartPages | market_db/acquire_pages.py:39-77 | The request loop returns the pages, or the first error, that the paging rules give. |
| Paging.WalkEndsExactly | market_db/acquire_pages.py:39-77 | Against any provider the walk goes on as long as pages are full, in order and strictly beyond the cursor; the first page that is not, or the page limit, decides how it ends, and the pages before it are those fetched. |
| Paging.PagingIsComplete | market_db/acquire_pages.py:39-77 | Against an immutable series with pages of at least two samples, paging takes exactly floor((n-1)/(count-1))+1 pages, fails exactly when that exceeds the limit, and the merged pages are all n reachable samples in order. |
| Paging.ReachableSamples | market_db/acquire_pages.py:39-60 | The reachable samples are those at or after, or at or before, the requested time. |
| Paging.SingleSamplePagesFail | market_db/acquire_pages.py:66-76 | Pages of one sample always fail when anything is reachable. |
| Normalize.MergePages | market_db/normalize_bars.py:239-255 | The nested loops merge pages by first observation. |
| Normalize.MergeShape | market_db/normalize_bars.py:248-255 | The merge has strictly increasing times, exactly the observed ones, and exactly its last bar open. |
| Normalize.FirstObservationWins | market_db/normalize_bars.py:242-246 | The bar kept for a time is the first one seen in request order. |
| Normalize.MergeOfMerges | market_db/normalize_bars.py:239-255 | Merging two merged halves equals merging all pages. |
| Normalize.MarkTerminalSessionBarComplete | market_db/normalize_bars.py:258-312 | Only the latest bar can change, only from open to complete, and only as the session's terminal slot fetched after close plus the provider's delay. |
| Normalize.FinishedExactly | market_db/normalize_bars.py:258-312 | A latest row becomes complete if and only if it is open, is the last started hour of its session and was seen when the session was over for the provider delay; nothing else of it or of any other row changes. |
| Normalize.FinishedBarIsTheLastSlot | market_db/normalize_bars.py:302-303 | The bar finished this way starts the session's last slot as the derived tables count it. |
| Normalize.FxClassification | market_db/normalize_bars.py:92-152 | A sample is accepted, quarantined or fatal by its quotes alone, in exactly one way, and an accepted one has valid prices. |
| Normalize.FxPricesAreMid | market_db/normalize_bars.py:92-152 | Each price of an accepted FX bar is as far from its bid as from its ask; the sides, volume, trading state and provenance are those observed. |
| Normalize.FxErrors | market_db/normalize_bars.py:85-140 | Why a sample is refused: the bid is checked before the ask, prices for sign before order, and a crossing names exactly the crossed fields. |
| Normalize.NormalizeQuarantiningFxExtrema | market_db/normalize_bars.py:185-236 | The page is refused exactly when a sample is fatal; otherwise it is split into the accepted bars and the rows set aside, which `Normalize.AcceptedAreMid` and `Normalize.RejectedAreCrossed` tell sample by sample. |
| Normalize.QuarantinePartitions | market_db/normalize_bars.py:185-236 | No sample of a page without fatal ones is lost or counted twice. |
| Normalize.AcceptedAreMid | market_db/normalize_bars.py:185-236 | The accepted bars are the mid bars of the valid uncrossed samples of the page, in order and each once. |
| Normalize.RejectedAreCrossed | market_db/normalize_bars.py:185-236 | The rows set aside are the samples crossed only in their extremes, in order and each once. |
| Quarantine.ValidateQuarantine | market_db/incremental_update.py:644-719 | The rejected rows of a refetch pass exactly when none was also accepted, repeated rejections agree, there are at most ten and at most one in ten thousand, and none is the newest; the unique rows come back in time order. |
| Quarantine.QuarantineExactly | market_db/incremental_update.py:644-719 | Rows may be set aside exactly if none of their times was accepted, rows of one time agree, they are at most ten times and one in ten thousand, and a later time was accepted. |
| Quarantine.QuarantineNeedsALongHistory | market_db/incremental_update.py:52-53 | Any quarantined row needs at least 9999 accepted ones, the newest among them. |
| Reconcile.ReconcileIncremental | market_db/incremental_update.py:1898-2009 | The recovery loop ends for any answers of the world, and its outcome reports the one history those answers determine: each run and refetch was demanded by the steps before it, and the loop stopped where and as they demand. |
| Reconcile.OneOutcome | market_db/incremental_update.py:1917-2009 | The world's answers admit only one outcome. |
| Reconcile.WorkIsBounded | market_db/incremental_update.py:1945-2000 | At most required*(limit+1) normal runs and at most limit refetches are made, no instrument is refetched twice, and the reported list is a prefix of the refetches made. |
| Reconcile.PassMeansRecovered | market_db/incremental_update.py:1945-2009 | PASS without an error means that the last required steps were passing normal runs with nothing refetched among them; PASS with an error occurs exactly when the last refetch answered for another instrument. |
| Reconcile.BlockedEndsAreExplained | market_db/incremental_update.py:1945-2000 | An end that repeats no reported failure names a due refetch: of an instrument already refetched, over the limit, or of an instrument the failed run did not name. |
| Reconcile.ReportedIdsAreComplete | market_db/incremental_update.py:1971-1979 | An outcome of PASS without an error reports one id for each required pass if and only if each of the last required steps is an incremental run that carried an id. |
| Reconcile.RefetchesAreCalledFor | market_db/incremental_update.py:1944-2009 | Every refetch was asked for, at the start by the stale watermarks or later by the last failed run, with nothing but refetches in the order asked for in between; all but a last one passed for the instrument they were made for. |
| Reconcile.FailedRunsAreFollowed | market_db/incremental_update.py:1983-2002 | A failed run after which the loop goes on is followed by the refetch of the first instrument it asks for. |
| Reconcile.EndsWithItsLastRun | market_db/incremental_update.py:1993-2000 | A loop whose last run failed and asks for nothing reports that run, or the missing key where it needed one. |
| Reconcile.EndsWithItsLastRefetch | market_db/incremental_update.py:1957-1965 | A loop that ends with a refetch reports what it was refused for, or PASS with the mismatch. |
| Reconcile.PassesWithoutIdsCount | market_db/incremental_update.py:1971-1979 | When nothing is stale and the first required runs pass without ids, the loop ends with PASS and no ids. |
| Imputation.PlanSessionImputation | market_db/c2_imputation.py:138-320 | Every status names the first check that fails, in order; the plan is free of imputation exactly when the evidence is sound and nothing is missing, imputes exactly the approved gap under sound evidence, and otherwise fills nothing; three of the statuses never occur. |
| Imputation.ApprovedExactly | market_db/c2_imputation.py:35-57 | What is approved is the one gap on record of either instrument, in its reviewed version and from the one source bar on record, and the two rows filled in are flat bars at its close. |
| Imputation.ApprovedPlanIsBounded | market_db/c2_imputation.py:186-320 | An approved plan fills two neighbouring slots, never the terminal one, disjoint from and together with the actual bars covering the session, each at the close of the one bar on the left. |
| Imputation.GroupRuns | market_db/c2_imputation.py:201-206 | The missing slots are grouped into maximal runs of neighbours. |
| Publication.PublishedMeansTwoAcceptedRuns | market_db/fx_candidate_onboarding.py:1090-1224 | Over any sequence of commands a published candidate was staged by a gate that passed and then accepted by two passing runs whose complete times strictly increase past the staging baseline; in between it never left staging, no acceptance run failed and it was not onboarded again, and its history says so. |
| Publication.FailedRunBlocks | market_db/fx_candidate_onboarding.py:1135-1150 | A failed acceptance run takes a staged candidate to BLOCKED with counter 0 and leaves its baseline and history. |
| Publication.AdvancingRunCounts | market_db/fx_candidate_onboarding.py:1152-1224 | A passing run on a staged candidate is counted if and only if it moves the complete time on; the first keeps it staged, the second publishes it; any other changes nothing. |
| Publication.IdleAcceptance | market_db/fx_candidate_onboarding.py:1101-1134 | An acceptance of a candidate that is not staged changes nothing. |
| Publication.AcceptanceOfAnyRow | market_db/fx_candidate_onboarding.py:1090-1224 | On any stored row, the condition of every answer but the history error, and that an error changes nothing. |
| Publication.OlderRowIsCompleted | market_db/fx_candidate_onboarding.py:1170-1195 | A staged row that carries only its counter gets the entry of its first run when the second is accepted. |
| Publication.MisfitHistoryIsRefused | market_db/fx_candidate_onboarding.py:1170-1200 | A staged row whose counter and history do not fit is left alone. |
| Publication.OnboardingStagesOrBlocks | market_db/fx_candidate_onboarding.py:817-1087 | An onboarding stages a candidate exactly when it has no watermark and its gate passes with a complete time, and blocks it otherwise; what it leaves in every column. |
| Publication.FinalizingStagesOrKeeps | market_db/fx_candidate_onboarding.py:532-620 | Finalising stages a candidate that is neither staged nor published when its gate passes, and else changes nothing. |
| Publication.CandidateIsUntouched | market_db/fx_candidate_onboarding.py:158-229 | A candidate that no command has staged or blocked has no run, no time and no history. |
| Publication.EveryRunIsBacked | market_db/fx_candidate_onboarding.py:817-1224 | Over any sequence of commands the counter, history and baseline of a staged or published candidate are backed by the commands that were run. |
| Publication.AcceptanceNeverDisagreesWithItself | market_db/fx_candidate_onboarding.py:1090-1224 | The counter, history and baseline errors of acceptance cannot occur. |
| Publication.OnboardingTwiceBlocks | market_db/fx_candidate_onboarding.py:158-229 | Onboarding a staged or published candidate again blocks it. |
| Publication.Row.RunAcceptance | market_db/fx_candidate_onboarding.py:1090-1224 | The acceptance command updates the stored row and answers as the model says, which `Publication.FailedRunBlocks`, `Publication.AdvancingRunCounts` and `Publication.AcceptanceOfAnyRow` tell case by case. |
| Publication.Row.RunOnboarding | market_db/fx_candidate_onboarding.py:817-1087 | The onboarding command updates the stored row as the model says. |
| Publication.Row.FinalizeOnboarding | market_db/fx_candidate_onboarding.py:532-620 | The finalising command updates the stored row as the model says. |
| Retention.OnlineEqualsOffline | market_db/backup.py:375-429 | However backups arrive and prunings interleave, the directory holds everything one decision over the full history would keep, and the next decision keeps exactly that. |
| Retention.ArrivalsOnlyDisplace | market_db/backup.py:375-406 | Pruning before an arrival never loses a backup that the arrival leaves worth keeping. |
| Retention.Idempotent | market_db/backup.py:375-406 | Deciding again over what is kept keeps all of it. |
| Retention.AtMostElevenKept | market_db/backup.py:375-406 | At most seven daily and four weekly backups of a database are kept, its newest among them. |
| Retention.KeptByTheCalendar | market_db/backup.py:375-406 | A backup is kept if and only if it is the newest of its day and fewer than seven later days have one, or the newest of its week from Monday on and fewer than four later weeks have one. |
| Retention.PeriodsAreCalendarPeriods | market_db/backup.py:390-396 | Two backups fall into one daily period exactly if both lie in one stretch of 86400 seconds, and into one weekly period exactly if no Monday begins between them. |
| Retention.RetentionDecision | market_db/backup.py:375-406 | The loops keep exactly the recent daily and weekly representatives, delete the other recognised files, lose none and list both newest first. |
| Retention.CutOffIsKept | market_db/backup.py:390-402 | Cutting the representatives of a database off at the limit leaves exactly those of its most recent periods. |
| SchedulerLaws.LaneProgress | market_db/periodic_update.py:939-968 | With a clock that does not run backwards and a fixed schedule, a lane never executes an earlier slot again, and after a PASS only later ones: no slot passes twice and no superseded slot runs afterwards. |
| SchedulerLaws.ExecutedIsLatest | market_db/periodic_update.py:939-954 | What a poll executes is the latest slot of its lane that is due at all. |
| SchedulerLaws.CandidatesAre | market_db/periodic_update.py:939-954 | The candidates are, of every kind and set of instruments, the latest slot shown that is due, not completed and no more than six hours late. |
| SchedulerLaws.ByDueIsSorted | market_db/periodic_update.py:954 | Candidates come in order of due time. |
| SchedulerLaws.ByDueIsStable | market_db/periodic_update.py:954 | Candidates due at one time keep the order in which their lanes were met. |
| SchedulerLaws.BlockerSafety | market_db/periodic_update.py:747-768 | While the revision of its instruments does not change, a persistent blocker survives a poll and none of its instruments runs. |
| SchedulerLaws.BlockerSafetyOverRuns | market_db/periodic_update.py:1127-1182 | The same over whole daemon runs. |
| BlockerLaws.AppliesExactly | market_db/periodic_update.py:747-768 | A blocker holds a slot back exactly if it is in force, shares an instrument with it and stands at the present revision, and is of the slot itself if it tells of a late publication or the interface. |
| BlockerLaws.BlockersStayApart | market_db/periodic_update.py:1127-1220 | Over any run from a fresh start every stored blocker carries the signature of its own fields, and no instrument has two. |
| BlockerLaws.RecordedBlockersHold | market_db/periodic_update.py:1127-1182 | A persistent blocker that a run recorded survives every later poll while the revision stands, and none of its instruments runs. |
| BlockerLaws.SlotBoundSurvivesExactly | market_db/periodic_update.py:747-768 | A late-publication or interface blocker survives the selection of a poll if and only if the revision of its instrument is unchanged and no other slot of that instrument is reached, every candidate before it waiting or held back by a blocker that no earlier one drops; all of it can be told before the poll. |
| BlockerLaws.HeldSlotNeedsARival | market_db/periodic_update.py:1141-1161 | While the revision stands, the slot of such a blocker is executed only after another slot of its instrument was looked at in the same poll. |
| SchedulerLaws.FreeCandidateIsServed | market_db/periodic_update.py:1139-1161 | A candidate that no blocker applies to and that is not waiting is executed by the poll, unless one due no later is. |
| RetryLaws.RetriesAreBounded | market_db/periodic_update.py:1183-1220 | A slot that no other lane of its instrument contends with is executed at most four times in a daemon run, as long as no revision changes under a blocker recorded for it. |
| ContentionLaws.FifthNeedsARival | market_db/periodic_update.py:1141-1244 | In a run from a fresh start whose polls are at least fifteen seconds apart, a slot executed more than four times with no revision moving under its blockers was interfered with: a slot of another lane of its instrument could run one poll after it could first run and one poll before it still could. |
| ContentionLaws.ExecutionsAreBounded | market_db/periodic_update.py:1185-1244 | In such a run no slot is executed more than 721 times, the catch-up age divided by the retry delay, plus one, whatever contends with it and however executions end. |
| ContentionBounds.RetriesAreBoundedExactly | market_db/periodic_update.py:1141-1244 | For a slot of an instrument with two lanes, its lane at least four minutes apart: whatever else is scheduled, it is executed at most four times in every such run if and only if no slot of the other lane interferes with it at any time. |
| ContentionBounds.RivalsTakeTurns | market_db/periodic_update.py:905-916 | Two lanes that contend for n retry delays on end have a run from a fresh start, with fifteen seconds between polls and no revision changed, in which the slot is executed n + 1 times. |
| ContentionBounds.BoundIsReached | market_db/periodic_update.py:1127-1244 | Two slots of one instrument that come due together have such a run in which one of them is executed 721 times, the general bound. |
| PlannedLanes.ExchangePlanHasTwoLanes | market_db/periodic_update.py:393-471 | Under any plan of non-overlapping sessions of four minutes or more, the slots of an exchange instrument lie in two lanes, its hours and the daily closes, each spaced as the exact bound asks. |
| PlannedLanes.FxSlotsAreUncontended | market_db/periodic_update.py:327-392 | Under any plan of bars and sessions no other lane contends with a slot of an FX instrument. |
| RetryLaws.ExhaustedSlotWaits | market_db/periodic_update.py:1196-1220 | After a final failure such a slot runs again only if the revision under its blocker has changed. |
| RetryLaws.AttemptsAreSpaced | market_db/periodic_update.py:1185-1195 | After a transient failure that leaves attempts, the next execution of the slot is at least 30 seconds later. |
| RetryLaws.FailureLeaves | market_db/periodic_update.py:1183-1220 | After a failure of one of five kinds, up to the third, the slot only waits thirty seconds; any other failure leaves a blocker of the slot, the instruments named, the code and their revision, and clears or keeps the counter. |
| RetryLaws.PutReplaces | market_db/periodic_update.py:1205-1220 | A recorded blocker takes the place of the one with its signature or comes last; no other is lost. |
| RetryLaws.PassLeaves | market_db/periodic_update.py:1162-1182 | A PASS completes the lane up to the slot and clears the waiting time and counter of the slot and every blocker of its instruments, and nothing else. |
| RetryLaws.DomainsOfCodes | market_db/periodic_update.py:598-628 | Which codes tell of authorisation, the interface, late data and the source; an exhausted code belongs to the domain of what was retried. |
| RestartLaws.HistoryIsKept | market_db/periodic_update.py:1168-1179 | From a fresh start the completed set is everything ever appended and the stored list is its bounded history. |
| RestartLaws.RestartForgetsOnlyOldIds | market_db/periodic_update.py:1092-1095 | A restart forgets a completed slot exactly when at least 1024 distinct slots were completed after it. |
| RestartLaws.ProgressAcrossRestart | market_db/periodic_update.py:1092-1107 | Across a restart a lane goes on where it was, no slot passes twice and no superseded slot runs afterwards, as long as no slot in the catch-up window has 1024 distinct ids completed after it. |
| RestartLaws.RetriesAreBoundedAcrossRestart | market_db/periodic_update.py:1092-1107 | A slot that no other lane contends with is executed at most four times before and after a restart together, as long as no revision changes under its blockers and no slot in the catch-up window was pushed out of the bounded history. |
| RestartLaws.BlockersHoldAcrossRestart | market_db/periodic_update.py:1097-1104 | A blocker recorded before a restart whose code tells neither a late publication nor an interface fault survives every poll after it while the revision stands, and none of its instruments runs. |
| RestartLaws.RestartKeepsBlockers | market_db/periodic_update.py:1096-1104 | A restart keeps every blocker as it is but for its domain and forgets every waiting time. |
| RestartLaws.CrashBlocksAfterRestart | market_db/periodic_update.py:905-916 | The blocker of an unexpected exception holds back no other slot before a restart and every slot of its instruments after it. |
| RestartLaws.TwoLanesRetryAFifthTime | market_db/periodic_update.py:755-759 | Six polls of the schedule built for a one-hour session: the hourly slot fails four times, is blocked, and is executed again after the daily candidate of its instrument dropped the blocker. |
| SchedulerDaemons.SchedulerDaemon.Iterate | market_db/periodic_update.py:1110-1220 | One iteration of the loop, with its sweep, candidate loop and bookkeeping, reaches the model's state and executes the slot the model chooses. |
| SchedulerDaemons.SchedulerDaemon.Serve | market_db/periodic_update.py:1109-1244 | The loop over any sequence of polls reaches the model's state. |
| SchedulerDaemons.SchedulerDaemon.FromStored | market_db/periodic_update.py:1083-1107 | A restart reads back the bounded history, the attempts, and the blockers under freshly derived domains; `RestartLaws.RetriesAreBoundedAcrossRestart` says what the attempts are read back for. |
| SchedulerDaemons.LatestDuePerKind | market_db/periodic_update.py:939-954 | The loop finds the latest eligible slot of every lane, one a lane, in order of due time and stable among slots due together. |
| Schedule.BuiltScheduleShows | market_db/periodic_update.py:327-471 | The built and scoped schedule shows, at any time, only planned slots and every planned slot due within the catch-up age: the look-back and the session query are wide enough. |
| Schedule.PlannedIsDistinct | market_db/periodic_update.py:327-471 | Where ids identify slots and sessions do not overlap, a lane of the planned schedule has one slot a due time. |
| PlannedSlots.PlannedExactly | market_db/periodic_update.py:327-471 | The whole plan slot by slot, with ids and due times: the hours of two FX pairs after 63 minutes and of three candidates after 66, the whole hours of every session held fifteen seconds after their end by group of exchange instruments, and one close of each of the eleven after 45 minutes; nothing else. |
| PlannedSlots.ImputationCoversTheCloses | market_db/c2_imputation.py:22-24 | The imputation planner covers exactly the instruments whose daily close is planned. |
| PlannedSlots.ShownExactly | market_db/periodic_update.py:352-366 | A poll is shown the FX hours published from seven hours ago to four hours ahead, and the sessions dated from two days back to three ahead. |
| Schedule.BuiltScheduleMakesProgress | market_db/periodic_update.py:939-968 | A daemon that polls the schedule as it is built never goes back in a lane, and after a PASS only moves on. |
| Schedule.ScopedSlotsAre | market_db/periodic_update.py:182-227 | A scoped slot is a job of an allowed kind narrowed to one included instrument, and every such pair has its slot. |
| Schedule.ApplySchedulerScope | market_db/periodic_update.py:182-227 | The loops narrow the jobs in order. |
| CompletedHistory.AppendCompletedSlots | market_db/periodic_update.py:971-985 | The loop keeps the last 1024 of the distinct ids, each at its last occurrence. |
| CompletedHistory.AppendIsAssociative | market_db/periodic_update.py:971-985 | The bounded history does not depend on how appends are batched. |
| CompletedHistory.EvictionRule | market_db/periodic_update.py:971-985 | An id is forgotten exactly when at least 1024 distinct ids came after its last occurrence. |
| SessionSlots.TerminalSlotAgreement | market_db/c2_imputation.py:473-477 | For every session of positive length, exactly when the four computations of the terminal slot name the same bar. |
| SessionSlots.WholeSecondsAgree | market_db/periodic_update.py:441-445 | For sessions of whole seconds all four computations name the same terminal bar. |
| SessionSlots.SubSecondSessionsDisagree | market_db/normalize_bars.py:302-303 | Half a second past an hour, normalisation and the scheduler stop one slot early. |
| SessionSlots.ExpectedSlots | market_db/c2_imputation.py:521-525 | The hourly walk lists every started hour of a session. |
| SessionSlots.FullyContainedHourStarts | market_db/periodic_update.py:292-314 | The loop lists the hours that fit the session, with margins and alignment. |
| SessionSlots.ContainedHoursAreTheSlots | market_db/periodic_update.py:292-314 | Without margins or alignment these are the session's slots but the terminal one, which is listed exactly when the session is whole hours. |
| SessionSlots.AlignedHoursAreAll | market_db/periodic_update.py:292-314 | With alignment they are exactly the whole UTC hours that fit. |

## Left out

- SQL text, roles, connections and advisory locks: tables are maps and sets, a transaction is one atomic step. In a bounded revision the comparison and the commit are taken as one step, although the code reads the stored window before it takes the lock.
- Store.RefetchGuard: the stored procedure selects one watermark of the instrument; the model accepts a stale watermark of either price basis, which is the same when an instrument has one basis.
- Store.RunOnboarding: the gates on advertised history boundaries, duplicate audits and the approved provider anomaly are not modelled, only the commit and the two-row minimum; `Publication` models the gate's outcome.
- Quarantine.ValidateQuarantine: the branch for an approved exception, which compares a content hash, is not modelled.
- Store.RunIncremental: a run is given the bars it acquired and the time its quality gates read. That they are what the overlap query, the walk and the finishing of a session's last bar make of the provider's series is stated by `Acquisition.Acquires` and shown of every incremental run of the examples, but the laws hold of any bars and do not ask it. The refusal of a series with too few rows for its overlap (`Acquisition.OverlapIsCounted`) is not a step of the run.
- Store.RunBounded: the code loads the state of the series before it creates the run, so where that is refused there is no run row; in the model the run row is started by a transaction of its own and stays open.
- Samples.Acquired: the example series is one of an exchange, whose first rows the code takes from an import; the examples put them in by the same first commit as an onboarding.
- Store.Review: the audit texts of a review are not modelled.
- Schedule.BuiltScheduleShows: FX bar starts and exchange sessions are taken as a fixed plan; their generation from calendars and time zones is left out, and slot ids are taken to identify slots (a premise of `Schedule.PlannedIsDistinct`). The code sorts the built slots by due time and kind; the model takes any order, which only the order of ids completed together depends on. Deadlines, service levels and expected watermarks of a slot are not modelled.
- Scheduler.Restarted: the stored state is written with sorted keys, so a restart may reorder blockers; the model keeps their order. Observation counts and timestamps of a blocker are left out.
- SchedulerLaws.BlockerSafety: assumes that the executor reports only instruments of the slot it ran, as the code's runners do.
- WatermarkLaws.WatermarksNameStoredRows: assumes that every bar has the price basis of its instrument, that a run acquires a series once, and that bounded pages are complete throughout, as the registry and the normaliser make them.
- Retention.RetentionDecision: file names are already parsed, and weeks are those of ISO 8601 week dates, section 4.1.4 of ISO 8601:2004, counted from a Monday.
- The imputation overlay's persistence, quality events, source files, manifests and all counters other than inserted, updated and removed rows.
- Paging, normalisation and comparison start from parsed samples: decimal and time parsing, lower-casing of keys, hashing and HTTP are left out.
- Token maintenance, the choice of clients, the watermark gates inside one execution and the scope readiness check: an execution is an outcome.
- Operator and data interfaces, the read API, restore tests, legacy import, gap reports and instrument reference checks, which would add only simple members.
