/** What single commits do: row counts, bounded patches, the version gate, and stale series. */
module CommitLaws {
  import opened Sets
  import opened Types
  import opened Derive
  import opened Store
  import Quarantine
  import Revision

  // ---- Row counts ----

  lemma {:induction false} SizeOfUnion(a: set<Key>, b: set<Key>)
    ensures |a + b| == |a| + |b - a|
  {
  }

  /** Taking some keys out and putting others in, none of which is among those left. */
  lemma {:induction false} SizeOfReplacement(all: set<Key>, gone: set<Key>, put: set<Key>)
    requires gone <= all && put !! (all - gone)
    ensures |(all - gone) + put| == |all| + |put - all| - |gone - put|
  {
    var both := gone * put;
    assert all == (all - gone) + gone;
    assert gone == (gone - put) + both;
    assert put == (put - all) + both;
  }

  function Own(curated: Curated, inst: int): set<Key> { set k | k in curated && k.inst == inst }

  lemma {:induction false} KeysAfter(curated: Curated, run: int, staged: map<Key, Bar>, mode: Mode)
    ensures var after := ApplyCommit(CommitOf(run, mode), curated, staged);
      && |after| == |after.Keys|
      && (mode.Refetching? ==> after.Keys == (curated.Keys - Own(curated, mode.inst)) + staged.Keys)
      && (!mode.Refetching? ==> after.Keys == curated.Keys + staged.Keys)
  {
  }

  lemma {:induction false} OwnKeys(curated: Curated, staged: map<Key, Bar>, inst: int)
    requires forall k :: k in staged ==> k.inst == inst
    ensures Own(curated, inst) <= curated.Keys && staged.Keys !! (curated.Keys - Own(curated, inst))
    ensures RemovedKeys(curated, staged, inst) == Own(curated, inst) - staged.Keys
  {
  }

  /** An upsert adds exactly the rows it reports as inserted; a refetch also drops those it reports as removed. */
  lemma {:induction false} RowsAreConserved(curated: Curated, run: int, staged: map<Key, Bar>, mode: Mode)
    requires mode.Refetching? ==> forall k :: k in staged ==> k.inst == mode.inst
    ensures var counts := CountsOf(curated, staged, mode);
      |ApplyCommit(CommitOf(run, mode), curated, staged)| == |curated| + counts.inserted - counts.removed
  {
    hide ApplyCommit, Own, RemovedKeys, UpdatedKeys;
    KeysAfter(curated, run, staged, mode);
    assert |curated| == |curated.Keys|;
    if mode.Refetching? {
      OwnKeys(curated, staged, mode.inst);
      SizeOfReplacement(curated.Keys, Own(curated, mode.inst), staged.Keys);
    } else {
      SizeOfUnion(curated.Keys, staged.Keys);
    }
  }

  /** Keys of the instrument's other price bases inside the range, which a bounded patch also deletes. */
  function OtherBases(curated: Curated, s: Series, range: Revision.Range): set<Key> {
    set k | k in curated && k.inst == s.inst && k.basis != s.basis && range.Has(k.time)
  }

  function SeriesInRange(curated: Curated, s: Series, range: Revision.Range): set<Key> {
    set k | k in curated && k.inst == s.inst && k.basis == s.basis && range.Has(k.time)
  }

  lemma {:induction false} KeysAfterPatch(curated: Curated, run: int, s: Series, range: Revision.Range,
      staged: map<Key, Bar>)
    ensures var after := ApplyCommit(Patched(run, s.inst, range), curated, staged);
      && |after| == |after.Keys|
      && after.Keys == (curated.Keys - (SeriesInRange(curated, s, range) + OtherBases(curated, s, range)))
           + InRangeOf(staged, range).Keys
  {
  }

  lemma {:induction false} RangeKeys(curated: Curated, s: Series, range: Revision.Range, staged: map<Key, Bar>)
    requires forall k :: k in staged ==> k.inst == s.inst && k.basis == s.basis
    ensures var taken, own, others :=
        InRangeOf(staged, range), SeriesInRange(curated, s, range), OtherBases(curated, s, range);
      && own + others <= curated.Keys && own !! others && others !! taken.Keys
      && taken.Keys !! (curated.Keys - (own + others))
  {
  }

  lemma {:induction false} OthersAreGone(own: set<Key>, others: set<Key>, taken: set<Key>)
    requires own !! others && others !! taken
    ensures |(own + others) - taken| == |own - taken| + |others|
  {
    assert (own + others) - taken == (own - taken) + others;
  }

  /** A patch keeps the row count law exactly when no other price basis has rows inside the range. */
  lemma {:induction false} PatchedRowsAreConserved(curated: Curated, run: int, s: Series, range: Revision.Range,
      staged: map<Key, Bar>)
    requires forall k :: k in staged ==> k.inst == s.inst && k.basis == s.basis
    ensures var taken := InRangeOf(staged, range);
      var removed := SeriesInRange(curated, s, range) - taken.Keys;
      |ApplyCommit(Patched(run, s.inst, range), curated, staged)|
        == |curated| + |InsertedKeys(curated, taken)| - |removed| - |OtherBases(curated, s, range)|
  {
    hide ApplyCommit, SeriesInRange, OtherBases, InRangeOf;
    var taken := InRangeOf(staged, range);
    var own, others := SeriesInRange(curated, s, range), OtherBases(curated, s, range);
    KeysAfterPatch(curated, run, s, range, staged);
    RangeKeys(curated, s, range, staged);
    SizeOfReplacement(curated.Keys, own + others, taken.Keys);
    OthersAreGone(own, others, taken.Keys);
    assert |curated| == |curated.Keys|;
  }

  /** Committing the same rows again, under any later run, inserts nothing and updates nothing. */
  lemma {:induction false} RecommitChangesNothing(curated: Curated, run: int, staged: map<Key, Bar>, mode: Mode)
    requires mode.Refetching? ==> forall k :: k in staged ==> k.inst == mode.inst
    ensures CountsOf(ApplyCommit(CommitOf(run, mode), curated, staged), staged, mode) == Counts(0, 0, 0)
  {
    var after := ApplyCommit(CommitOf(run, mode), curated, staged);
    assert forall k :: k in staged ==> after[k] == CuratedRow(run, staged[k]);
    ZeroCountsExactlyWhenStored(after, staged, mode);
  }

  /** Nothing else counts as an update: with no insertions, updates or removals only run and retrieval time move. */
  lemma {:induction false} ZeroCountsMeanSameValues(curated: Curated, run: int, staged: map<Key, Bar>, mode: Mode)
    requires CountsOf(curated, staged, mode) == Counts(0, 0, 0)
    ensures var after := ApplyCommit(CommitOf(run, mode), curated, staged);
      && after.Keys == curated.Keys
      && forall k :: k in curated ==>
          after[k].content == curated[k].content && after[k].dataVersion == curated[k].dataVersion
  {
    hide ApplyCommit, InsertedKeys, RemovedKeys, UpdatedKeys;
    var after := ApplyCommit(CommitOf(run, mode), curated, staged);
    SameKeys(curated, run, staged, mode);
    forall k | k in curated
      ensures after[k].content == curated[k].content && after[k].dataVersion == curated[k].dataVersion
    {
      SameValues(curated, run, staged, mode, k);
    }
  }

  /** The rows are there already: under the same keys, with the same content and version, and none beside them. */
  ghost predicate AlreadyStored(curated: Curated, staged: map<Key, Bar>, mode: Mode) {
    && (forall k :: k in staged ==>
          k in curated && curated[k].content == staged[k].content && curated[k].dataVersion == staged[k].dataVersion)
    && (mode.Refetching? ==> Own(curated, mode.inst) <= staged.Keys)
  }

  /** Exactly when a commit reports that it inserted, updated and removed nothing. */
  lemma {:induction false} ZeroCountsExactlyWhenStored(curated: Curated, staged: map<Key, Bar>, mode: Mode)
    ensures CountsOf(curated, staged, mode) == Counts(0, 0, 0) <==> AlreadyStored(curated, staged, mode)
  {
    if CountsOf(curated, staged, mode) == Counts(0, 0, 0) {
      NothingInserted(curated, staged);
      NoKeys(UpdatedKeys(curated, staged));
      forall k | k in staged
        ensures curated[k].content == staged[k].content && curated[k].dataVersion == staged[k].dataVersion
      {
        assert k !in UpdatedKeys(curated, staged);
      }
      if mode.Refetching? {
        NothingRemoved(curated, staged, mode.inst);
      }
    }
    if AlreadyStored(curated, staged, mode) {
      assert InsertedKeys(curated, staged) == {} && UpdatedKeys(curated, staged) == {};
      assert mode.Refetching? ==> RemovedKeys(curated, staged, mode.inst) == {};
    }
  }

  lemma {:induction false} NothingInserted(curated: Curated, staged: map<Key, Bar>)
    requires |InsertedKeys(curated, staged)| == 0
    ensures staged.Keys <= curated.Keys
  {
    NoKeys(InsertedKeys(curated, staged));
    forall k | k in staged ensures k in curated {
      assert k !in InsertedKeys(curated, staged);
    }
  }

  lemma {:induction false} NothingRemoved(curated: Curated, staged: map<Key, Bar>, inst: int)
    requires |RemovedKeys(curated, staged, inst)| == 0
    ensures Own(curated, inst) <= staged.Keys
  {
    NoKeys(RemovedKeys(curated, staged, inst));
    forall k | k in Own(curated, inst) ensures k in staged {
      assert k !in RemovedKeys(curated, staged, inst);
    }
  }

  lemma {:induction false} SameKeys(curated: Curated, run: int, staged: map<Key, Bar>, mode: Mode)
    requires |InsertedKeys(curated, staged)| == 0
    requires mode.Refetching? ==> |RemovedKeys(curated, staged, mode.inst)| == 0
    ensures ApplyCommit(CommitOf(run, mode), curated, staged).Keys == curated.Keys
    ensures mode.Refetching? ==> Own(curated, mode.inst) <= staged.Keys
  {
    hide ApplyCommit, InsertedKeys, RemovedKeys;
    NothingInserted(curated, staged);
    KeysAfter(curated, run, staged, mode);
    if mode.Refetching? {
      NothingRemoved(curated, staged, mode.inst);
    }
  }

  lemma {:induction false} SameValues(curated: Curated, run: int, staged: map<Key, Bar>, mode: Mode, k: Key)
    requires k in curated && |UpdatedKeys(curated, staged)| == 0
    requires mode.Refetching? ==> Own(curated, mode.inst) <= staged.Keys
    ensures var after := ApplyCommit(CommitOf(run, mode), curated, staged);
      k in after && after[k].content == curated[k].content && after[k].dataVersion == curated[k].dataVersion
  {
    NoKeys(UpdatedKeys(curated, staged));
    var after := ApplyCommit(CommitOf(run, mode), curated, staged);
    if k in staged {
      assert k !in UpdatedKeys(curated, staged);
      assert after[k] == CuratedRow(run, staged[k]);
    } else {
      assert mode.Refetching? ==> k !in Own(curated, mode.inst);
      assert after[k] == curated[k];
    }
  }

  lemma {:induction false} NoKeys(s: set<Key>)
    requires |s| == 0
    ensures forall k :: k !in s
  {
  }

  // ---- A bounded revision equals replacing the whole window ----

  lemma {:induction false} StagedPage(s: Series, page: seq<Bar>)
    requires forall i, j :: 0 <= i < j < |page| ==> page[i].time != page[j].time
    requires forall b :: b in page ==> b.basis == s.basis
    ensures var staged := Staging(RowsOf(BoundedItem(s, page)));
      && (forall k :: k in staged <==> k.inst == s.inst && k.basis == s.basis && k.time in Revision.ByTime(page))
      && (forall k :: k in staged ==> staged[k] == Revision.ByTime(page)[k.time])
  {
    if page != [] {
      hide Staging, Revision.ByTime, RowsOf;
      var n := |page| - 1;
      assert forall b :: b in page[..n] ==> b in page;
      assert page[n] in page;
      StagedPage(s, page[..n]);
      StagedStep(s, page);
      ByTimeStep(page);
    }
  }

  lemma {:induction false} StagedStep(s: Series, page: seq<Bar>)
    requires page != [] && page[|page| - 1].basis == s.basis
    ensures var last := page[|page| - 1];
      Staging(RowsOf(BoundedItem(s, page)))
        == Staging(RowsOf(BoundedItem(s, page[..|page| - 1])))[Key(s.inst, last.time, s.basis) := last]
  {
    var rows := RowsOf(BoundedItem(s, page));
    assert rows[..|rows| - 1] == RowsOf(BoundedItem(s, page[..|page| - 1]));
  }

  /** The dictionary of a page whose last time is new. */
  lemma {:induction false} ByTimeStep(page: seq<Bar>)
    requires page != [] && forall i, j :: 0 <= i < j < |page| ==> page[i].time != page[j].time
    ensures var last := page[|page| - 1];
      Revision.ByTime(page) == Revision.ByTime(page[..|page| - 1])[last.time := last]
  {
    NotYetSeen(page, |page| - 1);
  }

  lemma {:induction false} NotYetSeen(page: seq<Bar>, n: nat)
    requires n < |page| && forall i, j :: 0 <= i < j < |page| ==> page[i].time != page[j].time
    ensures page[n].time !in Revision.ByTime(page[..n])
  {
  }

  lemma {:induction false} DistinctTimes(s: Series, page: seq<Bar>)
    requires DistinctRows(StagedRows([BoundedItem(s, page)])) && forall b :: b in page ==> b.basis == s.basis
    ensures StagedRows([BoundedItem(s, page)]) == RowsOf(BoundedItem(s, page))
    ensures forall i, j :: 0 <= i < j < |page| ==> page[i].time != page[j].time
  {
    var item := BoundedItem(s, page);
    assert [item][..0] == [];
    assert StagedRows([item][..0]) == [];
    assert StagedRows([item]) == RowsOf(item);
    forall i, j | 0 <= i < j < |page| ensures page[i].time != page[j].time {
      assert page[i] in page && page[j] in page;
      assert RowsOf(item)[i].key != RowsOf(item)[j].key;
    }
  }

  function AsStored(row: Row): Revision.StoredBar { Revision.StoredBar(row.content, row.dataVersion) }

  lemma {:induction false} ViewHas(curated: Curated, s: Series, t: int)
    ensures t in View(curated, s) <==> Key(s.inst, t, s.basis) in curated
    ensures t in View(curated, s) ==>
      View(curated, s)[t] == AsStored(curated[Key(s.inst, t, s.basis)])
  {
  }

  lemma {:induction false} PatchedAt(curated: Curated, run: int, s: Series, range: Revision.Range, staged: map<Key,
      Bar>, p: map<int, Bar>, t: int)
    requires var k := Key(s.inst, t, s.basis); (k in staged <==> t in p) && (k in staged ==> staged[k] == p[t])
    ensures var k, after := Key(s.inst, t, s.basis), ApplyCommit(Patched(run, s.inst, range), curated, staged);
      var patch := Revision.Patch(View(curated, s), p, range);
      (k in after <==> t in patch) && (t in patch ==> patch[t] == AsStored(after[k]))
  {
  }

  lemma {:induction false} PatchedSeries(curated: Curated, run: int, s: Series, range: Revision.Range,
      staged: map<Key, Bar>, p: map<int, Bar>)
    requires forall t :: Key(s.inst, t, s.basis) in staged <==> t in p
    requires forall t :: t in p ==> staged[Key(s.inst, t, s.basis)] == p[t]
    ensures View(ApplyCommit(Patched(run, s.inst, range), curated, staged), s)
        == Revision.Patch(View(curated, s), p, range)
  {
    hide View, ApplyCommit, Revision.Patch, AsStored;
    var after := ApplyCommit(Patched(run, s.inst, range), curated, staged);
    var patch := Revision.Patch(View(curated, s), p, range);
    forall t ensures (t in View(after, s) <==> t in patch) && (t in patch ==> View(after, s)[t] == patch[t]) {
      ViewHas(after, s, t);
      PatchedAt(curated, run, s, range, staged, p, t);
    }
  }

  /** Seen as one series, a bounded commit is the patch the comparison reasons about. */
  lemma {:induction false} PatchedView(curated: Curated, run: int, s: Series, page: seq<Bar>, range: Revision.Range)
    requires DistinctRows(StagedRows([BoundedItem(s, page)])) && forall b :: b in page ==> b.basis == s.basis
    ensures View(ApplyCommit(Patched(run, s.inst, range), curated, Staging(StagedRows([BoundedItem(s, page)]))), s)
      == Revision.Patch(View(curated, s), Revision.ByTime(page), range)
  {
    hide View, ApplyCommit, Revision.Patch, Staging, StagedRows, DistinctRows, RowsOf, Revision.ByTime;
    DistinctTimes(s, page);
    StagedPage(s, page);
    PatchedSeries(curated, run, s, range, Staging(StagedRows([BoundedItem(s, page)])), Revision.ByTime(page));
  }

  /** The comparisons a bounded run makes against the stored rows. */
  function StepsOf(db: Db, s: Series, chart: int -> seq<Bar>, approved: Option<int>): (steps: seq<Revision.Comparison>)
    requires RevisionState(db, s, approved).Some?
    ensures |steps| <= |Revision.WINDOW_COUNTS|
  {
    Found(db, s, chart, RevisionState(db, s, approved).value).steps
  }

  /** The run starts, and its last comparison is ready to apply. */
  predicate EndsReady(db: Db, s: Series, chart: int -> seq<Bar>, approved: Option<int>) {
    var state := RevisionState(db, s, approved);
    && state.Some? && Found(db, s, chart, state.value).failed.None?
    && var steps := StepsOf(db, s, chart, approved);
       steps[|steps| - 1].decision == Revision.ReadyToApply
  }

  /** The bars of a page as a run receives them: of the series' price basis, the last one the latest. */
  ghost predicate PageOf(s: Series, page: seq<Bar>) {
    && (forall b :: b in page ==> b.basis == s.basis)
    && (forall b :: b in page ==> b.time <= page[|page| - 1].time)
  }

  /** The last comparison of a run is one of its last page with the stored rows. */
  lemma {:induction false} LastComparison(db: Db, s: Series, chart: int -> seq<Bar>, oldVersion: int)
    requires Found(db, s, chart, oldVersion).failed.None?
    ensures var steps := Found(db, s, chart, oldVersion).steps;
      var page := Revision.LastPage(chart, steps);
      && page != []
      && Revision.CompareStep(page, View(db.market.curated, s), oldVersion, Revision.WINDOW_COUNTS[|steps| - 1])
           == Ok(steps[|steps| - 1])
  {
    hide Revision.CompareStep, Revision.Discover;
    Revision.DiscoverIs(chart, View(db.market.curated, s), oldVersion);
    var steps := Found(db, s, chart, oldVersion).steps;
    assert Revision.Answers(chart, View(db.market.curated, s), oldVersion, |steps| - 1, steps[|steps| - 1]);
  }

  /** A bounded run that changed the market tables applied its last comparison. */
  lemma {:induction false} ChangedMeansApplied(db: Db, catalog: Catalog, run: int, s: Series,
      chart: int -> seq<Bar>, approved: Option<int>)
    requires db.IsRunning(run) && RunBounded(db, catalog, run, s, chart, approved).market != db.market
    ensures EndsReady(db, s, chart, approved)
    ensures var steps := StepsOf(db, s, chart, approved);
      var page, c := Revision.LastPage(chart, steps), steps[|steps| - 1];
      && BoundedCommittable(db, catalog, run, s, page, c, Decisions(steps), approved)
      && RunBounded(db, catalog, run, s, chart, approved)
           == BoundedApplied(db, catalog, run, s, page, c, Decisions(steps), approved)
  {
    hide RevisionState, View, Decisions, Found, BoundedCommittable, BoundedApplied, PlaceEvent;
  }

  /**
   The curated rows of the series have exactly the times and contents of the last page over the window compared
   last, and the range affected there is the only part of the table that differs from before.
   */
  ghost predicate WindowReplaced(db: Db, s: Series, chart: int -> seq<Bar>, approved: Option<int>, after: Curated) {
    EndsReady(db, s, chart, approved)
    && var steps := StepsOf(db, s, chart, approved);
       var page, c := Revision.LastPage(chart, steps), steps[|steps| - 1];
       && c.affected.Some?
       && Revision.AgreesOn(View(after, s), Revision.ByTime(page), c.compared)
       && (forall k: Key :: !(k.inst == s.inst && c.affected.value.Has(k.time)) ==>
             (k in after <==> k in db.market.curated) && (k in after ==> after[k] == db.market.curated[k]))
  }

  /**
   Whenever a bounded revision changes the market tables, the curated rows of the series agree with the provider
   over the whole window compared last, although only the affected range was rewritten; all other rows stand.
   */
  lemma {:induction false} BoundedRevisionEqualsReplacement(db: Db, catalog: Catalog, run: int, s: Series,
      chart: int -> seq<Bar>, approved: Option<int>)
    requires db.IsRunning(run) && RunBounded(db, catalog, run, s, chart, approved).market != db.market
    requires forall count :: count in Revision.WINDOW_COUNTS ==> PageOf(s, chart(count))
    ensures WindowReplaced(db, s, chart, approved, RunBounded(db, catalog, run, s, chart, approved).market.curated)
  {
    hide Found, View, RunBounded, BoundedCommittable, BoundedApplied, RevisionState, Decisions, PageOf;
    ChangedMeansApplied(db, catalog, run, s, chart, approved);
    var known := RevisionState(db, s, approved).value;
    LastComparison(db, s, chart, known);
    var steps := StepsOf(db, s, chart, approved);
    var page := Revision.LastPage(chart, steps);
    assert PageOf(s, page);
    AppliedPage(db, catalog, run, s, page, known, Revision.WINDOW_COUNTS[|steps| - 1], Decisions(steps), approved);
  }

  /** The same for one page compared and applied. */
  lemma {:induction false} AppliedPage(db: Db, catalog: Catalog, run: int, s: Series, page: seq<Bar>,
      oldVersion: int, count: int, steps: seq<StepDecision>, approved: Option<int>)
    requires page != [] && PageOf(s, page)
    requires var r := Revision.CompareStep(page, View(db.market.curated, s), oldVersion, count);
      && r.Ok? && r.value.decision == Revision.ReadyToApply
      && BoundedCommittable(db, catalog, run, s, page, r.value, steps, approved)
    ensures var c := Revision.CompareStep(page, View(db.market.curated, s), oldVersion, count).value;
      var after := BoundedApplied(db, catalog, run, s, page, c, steps, approved).market.curated;
      && c.affected.Some?
      && Revision.AgreesOn(View(after, s), Revision.ByTime(page), c.compared)
      && (forall k: Key :: !(k.inst == s.inst && c.affected.value.Has(k.time)) ==>
            (k in after <==> k in db.market.curated) && (k in after ==> after[k] == db.market.curated[k]))
  {
    hide Accepts, PlaceEvent, RevisedWatermark, MarkApplied, Rebuilt, View, Staging, StagedRows, DistinctRows,
      Revision.Patch, Revision.Compare;
    var c := Revision.CompareStep(page, View(db.market.curated, s), oldVersion, count).value;
    AppliedHasARange(db, catalog, run, s, page, c, steps, approved);
    Revision.PatchEqualsReplacement(View(db.market.curated, s), page, oldVersion, count, Revision.MAXIMUM_COUNT,
      Revision.STABLE_ANCHOR_ROWS);
    PatchedView(db.market.curated, run, s, page, c.affected.value);
    PatchTouchesItsRange(db.market.curated, run, s, page, c.affected.value);
  }

  lemma {:induction false} PatchTouchesItsRange(curated: Curated, run: int, s: Series, page: seq<Bar>,
      range: Revision.Range)
    requires DistinctRows(StagedRows([BoundedItem(s, page)])) && forall b :: b in page ==> b.basis == s.basis
    ensures var after := ApplyCommit(Patched(run, s.inst, range), curated, Staging(StagedRows([BoundedItem(s, page)])));
      forall k: Key :: !(k.inst == s.inst && range.Has(k.time)) ==>
        (k in after <==> k in curated) && (k in after ==> after[k] == curated[k])
  {
    hide Staging, StagedRows, DistinctRows, Revision.ByTime;
    DistinctTimes(s, page);
    StagedPage(s, page);
  }

  /** The guard compares the event's affected range with the one applied, so something must be affected. */
  lemma {:induction false} AppliedHasARange(db: Db, catalog: Catalog, run: int, s: Series, page: seq<Bar>,
      c: Revision.Comparison,
      steps: seq<StepDecision>, approved: Option<int>)
    requires BoundedCommittable(db, catalog, run, s, page, c, steps, approved)
    ensures c.affected.Some? && c.affected.value == ApplyRange(c)
  {
  }

  /**
   A comparison that finds a version change and no changed content is ready to apply, and its commit is always
   rolled back: the event stores no affected range while the guard is passed the last row of the window.
   */
  lemma {:induction false} UnchangedContentIsNeverApplied(db: Db, catalog: Catalog, run: int, s: Series,
      chart: int -> seq<Bar>, approved: Option<int>)
    requires db.IsRunning(run) && EndsReady(db, s, chart, approved)
    requires var steps := StepsOf(db, s, chart, approved); steps[|steps| - 1].affected.None?
    ensures RunBounded(db, catalog, run, s, chart, approved) == db.Finish(run, Failed)
  {
    hide Found, View, RevisionState, BoundedCommittable, BoundedApplied, Decisions, RecordUnresolved, ApplyRange;
    var steps := StepsOf(db, s, chart, approved);
    var page, c := Revision.LastPage(chart, steps), steps[|steps| - 1];
    if BoundedCommittable(db, catalog, run, s, page, c, Decisions(steps), approved) {
      AppliedHasARange(db, catalog, run, s, page, c, Decisions(steps), approved);
    }
  }

  // ---- A full refetch ----

  /**
   A full refetch either leaves everything but its own run alone, or leaves exactly the times it accepted, whatever
   the series held before; together with the quarantined times they reach back at least as far as the old rows did.
   */
  lemma {:induction false} RefetchKeepsHistory(db: Db, catalog: Catalog, run: int, item: Item,
      rejected: seq<Quarantine.Rejected>)
    requires db.IsRunning(run) && forall b :: b in item.bars ==> b.basis == item.basis
    ensures var s := item.SeriesKey();
      var after := RunFullRefetch(db, catalog, run, item, rejected);
      var before, kept := KeysOf(db.market.curated, s), KeysOf(after.market.curated, s);
      || (after == db.Finish(run, Failed) || after == db.Finish(run, Blocked))
      || (&& after.runs[run].status == Passed && kept == TimesSeen(item.bars)
          && before != {} && Min(TimesSeen(item.bars) + Quarantine.RejectedTimes(rejected)) <= Min(before)
          && (forall r :: r in rejected ==> r.time !in kept))
  {
    hide Staging, StagedRows, DistinctRows, Accepts, Advanced, RefetchGuard, RefetchAllowed, Rebuilt, KeysOf,
      ApplyCommit, HasCompleteBar;
    if RefetchAllowed(db, item, rejected) && Committable(db, catalog, run, [item], Refetching(item.inst)) {
      RefetchedRows(db, run, item, rejected);
    }
  }

  lemma {:induction false} RefetchedRows(db: Db, run: int, item: Item, rejected: seq<Quarantine.Rejected>)
    requires RefetchAllowed(db, item, rejected) && DistinctRows(StagedRows([item]))
    requires forall b :: b in item.bars ==> b.basis == item.basis
    ensures var s := item.SeriesKey();
      var after := ApplyCommit(Replaced(run, item.inst), db.market.curated, Staging(StagedRows([item])));
      var before := KeysOf(db.market.curated, s);
      && KeysOf(after, s) == TimesSeen(item.bars)
      && before != {} && TimesSeen(item.bars) + Quarantine.RejectedTimes(rejected) != {}
      && Min(TimesSeen(item.bars) + Quarantine.RejectedTimes(rejected)) <= Min(before)
      && (forall r :: r in rejected ==> r.time !in KeysOf(after, s))
  {
    hide Staging, StagedRows, DistinctRows, Quarantine.WithinLimits;
    var s := item.SeriesKey();
    assert item == BoundedItem(s, item.bars);
    DistinctTimes(s, item.bars);
    StagedPage(s, item.bars);
    TimesAreKeys(item.bars);
    RefetchedTimes(db.market.curated, run, s, Staging(StagedRows([item])), Revision.ByTime(item.bars));
  }

  lemma {:induction false} TimesAreKeys(page: seq<Bar>)
    ensures Revision.ByTime(page).Keys == TimesSeen(page)
  {
  }

  lemma {:induction false} RefetchedTimes(curated: Curated, run: int, s: Series, staged: map<Key, Bar>, p: map<int,
      Bar>)
    requires forall k :: k in staged <==> k.inst == s.inst && k.basis == s.basis && k.time in p
    ensures KeysOf(ApplyCommit(Replaced(run, s.inst), curated, staged), s) == p.Keys
  {
    var after := ApplyCommit(Replaced(run, s.inst), curated, staged);
    forall t ensures t in KeysOf(after, s) <==> t in p {
      assert Key(s.inst, t, s.basis) in after <==> Key(s.inst, t, s.basis) in staged;
      if t in p {
        assert Key(s.inst, t, s.basis).time in KeysOf(after, s);
      }
    }
  }

  // ---- The version gate ----

  lemma {:induction false} GatePassed(watermarks: map<Series, Watermark>, items: seq<Item>, now: int, item: Item)
    requires forall i :: i in items ==> i.SeriesKey() in watermarks
    requires GateFrom(watermarks, items, now) == Proceed && item in items
    ensures GateItem(watermarks, item, now) == Proceed
  {
    if item != items[0] {
      var i :| 0 < i < |items| && items[i] == item;
      assert items[1..][i - 1] == item;
      GatePassed(watermarks, items[1..], now, item);
    }
  }

  /** A version is only carried if some bar carries it. */
  lemma {:induction false} FirstVersionIsCarried(bars: seq<Bar>)
    ensures FirstVersion(bars).Some? ==> FirstVersion(bars).value in Revision.Versions(bars)
    ensures FirstVersion(bars).None? <==> Revision.Versions(bars) == {}
  {
    if bars != [] {
      FirstVersionIsCarried(bars[1..]);
      assert bars == [bars[0]] + bars[1..];
      assert bars[0] in bars;
      assert forall b :: b in bars <==> b == bars[0] || b in bars[1..];
      if bars[0].dataVersion.Some? {
        assert bars[0].dataVersion.value in Revision.Versions(bars);
      } else {
        assert Revision.Versions(bars) == Revision.Versions(bars[1..]);
      }
    }
  }

  lemma {:induction false} GatedVersion(watermarks: map<Series, Watermark>, item: Item, now: int)
    requires item.SeriesKey() in watermarks && GateItem(watermarks, item, now) == Proceed
    requires watermarks[item.SeriesKey()].version.Some?
    ensures FirstVersion(item.bars) == watermarks[item.SeriesKey()].version
      || (FirstVersion(item.bars) == None && Revision.Versions(item.bars) == {})
  {
    FirstVersionIsCarried(item.bars);
    var versions := Revision.Versions(item.bars);
    if versions != {} {
      LoneVersion(versions, FirstVersion(item.bars).value);
    }
  }

  lemma {:induction false} LoneVersion(versions: set<int>, v: int)
    requires v in versions && |versions| <= 1
    ensures Min(versions) == v
  {
    if Min(versions) != v {
      SubsetSize({Min(versions), v}, versions);
    }
  }

  lemma {:induction false} AdvancedIsLast(watermarks: map<Series, Watermark>, run: int, items: seq<Item>, s: Series)
    requires forall item :: item in items ==> HasCompleteBar(item)
    ensures var after := Advanced(watermarks, run, items);
      s in after && (s !in watermarks || after[s] != watermarks[s]) ==>
        exists item :: item in items && item.SeriesKey() == s && after[s] == WatermarkOf(run, item)
    ensures s in watermarks ==> s in Advanced(watermarks, run, items)
  {
    if items != [] {
      var n := |items| - 1;
      var last := items[n];
      assert last in items;
      assert forall item :: item in items[..n] ==> item in items;
      AdvancedIsLast(watermarks, run, items[..n], s);
    }
  }

  /**
   An incremental run never replaces a known data version by another. It keeps it where some bar carries it, and
   forgets it where no bar carries any.
   */
  lemma {:induction false} VersionIsKeptOrForgotten(db: Db, catalog: Catalog, run: int, items: seq<Item>, now: int,
      s: Series)
    requires db.IsRunning(run) && s in db.watermarks && db.watermarks[s].version.Some?
    ensures var after := RunIncremental(db, catalog, run, items, now);
      && s in after.watermarks
      && (after.watermarks[s].version == db.watermarks[s].version
          || (after.watermarks[s].version == None
              && exists item :: item in items && item.SeriesKey() == s && Revision.Versions(item.bars) == {}))
  {
    hide Written, Accepts, DistinctRows, StagedRows, RecordWarning, Revision.Versions, HasCompleteBar,
      FirstVersion, GateItem;
    var gate := GateOf(db.watermarks, items, now);
    if gate.Warn? {
      QuietWarning(db, run, gate.series, gate.oldVersion, gate.newVersion);
    } else if gate.Proceed? && Committable(db, catalog, run, items, Incrementally) {
      AdvancedIsLast(db.watermarks, run, items, s);
      var advanced := Advanced(db.watermarks, run, items);
      if advanced[s] != db.watermarks[s] {
        var item :| item in items && item.SeriesKey() == s && advanced[s] == WatermarkOf(run, item);
        GatePassed(db.watermarks, items, now, item);
        GatedVersion(db.watermarks, item, now);
      }
    }
  }

  lemma {:induction false} QuietWarning(db: Db, run: int, s: Series, oldVersion: int, newVersion: int)
    requires db.IsRunning(run)
    ensures RecordWarning(db, run, s, oldVersion, newVersion).watermarks == db.watermarks
  {
  }

  // ---- Stale series ----

  /** Committing never makes a series stale; only a failure with a version code for a single instrument does. */
  lemma {:induction false} StaleComesFromFailures(db: Db, catalog: Catalog, txn: Txn, s: Series)
    requires IsStale(Step(db, catalog, txn).watermarks, s) && !IsStale(db.watermarks, s)
    ensures txn.Failure? && txn.code in STALE_CODES && txn.run in db.runs
      && |FailedScope(db.runs[txn.run].scope, txn.failed)| == 1
  {
    hide Committable, Written, Accepts, GateOf, RevisionState, View, BoundedCommittable, PlaceEvent, MarkApplied,
      Decisions,
      Found, RefetchAllowed, OpenEvents, AppendSteps;
    match txn
    case Incremental(run, items, now) => CommitIsNotStale(db, catalog, run, items, Incrementally, s);
      IncrementalIsNotStale(db, catalog, run, items, now, s);
    case FullRefetch(run, item, rejected) => CommitIsNotStale(db, catalog, run, [item], Refetching(item.inst), s);
    case Onboard(run, item) => CommitIsNotStale(db, catalog, run, [item], Bootstrapping, s);
    case Bounded(run, t, chart, approved) =>
      if db.IsRunning(run) {
        BoundedIsNotStale(db, catalog, run, t, chart, approved, s);
      }
    case StartRun(_, _, _) =>
    case Failure(_, _, _, _) =>
    case ReviewEvent(_, _) =>
  }

  lemma {:induction false} CommitIsNotStale(db: Db, catalog: Catalog, run: int, items: seq<Item>, mode: Mode, s: Series)
    requires !IsStale(db.watermarks, s)
    ensures !IsStale(CommitAcquired(db, catalog, run, items, mode).watermarks, s)
  {
    hide Written, Accepts, DistinctRows, RefetchGuard;
    if Committable(db, catalog, run, items, mode) {
      AdvancedIsLast(db.watermarks, run, items, s);
    }
  }

  lemma {:induction false} IncrementalIsNotStale(db: Db, catalog: Catalog, run: int, items: seq<Item>, now: int,
      s: Series)
    requires !IsStale(db.watermarks, s)
    ensures db.IsRunning(run) ==> !IsStale(RunIncremental(db, catalog, run, items, now).watermarks, s)
  {
    hide GateOf, CommitAcquired, RecordWarning;
    CommitIsNotStale(db, catalog, run, items, Incrementally, s);
    var gate := GateOf(db.watermarks, items, now);
    if gate.Warn? && db.IsRunning(run) {
      QuietWarning(db, run, gate.series, gate.oldVersion, gate.newVersion);
    }
  }

  lemma {:induction false} BoundedIsNotStale(db: Db, catalog: Catalog, run: int, t: Series,
      chart: int -> seq<Bar>, approved: Option<int>, s: Series)
    requires db.IsRunning(run) && !IsStale(db.watermarks, s)
    ensures !IsStale(RunBounded(db, catalog, run, t, chart, approved).watermarks, s)
  {
    hide RevisionState, View, Decisions, Found, PlaceEvent, MarkApplied, Written, Accepts,
      BoundedGuard, DistinctRows;
  }
}
