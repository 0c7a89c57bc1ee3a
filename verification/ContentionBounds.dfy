/** Exactly which slots are executed at most four times, and how often the others can be. */
module ContentionBounds {
  import opened ContentionLaws
  import opened RetryLaws
  import opened RivalRuns
  import opened Scheduler
  import opened SchedulerLaws
  import opened Types
  import Sets

  // ---- Up to the first turn ----

  lemma {:induction false} StartsAtOnce(sc: Scene, q: int)
    requires sc.Fits() && sc.s.due <= q && sc.passing < q && !IsEarly(sc, RivalAt(sc, q))
    ensures LeadsUp(sc, q, 0, q, None)
  {
    hide Front, Distinct;
    assert sc.Polls(q, 0) == [];
  }

  /** A rival that comes before every slot of the other lane runs, and is then stopped by its own blocker. */
  lemma {:induction false} RivalFirst(sc: Scene, d: Daemon, t: int, y: Slot)
    requires sc.Fits() && Stands(sc, d, None) && RivalAt(sc, t) == Some(y) && t != sc.passing
    requires var front := Front(sc.own, t, d.completed); front.Some? ==> y.due < front.value.due
    ensures Executed(d, sc.At(t)) == Some(y) && y != sc.s && Tick(d, sc.At(t)) == AfterCrash(d, y)
    ensures Stands(sc, AfterCrash(d, y), Some(y))
  {
    hide Choice, Tick, Executed, Front, Distinct, NewBlocker;
    RivalFront(sc, t, d.completed);
    PlanIsOfOne(sc);
    FrontIs(sc.rivals, t, {});
    IdsDiffer(sc, y);
    ChoiceWalks(sc, d, None, t);
    TickServes(sc, d, t, None, Some(y));
  }

  lemma {:induction false} StartsBehindARival(sc: Scene, q: int, y: Slot)
    requires sc.Fits() && sc.s.due <= q && sc.passing < q - POLL_SECONDS
    requires RivalAt(sc, q) == Some(y) && IsEarly(sc, Some(y)) && y.due <= q - POLL_SECONDS
    requires var front := Front(sc.own, q - POLL_SECONDS, {}); front.Some? ==> y.due < front.value.due
    ensures LeadsUp(sc, q - POLL_SECONDS, 1, q, Some(y))
  {
    hide Tick, Executed, Front, Distinct, NewBlocker, Executions;
    EarlyRivalStays(sc, q - POLL_SECONDS, q);
    OneMore(sc, q - POLL_SECONDS, 0);
    assert sc.Polls(q - POLL_SECONDS, 0) == [];
    NothingExecuted(sc.s);
    RivalFirst(sc, STARTED, q - POLL_SECONDS, y);
  }

  lemma {:induction false} NothingExecuted(s: Slot)
    ensures Executions(STARTED, [], s) == 0 && Run(STARTED, []) == STARTED
  {
  }

  /** The lane of `s` has an earlier slot in front of the rival: it passes first. */
  lemma {:induction false} EarlierSlotPasses(sc: Scene, t: int, z: Slot)
    requires sc.Fits() && sc.passing == t && z.due < sc.s.due
    requires Front(sc.own, t, {}) == Some(z) && (RivalAt(sc, t).Some? ==> z.due <= RivalAt(sc, t).value.due)
    ensures var d := Tick(STARTED, sc.At(t));
      && Executed(STARTED, sc.At(t)) == Some(z) && d.completed == CompletedThrough(sc.Slots(), z)
      && Stands(sc, d, None) && sc.s.id !in d.nextAttempt && AttemptsOf(d, sc.s.id) == 0
  {
    hide Choice, Front, Distinct, CompletedThrough, IdsIn;
    PlanIsOfOne(sc);
    FrontIs(sc.own, t, {});
    ChoiceWalks(sc, STARTED, None, t);
    OnlyOwnIsCompleted(sc, z);
  }

  lemma {:induction false} OnlyOwnIsCompleted(sc: Scene, z: Slot)
    requires sc.Fits() && z in sc.own && z.due < sc.s.due
    ensures sc.s.id !in CompletedThrough(sc.Slots(), z)
    ensures forall y :: y in sc.rivals ==> y.id !in CompletedThrough(sc.Slots(), z)
  {
    PlanIsOfOne(sc);
    forall y | y in sc.Plan() && y.id in CompletedThrough(sc.Slots(), z) ensures SupersededBy(y, z) {
      var a :| a in sc.Slots() && SupersededBy(a, z) && a.id == y.id;
      assert a == y;
    }
  }

  lemma {:induction false} LaneIsDone(sc: Scene, t: int, z: Slot)
    requires sc.Fits() && Front(sc.own, t, {}) == Some(z)
    ensures Front(sc.own, t, CompletedThrough(sc.Slots(), z)) == None
  {
    hide Front, Distinct;
    var completed := CompletedThrough(sc.Slots(), z);
    PlanIsOfOne(sc);
    FrontIs(sc.own, t, {});
    FrontIs(sc.own, t, completed);
    forall y | y in sc.own && Eligible(y, t, {}) ensures y.id in completed {
      assert y in sc.Slots() && SupersededBy(y, z);
    }
  }

  lemma {:induction false} EarlierFront(sc: Scene, t: int, u: int, z: Slot)
    requires sc.Fits() && t <= u && Front(sc.own, u, {}) == Some(z) && z.due <= t
    ensures Front(sc.own, t, {}) == Some(z)
  {
    hide Front, Distinct;
    PlanIsOfOne(sc);
    FrontIs(sc.own, u, {});
    FrontOf(sc.Plan(), sc.own, t, {}, z);
  }

  lemma {:induction false} StartsBehindBoth(sc: Scene, q: int, y: Slot, z: Slot)
    requires sc.Fits() && sc.s.due <= q && sc.passing == q - 2 * POLL_SECONDS
    requires RivalAt(sc, q) == Some(y) && IsEarly(sc, Some(y)) && y.due <= q - 2 * POLL_SECONDS
    requires Front(sc.own, q - POLL_SECONDS, {}) == Some(z) && z.due <= y.due
    ensures LeadsUp(sc, q - 2 * POLL_SECONDS, 2, q, Some(y))
  {
    hide Tick, Executed, Front, Distinct, NewBlocker, Executions, CompletedThrough;
    var t := q - 2 * POLL_SECONDS;
    EarlyRivalStays(sc, t, q);
    EarlyRivalStays(sc, q - POLL_SECONDS, q);
    EarlierFront(sc, t, q - POLL_SECONDS, z);
    OneMore(sc, t, 0);
    OneMore(sc, t, 1);
    assert sc.Polls(t, 0) == [];
    NothingExecuted(sc.s);
    EarlierSlotPasses(sc, t, z);
    LaneIsDone(sc, q - POLL_SECONDS, z);
    RivalFirst(sc, Tick(STARTED, sc.At(t)), q - POLL_SECONDS, y);
  }

  /** Where `s` may already run a poll earlier. */
  lemma {:induction false} Starts(sc: Scene, q: int) returns (start: int, m: nat, first: Option<Slot>)
    requires sc.Fits() && sc.passing < q - POLL_SECONDS && sc.s.due <= q - POLL_SECONDS
    requires Alive(sc, q - POLL_SECONDS)
    ensures LeadsUp(sc, start, m, q, first)
  {
    hide Front, Distinct, Alive, LeadsUp;
    var rival := RivalAt(sc, q);
    if IsEarly(sc, rival) {
      AliveIsFront(sc, q - POLL_SECONDS, {});
      StartsBehindARival(sc, q, rival.value);
      start, m, first := q - POLL_SECONDS, 1, rival;
    } else {
      StartsAtOnce(sc, q);
      start, m, first := q, 0, None;
    }
  }

  // ---- A plan of two lanes ----

  /** The slots of one instrument: those in the lane of `s`, and those of one other kind. */
  ghost predicate TwoLanes(plan: set<Slot>, s: Slot, kind: string) {
    && Distinct(plan) && s in plan && OneKey(s) && kind != s.kind
    && forall y :: y in plan ==> y.keys == s.keys && (y.kind == s.kind || y.kind == kind)
  }

  lemma {:induction false} Listed(slots: set<Slot>) returns (list: seq<Slot>)
    ensures forall z :: z in list <==> z in slots
  {
    if slots == {} {
      list := [];
    } else {
      var z := Sets.Member(slots);
      var rest := Listed(slots - {z});
      list := [z] + rest;
    }
  }

  lemma {:induction false} SceneOf(plan: set<Slot>, s: Slot, kind: string, crashes: int -> bool, passing: int)
      returns (sc: Scene)
    requires TwoLanes(plan, s, kind)
    ensures sc.Fits() && sc.Plan() == plan && sc.s == s && sc.crashes == crashes && sc.passing == passing
  {
    hide Distinct;
    var own := Listed(set y | y in plan && y.kind == s.kind);
    var rivals := Listed(set y | y in plan && y.kind == kind);
    sc := Scene(own, rivals, s, crashes, passing);
    assert sc.Plan() == plan;
  }

  lemma {:induction false} RivalIsThere(sc: Scene, x: Slot, t: int)
    requires sc.Fits() && x in sc.Plan() && !SameLane(x, sc.s) && InCatchUp(x, t)
    ensures RivalAt(sc, t).Some?
  {
    hide Front, Distinct;
    PlanIsOfOne(sc);
    FrontIs(sc.rivals, t, {});
    assert x in sc.rivals;
  }

  // ---- Taking turns for as long as the lanes contend ----

  ghost predicate ContendedAt(schedule: set<Slot>, s: Slot, t: int) { exists x :: Contended(schedule, s, x, t) }

  function Always(): int -> bool { (t: int) => true }

  /** Two lanes that contend for `n` retry delays on end: `s` can be executed `n + 1` times. */
  lemma {:induction false} RivalsTakeTurns(plan: set<Slot>, s: Slot, kind: string, a: int, n: nat)
      returns (polls: seq<Poll>)
    requires TwoLanes(plan, s, kind) && (forall t :: a <= t <= a + RETRY_SECONDS * n ==> ContendedAt(plan, s, t))
    requires InCatchUp(s, a + RETRY_SECONDS * n + POLL_SECONDS)
      && !Overtaken(plan, s, a + RETRY_SECONDS * n + POLL_SECONDS)
    ensures PacedRun(polls, plan, s) && Executions(STARTED, polls, s) == n + 1
  {
    hide TwoLanes, Front, LeadsUp, PacedRun, Executions, ContendedAt;
    var sc := SceneOf(plan, s, kind, Always(), a - 1);
    var q, end := a + POLL_SECONDS, a + RETRY_SECONDS * n + POLL_SECONDS;
    assert ContendedAt(plan, s, a);
    assert s.due <= a by { ContendedNow(plan, s, a); }
    AliveBetween(sc, a, a, end);
    var start, m, first := Starts(sc, q);
    forall i | 0 <= i < n ensures GoesOn(sc, q, i) {
      RivalAlways(sc, q + RETRY_SECONDS * i + POLL_SECONDS);
    }
    RunsSoOften(sc, start, m, q, first, n);
    polls := sc.Polls(start, m + 2 * n + 1);
  }

  lemma {:induction false} ContendedNow(plan: set<Slot>, s: Slot, t: int)
    requires ContendedAt(plan, s, t)
    ensures s.due <= t
  {
  }

  lemma {:induction false} RivalAlways(sc: Scene, t: int)
    requires sc.Fits() && ContendedAt(sc.Plan(), sc.s, t)
    ensures RivalAt(sc, t).Some?
  {
    hide Distinct, Front;
    var x :| Contended(sc.Plan(), sc.s, x, t);
    RivalIsThere(sc, x, t);
  }

  /** The general bound is reached by two slots of one instrument that come due together. */
  lemma {:induction false} BoundIsReached(s: Slot, x: Slot) returns (polls: seq<Poll>)
    requires OneKey(s) && x.keys == s.keys && x.kind != s.kind && x.id != s.id && x.due == s.due
    ensures PacedRun(polls, {s, x}, s)
    ensures Executions(STARTED, polls, s) == 721
  {
    hide LeadsUp, PacedRun, Executions, Front;
    var sc := SceneOf({s, x}, s, x.kind, Always(), s.due - 1);
    assert !IsEarly(sc, RivalAt(sc, s.due)) by {
      PlanIsOfOne(sc);
      FrontIs(sc.rivals, s.due, {});
    }
    StartsAtOnce(sc, s.due);
    var n := MAX_CATCHUP_AGE / RETRY_SECONDS;
    forall i | 0 <= i < n ensures GoesOn(sc, s.due, i) {
      RivalIsThere(sc, x, s.due + RETRY_SECONDS * i + POLL_SECONDS);
    }
    RunsSoOften(sc, s.due, 0, s.due, None, n);
    polls := sc.Polls(s.due, 2 * n + 1);
  }

  // ---- The fifth execution ----

  function Once(crash: int): int -> bool { (t: int) => t == crash }

  lemma {:induction false} StreakOf(sc: Scene, q: int, k: nat, i: nat)
    requires sc.crashes == Once(q + RETRY_SECONDS * k)
    ensures Streak(sc, q, i) == if i <= k then i else i - k - 1
  {
    if i > 0 {
      StreakOf(sc, q, k, i - 1);
      assert sc.crashes(q + RETRY_SECONDS * (i - 1)) <==> i - 1 == k;
    }
  }

  /** Four late responses and a crash, with a rival after the crash, whichever of the five it is but the last. */
  lemma {:induction false} FiveTimes(sc: Scene, start: int, m: nat, q: int, first: Option<Slot>, k: nat)
      returns (polls: seq<Poll>)
    requires sc.Fits() && LeadsUp(sc, start, m, q, first) && Alive(sc, q + 4 * RETRY_SECONDS)
    requires sc.crashes == Once(q + RETRY_SECONDS * k) && k < 4
    requires RivalAt(sc, q + RETRY_SECONDS * k + POLL_SECONDS).Some?
    ensures PacedRun(polls, sc.Plan(), sc.s) && Executions(STARTED, polls, sc.s) == 5
  {
    hide LeadsUp, PacedRun, Executions, Front, Alive;
    forall i | 0 <= i < 4 ensures GoesOn(sc, q, i) {
      StreakOf(sc, q, k, i);
    }
    RunsSoOften(sc, start, m, q, first, 4);
    polls := sc.Polls(start, m + 2 * 4 + 1);
  }

  const MINUTES := 60

  /** The slots next to `s` in its lane are at least four minutes away. */
  ghost predicate Sparse(plan: set<Slot>, s: Slot) {
    forall y :: y in plan && SameLane(y, s) && y != s ==>
      y.due + 4 * MINUTES <= s.due || s.due + 4 * MINUTES <= y.due
  }

  lemma {:induction false} AliveAtFirst(sc: Scene, t: int)
    requires sc.Fits() && Sparse(sc.Plan(), sc.s) && sc.s.due <= t < sc.s.due + 4 * MINUTES
    ensures Alive(sc, t)
  {
  }

  /** Interference two minutes or more after `s` came due: the rival lets it run again after the fourth time. */
  lemma {:induction false} FifthLate(plan: set<Slot>, s: Slot, kind: string, x: Slot, t: int)
      returns (polls: seq<Poll>)
    requires TwoLanes(plan, s, kind) && Interferes(plan, s, x, t) && s.due + 2 * MINUTES <= t
    ensures PacedRun(polls, plan, s) && Executions(STARTED, polls, s) == 5
  {
    hide TwoLanes, LeadsUp, PacedRun, Executions, Front;
    var q := t - 3 * RETRY_SECONDS - POLL_SECONDS;
    var sc := SceneOf(plan, s, kind, Once(q + RETRY_SECONDS * 3), q - POLL_SECONDS - 1);
    AliveBetween(sc, q - POLL_SECONDS, q - POLL_SECONDS, t + POLL_SECONDS);
    var start, m, first := Starts(sc, q);
    RivalIsThere(sc, x, t);
    polls := FiveTimes(sc, start, m, q, first, 3);
  }

  /** Sooner, with a rival still there one poll later: `s` crashes when the rival is first seen. */
  lemma {:induction false} FifthSoon(plan: set<Slot>, s: Slot, kind: string, x: Slot, t: int)
      returns (polls: seq<Poll>)
    requires TwoLanes(plan, s, kind) && Sparse(plan, s)
    requires s.due + POLL_SECONDS <= t < s.due + 2 * MINUTES
    requires x in plan && !SameLane(x, s) && InCatchUp(x, t + POLL_SECONDS)
    ensures PacedRun(polls, plan, s) && Executions(STARTED, polls, s) == 5
  {
    hide TwoLanes, LeadsUp, PacedRun, Executions, Front, Alive;
    var sc := SceneOf(plan, s, kind, Once(t + RETRY_SECONDS * 0), t - POLL_SECONDS - 1);
    AliveAtFirst(sc, t - POLL_SECONDS);
    AliveAtFirst(sc, t + 4 * RETRY_SECONDS);
    var start, m, first := Starts(sc, t);
    RivalIsThere(sc, x, t + POLL_SECONDS);
    polls := FiveTimes(sc, start, m, t, first, 0);
  }

  /** Sooner, with the rival at its last: it ran just before `s` came due, and runs once more. */
  lemma {:induction false} FifthAtLast(plan: set<Slot>, s: Slot, kind: string, x: Slot, t: int)
      returns (polls: seq<Poll>)
    requires TwoLanes(plan, s, kind) && Sparse(plan, s) && Interferes(plan, s, x, t) && t < s.due + 2 * MINUTES
    requires forall y :: y in plan && !SameLane(y, s) ==> !InCatchUp(y, t + POLL_SECONDS)
    ensures PacedRun(polls, plan, s) && Executions(STARTED, polls, s) == 5
  {
    hide TwoLanes, LeadsUp, PacedRun, Executions, Front, Alive;
    var q := t - POLL_SECONDS;
    var sc := SceneOf(plan, s, kind, Once(q + RETRY_SECONDS * 0), q - 2 * POLL_SECONDS);
    AliveAtFirst(sc, q + 4 * RETRY_SECONDS);
    RivalIsThere(sc, x, t);
    var y := OldRival(sc, t);
    var front := Front(sc.own, q - POLL_SECONDS, {});
    if front.Some? && front.value.due <= y.due {
      StartsBehindBoth(sc, q, y, front.value);
      polls := FiveTimes(sc, q - 2 * POLL_SECONDS, 2, q, Some(y), 0);
    } else {
      StartsBehindARival(sc, q, y);
      polls := FiveTimes(sc, q - POLL_SECONDS, 1, q, Some(y), 0);
    }
  }

  /** A rival that is there for the last time came due hours ago. */
  lemma {:induction false} OldRival(sc: Scene, t: int) returns (y: Slot)
    requires sc.Fits() && RivalAt(sc, t).Some?
    requires forall z :: z in sc.Plan() && !SameLane(z, sc.s) ==> !InCatchUp(z, t + POLL_SECONDS)
    requires sc.s.due <= t
    ensures RivalAt(sc, t) == Some(y) == RivalAt(sc, t - POLL_SECONDS)
    ensures y.due + MAX_CATCHUP_AGE < t + POLL_SECONDS
  {
    hide Front, Distinct;
    y := RivalAt(sc, t).value;
    PlanIsOfOne(sc);
    FrontIs(sc.rivals, t, {});
    assert y in sc.Plan() && !SameLane(y, sc.s);
    EarlyRivalStays(sc, t - POLL_SECONDS, t);
  }

  lemma {:induction false} InterferenceGivesAFifth(plan: set<Slot>, s: Slot, kind: string, x: Slot, t: int)
      returns (polls: seq<Poll>)
    requires TwoLanes(plan, s, kind) && Sparse(plan, s) && Interferes(plan, s, x, t)
    ensures PacedRun(polls, plan, s) && Executions(STARTED, polls, s) == 5
  {
    hide TwoLanes, PacedRun, Executions, Sparse;
    if s.due + 2 * MINUTES <= t {
      polls := FifthLate(plan, s, kind, x, t);
    } else if y :| y in plan && !SameLane(y, s) && InCatchUp(y, t + POLL_SECONDS) {
      polls := FifthSoon(plan, s, kind, y, t);
    } else {
      polls := FifthAtLast(plan, s, kind, x, t);
    }
  }

  // ---- Exactly ----

  /** The slots of the schedule for the instrument of `s` are those of the plan. */
  ghost predicate Plans(schedule: set<Slot>, plan: set<Slot>, s: Slot) {
    forall y :: y in plan <==> y in schedule && y.keys == s.keys
  }

  lemma {:induction false} InterferesWithin(schedule: set<Slot>, plan: set<Slot>, s: Slot, x: Slot, t: int)
    requires OneInstrumentEach(schedule) && s in schedule && Plans(schedule, plan, s) && Interferes(schedule, s, x, t)
    ensures Interferes(plan, s, x, t)
  {
    assert OneKey(s) && OneKey(x);
    var k :| s.keys == {k};
    var l :| x.keys == {l};
    var m :| m in x.keys * s.keys;
  }

  /**
   Exactly when a slot of an instrument with two lanes is executed at most four times, whatever else is scheduled and
   however the executor answers, in every paced run from a fresh start that is quiet as far as its own blockers go:
   when at no time a slot of the other lane may run one poll after it could run and one poll before it still can.
   */
  lemma {:induction false} RetriesAreBoundedExactly(plan: set<Slot>, s: Slot, kind: string)
    requires TwoLanes(plan, s, kind) && Sparse(plan, s)
    ensures (forall schedule: set<Slot>, polls: seq<Poll> ::
              Plans(schedule, plan, s) && PacedRun(polls, schedule, s) ==>
              Executions(STARTED, polls, s) <= MAX_TRANSIENT_SLOT_ATTEMPTS)
      <==> (forall x: Slot, t: int :: !Interferes(plan, s, x, t))
  {
    hide PacedRun, Executions, Sparse, Interferes, Distinct;
    if x: Slot, t: int :| Interferes(plan, s, x, t) {
      var polls := InterferenceGivesAFifth(plan, s, kind, x, t);
      assert Plans(plan, plan, s);
    } else {
      forall schedule: set<Slot>, polls: seq<Poll> | Plans(schedule, plan, s) && PacedRun(polls, schedule, s)
        ensures Executions(STARTED, polls, s) <= MAX_TRANSIENT_SLOT_ATTEMPTS
      {
        if Executions(STARTED, polls, s) > MAX_TRANSIENT_SLOT_ATTEMPTS {
          var x, t := FifthNeedsARival(polls, schedule, s);
          ScheduleOf(polls, schedule, s);
          InterferesWithin(schedule, plan, s, x, t);
        }
      }
    }
  }

  lemma {:induction false} ScheduleOf(polls: seq<Poll>, schedule: set<Slot>, s: Slot)
    requires PacedRun(polls, schedule, s)
    ensures OneInstrumentEach(schedule) && s in schedule
  {
  }
}
