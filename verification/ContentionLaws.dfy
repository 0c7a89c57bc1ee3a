/** How often a slot can be executed where two lanes of its instrument contend. */
module ContentionLaws {
  import opened BlockerLaws
  import opened Scheduler
  import opened SchedulerLaws
  import opened RetryLaws
  import opened Types

  /** Every slot is of one instrument, as the scheduler's scope makes them. */
  ghost predicate OneInstrumentEach(schedule: set<Slot>) { forall x :: x in schedule ==> OneKey(x) }

  ghost predicate OneKey(x: Slot) { exists k :: x.keys == {k} }

  /** The daemon sleeps between polls. */
  ghost predicate Paced(polls: seq<Poll>) {
    forall i, j :: 0 <= i < j < |polls| ==> polls[i].now + POLL_SECONDS <= polls[j].now
  }

  /** An orderly run from a fresh start. */
  ghost predicate PacedRun(polls: seq<Poll>, schedule: set<Slot>, s: Slot) {
    && OneInstrumentEach(schedule) && s in schedule
    && OrderlyRun(STARTED, polls, schedule, s) && Paced(polls)
  }

  /** At `t` the slot `x` of another lane may run, one poll after `s` could first run and one before it still can. */
  ghost predicate Interferes(schedule: set<Slot>, s: Slot, x: Slot, t: int) {
    && Contended(schedule, s, x, t)
    && s.due + POLL_SECONDS <= t
    && InCatchUp(s, t + POLL_SECONDS) && !Overtaken(schedule, s, t + POLL_SECONDS)
  }

  // ---- A held slot stays held until a rival runs ----

  /** Another slot of the instrument. */
  predicate Rival(y: Slot, s: Slot) { y != s && y.keys == s.keys }

  /** No other slot of the instrument waits for its next attempt. */
  ghost predicate Rested(d: Daemon, schedule: set<Slot>, s: Slot, t: int) {
    forall y :: y in schedule && Rival(y, s) ==> MayAttempt(d.nextAttempt, y, t)
  }

  /** Where no rival waits, the selection keeps the blocker of a slot or serves a rival. */
  lemma {:induction false} SelectHoldsOrServes(blockers: seq<Blocker>, candidates: seq<Slot>,
      nextAttempt: map<string, int>, now: int, revision: set<string> -> string, b: Blocker, s: Slot)
    requires OneAnInstrument(blockers) && b in blockers && Own(b, s) && revision(b.keys) == b.revision
    requires forall c :: c in candidates ==> OneKey(c)
    requires OneKey(s)
    requires forall c :: c in candidates && Rival(c, s) && c.id != s.id ==> MayAttempt(nextAttempt, c, now)
    ensures var r := Select(blockers, candidates, nextAttempt, now, revision);
      b in r.blockers || (r.slot.Some? && r.slot.value.keys == s.keys && r.slot.value.id != s.id)
    decreases |candidates|
  {
    if candidates != [] {
      hide OneAnInstrument, StillApplies, OneKey, MayAttempt;
      var c := candidates[0];
      var seen := Examine(blockers, c, revision);
      ExamineIsApart(blockers, c, revision);
      if !Concerns(b, c) || StillApplies(b, c, b.revision) {
        ExamineKeeps(blockers, c, revision, b);
      } else {
        DropsAndPasses(blockers, c, revision, b, s);
      }
      if seen.blocked || !MayAttempt(nextAttempt, c, now) {
        SelectHoldsOrServes(seen.blockers, candidates[1..], nextAttempt, now, revision, b, s);
      }
    }
  }

  /** A candidate that drops the blocker is free of blockers, and another slot of the instrument. */
  lemma {:induction false} DropsAndPasses(blockers: seq<Blocker>, c: Slot, revision: set<string> -> string,
      b: Blocker, s: Slot)
    requires OneAnInstrument(blockers) && b in blockers && Own(b, s) && revision(b.keys) == b.revision
    requires OneKey(c) && OneKey(s) && Concerns(b, c) && !StillApplies(b, c, b.revision)
    ensures c.keys == s.keys && c.id != s.id && !Examine(blockers, c, revision).blocked
  {
    ExamineShrinks(blockers, c, revision);
    var k :| c.keys == {k};
    var l :| s.keys == {l};
    assert k in b.keys * c.keys;
  }

  lemma {:induction false} CandidatesAreScheduled(schedule: set<Slot>, poll: Poll, completed: set<string>)
    requires Shows(schedule, poll)
    ensures forall c :: c in Candidates(poll.slots, poll.now, completed) ==> c in schedule
  {
    hide Candidates;
    CandidatesLead(poll.slots, poll.now, completed);
    forall c | c in Candidates(poll.slots, poll.now, completed) ensures c in schedule {
      assert c in Offered(poll.slots, poll.now, completed);
    }
  }

  /** What the laws below ask of a poll and of the state it meets. */
  ghost predicate Orderly(d: Daemon, poll: Poll, schedule: set<Slot>, s: Slot) {
    && Distinct(schedule) && OneInstrumentEach(schedule) && s in schedule
    && Shows(schedule, poll) && Honest(poll) && Quiet(d, poll, s) && OneAnInstrument(d.blockers)
  }

  predicate NoRivalRuns(d: Daemon, poll: Poll, s: Slot) {
    Executed(d, poll).Some? ==> !Rival(Executed(d, poll).value, s)
  }

  lemma {:induction false} HeldUnlessRivaled(d: Daemon, poll: Poll, schedule: set<Slot>, s: Slot)
    requires Orderly(d, poll, schedule, s) && Held(d, s) && Rested(d, schedule, s, poll.now)
    requires NoRivalRuns(d, poll, s)
    ensures Held(Tick(d, poll), s) && Executed(d, poll) != Some(s)
  {
    hide Tick, Candidates, Select, Swept, OneAnInstrument, StillApplies, Distinct;
    var b :| b in d.blockers && Own(b, s);
    assert OneKey(s);
    var k :| s.keys == {k};
    var swept, candidates := Swept(d.blockers, poll.before), Candidates(poll.slots, poll.now, d.completed);
    SweptAre(d.blockers, poll.before);
    SweptIsApart(d.blockers, poll.before);
    CandidatesAreScheduled(schedule, poll, d.completed);
    SelectHoldsOrServes(swept, candidates, d.nextAttempt, poll.now, poll.before, b, s);
    SelectIsApart(swept, candidates, d.nextAttempt, poll.now, poll.before);
    assert k in b.keys * s.keys;
    ExecutionKeeps(d, poll, b);
  }

  // ---- What is left to execute after the first execution ----

  /** The first `n` executions are accounted for: nothing is left to run, or each was an attempt that failed. */
  ghost predicate Spent(d: Daemon, s: Slot, n: nat) {
    && n <= MAX_TRANSIENT_SLOT_ATTEMPTS
    && (s.id in d.completed || Held(d, s) || n <= AttemptsOf(d, s.id) < MAX_TRANSIENT_SLOT_ATTEMPTS)
  }

  lemma {:induction false} ExecutionSpends(d: Daemon, poll: Poll, s: Slot, n: nat)
    requires Honest(poll) && OneKey(s) && Executed(d, poll) == Some(s)
    requires n <= AttemptsOf(d, s.id) < MAX_TRANSIENT_SLOT_ATTEMPTS
    ensures Spent(Tick(d, poll), s, n + 1)
  {
    hide Tick, Executed, AttemptsOf, Honest;
    CostOfOutcome(d, poll, s);
  }

  lemma {:induction false} SpentStays(d: Daemon, poll: Poll, schedule: set<Slot>, s: Slot, n: nat)
    requires Orderly(d, poll, schedule, s) && Rested(d, schedule, s, poll.now) && NoRivalRuns(d, poll, s)
    requires Spent(d, s, n)
    ensures Spent(Tick(d, poll), s, n + if Executed(d, poll) == Some(s) then 1 else 0)
  {
    hide Tick, Executed, AttemptsOf, Quiet, OneAnInstrument, Held, Rested, Distinct;
    if Held(d, s) {
      HeldUnlessRivaled(d, poll, schedule, s);
    }
    if Executed(d, poll) == Some(s) {
      ExecutedIsOffered(d, poll);
      assert OneKey(s);
      ExecutionSpends(d, poll, s, n);
    } else {
      OtherExecution(d, poll, schedule, s);
    }
  }

  // ---- Over a paced run ----

  lemma {:induction false} PacedPrefix(polls: seq<Poll>, schedule: set<Slot>, s: Slot, n: nat)
    requires PacedRun(polls, schedule, s) && n <= |polls|
    ensures PacedRun(polls[..n], schedule, s)
  {
    hide Run, Closed, Honest, Distinct, Quiet;
    forall i | 0 <= i < n ensures Quiet(Before(STARTED, polls[..n], i), polls[..n][i], s) && Honest(polls[..n][i]) {
      assert polls[..n][..i] == polls[..i];
      assert Quiet(Before(STARTED, polls, i), polls[i], s);
    }
    if n > 0 { FreshIsClosed(schedule, polls[0].now); }
  }

  lemma {:induction false} OrderlyAt(polls: seq<Poll>, schedule: set<Slot>, s: Slot, i: nat)
    requires PacedRun(polls, schedule, s) && i < |polls|
    ensures Orderly(Before(STARTED, polls, i), polls[i], schedule, s)
  {
    hide Run, Quiet, OneAnInstrument, Distinct, Honest, Closed;
    forall j | 0 <= j < i ensures Honest(polls[..i][j]) && OfInstruments(polls[..i][j]) {
      assert Shows(schedule, polls[j]);
      assert Honest(polls[j]);
      forall y | y in polls[j].slots ensures y.keys != {} { assert OneKey(y); }
    }
    BlockersStayApart(polls[..i]);
    assert Quiet(Before(STARTED, polls, i), polls[i], s);
  }

  /** No slot waits longer than the retry delay after the last poll. */
  lemma {:induction false} WaitsAreShort(polls: seq<Poll>, schedule: set<Slot>, id: string)
    requires Timeline(schedule, polls) && id in Run(STARTED, polls).nextAttempt
    ensures polls != [] && Run(STARTED, polls).nextAttempt[id] <= polls[|polls| - 1].now + RETRY_SECONDS
  {
    hide Tick;
    assert polls != [];
    var n := |polls| - 1;
    var before := Run(STARTED, polls[..n]);
    WaitAfter(before, polls[n], id);
    if id in before.nextAttempt && before.nextAttempt[id] == Run(STARTED, polls).nextAttempt[id] {
      WaitsAreShort(polls[..n], schedule, id);
    }
  }

  lemma {:induction false} WaitAfter(d: Daemon, poll: Poll, id: string)
    requires id in Tick(d, poll).nextAttempt
    ensures var t := Tick(d, poll).nextAttempt[id];
      t == poll.now + RETRY_SECONDS || (id in d.nextAttempt && t == d.nextAttempt[id])
  {
    hide Choice, NewBlocker, PutBlocker, IsTransient, Affected, IdsIn, Unconcerned, CompletedThrough;
  }

  /** When a slot runs, no other slot of the instrument waits beyond the next poll. */
  lemma {:induction false} RestedBefore(polls: seq<Poll>, schedule: set<Slot>, s: Slot, f: nat)
    requires Timeline(schedule, polls) && Paced(polls) && f < |polls|
    ensures Rested(Before(STARTED, polls, f), schedule, s, polls[f].now + POLL_SECONDS)
  {
    hide Run;
    var d := Before(STARTED, polls, f);
    forall y | y in schedule && Rival(y, s) ensures MayAttempt(d.nextAttempt, y, polls[f].now + POLL_SECONDS) {
      if y.id in d.nextAttempt {
        WaitsAreShort(polls[..f], schedule, y.id);
      }
    }
  }

  ghost predicate NoRivalIn(polls: seq<Poll>, s: Slot, f: nat, n: nat)
    requires n <= |polls|
  {
    forall m :: f < m < n ==> NoRivalRuns(Before(STARTED, polls, m), polls[m], s)
  }

  lemma {:induction false} RestedStays(d: Daemon, poll: Poll, schedule: set<Slot>, s: Slot, t: int)
    requires Distinct(schedule) && Shows(schedule, poll) && NoRivalRuns(d, poll, s) && Rested(d, schedule, s, t)
    ensures Rested(Tick(d, poll), schedule, s, t)
  {
    hide Tick, Executed, Distinct, Shows;
    forall y | y in schedule && Rival(y, s) ensures MayAttempt(Tick(d, poll).nextAttempt, y, t) {
      OtherExecution(d, poll, schedule, y);
    }
  }

  lemma {:induction false} RestedSince(polls: seq<Poll>, schedule: set<Slot>, s: Slot, f: nat, n: nat)
    requires PacedRun(polls, schedule, s) && f < n <= |polls| && NoRivalIn(polls, s, f, n)
    requires ExecutedAt(STARTED, polls, f) == Some(s)
    ensures Rested(Before(STARTED, polls, n), schedule, s, polls[f].now + POLL_SECONDS)
    decreases n
  {
    hide Tick, Executed, Distinct, Closed, Honest, Quiet, Rested;
    assert polls[..n][..n - 1] == polls[..n - 1];
    assert Shows(schedule, polls[n - 1]);
    if n == f + 1 {
      RestedBefore(polls, schedule, s, f);
    } else {
      RestedSince(polls, schedule, s, f, n - 1);
    }
    RestedStays(Before(STARTED, polls, n - 1), polls[n - 1], schedule, s, polls[f].now + POLL_SECONDS);
  }

  lemma {:induction false} RestedNow(polls: seq<Poll>, schedule: set<Slot>, s: Slot, f: nat, n: nat)
    requires PacedRun(polls, schedule, s) && f < n < |polls| && NoRivalIn(polls, s, f, n)
    requires ExecutedAt(STARTED, polls, f) == Some(s)
    ensures Rested(Before(STARTED, polls, n), schedule, s, polls[n].now)
  {
    hide Run, Executed, Distinct, Closed, Honest, Quiet, NoRivalIn;
    RestedSince(polls, schedule, s, f, n);
    assert polls[f].now + POLL_SECONDS <= polls[n].now;
  }

  ghost predicate IsFirst(polls: seq<Poll>, s: Slot, f: nat) {
    && f < |polls| && ExecutedAt(STARTED, polls, f) == Some(s)
    && forall m :: 0 <= m < f ==> ExecutedAt(STARTED, polls, m) != Some(s)
  }

  lemma {:induction false} FirstExecution(polls: seq<Poll>, s: Slot) returns (f: nat)
    requires Executions(STARTED, polls, s) > 0
    ensures IsFirst(polls, s, f)
  {
    hide Executed, Tick;
    var n := |polls| - 1;
    if Executions(STARTED, polls[..n], s) > 0 {
      f := FirstExecution(polls[..n], s);
      assert polls[..n][..f] == polls[..f];
      forall m | 0 <= m < f ensures ExecutedAt(STARTED, polls, m) != Some(s) {
        assert polls[..n][..m] == polls[..m];
        assert ExecutedAt(STARTED, polls[..n], m) != Some(s);
      }
    } else {
      f := n;
      forall m | 0 <= m < n ensures ExecutedAt(STARTED, polls, m) != Some(s) {
        NoneExecuted(polls[..n], s, m);
        assert polls[..n][..m] == polls[..m];
      }
    }
  }

  lemma {:induction false} NoneExecuted(polls: seq<Poll>, s: Slot, m: nat)
    requires Executions(STARTED, polls, s) == 0 && m < |polls|
    ensures ExecutedAt(STARTED, polls, m) != Some(s)
  {
    hide Executed, Tick;
    var n := |polls| - 1;
    if m < n {
      NoneExecuted(polls[..n], s, m);
      assert polls[..n][..m] == polls[..m];
    }
  }

  lemma {:induction false} NothingSpent(polls: seq<Poll>, schedule: set<Slot>, s: Slot, n: nat)
    requires PacedRun(polls, schedule, s) && n <= |polls|
    requires forall m :: 0 <= m < n ==> ExecutedAt(STARTED, polls, m) != Some(s)
    ensures AttemptsOf(Before(STARTED, polls, n), s.id) == 0 && Executions(STARTED, polls[..n], s) == 0
  {
    hide Tick, Executed, Distinct, Closed, Honest, Quiet;
    if n > 0 {
      NothingSpent(polls, schedule, s, n - 1);
      assert polls[..n][..n - 1] == polls[..n - 1];
      assert Shows(schedule, polls[n - 1]);
      assert ExecutedAt(STARTED, polls, n - 1) != Some(s);
      OtherExecution(Before(STARTED, polls, n - 1), polls[n - 1], schedule, s);
    }
  }

  /** From the first execution on, as long as no rival runs, the executions are accounted for. */
  lemma {:induction false} SpentSince(polls: seq<Poll>, schedule: set<Slot>, s: Slot, f: nat, n: nat)
    requires PacedRun(polls, schedule, s) && IsFirst(polls, s, f) && f < n <= |polls| && NoRivalIn(polls, s, f, n)
    ensures Spent(Before(STARTED, polls, n), s, Executions(STARTED, polls[..n], s))
    decreases n
  {
    hide Tick, Executed, AttemptsOf, Spent, PacedRun, Orderly, Rested;
    assert polls[..n][..n - 1] == polls[..n - 1];
    OrderlyAt(polls, schedule, s, n - 1);
    if n == f + 1 {
      NothingSpent(polls, schedule, s, f);
      assert OneKey(s) && Honest(polls[f]) by { InstrumentOf(polls, schedule, s, f); }
      ExecutionSpends(Before(STARTED, polls, f), polls[f], s, 0);
    } else {
      SpentSince(polls, schedule, s, f, n - 1);
      RestedNow(polls, schedule, s, f, n - 1);
      SpentStays(Before(STARTED, polls, n - 1), polls[n - 1], schedule, s, Executions(STARTED, polls[..n - 1], s));
    }
  }

  lemma {:induction false} InstrumentOf(polls: seq<Poll>, schedule: set<Slot>, s: Slot, i: nat)
    requires PacedRun(polls, schedule, s) && i < |polls|
    ensures OneKey(s) && Honest(polls[i])
  {
    hide Honest, Distinct, Quiet, Closed, OneKey;
  }

  /** A rival that runs between two executions of a slot interferes with it. */
  lemma {:induction false} RivalInterferes(polls: seq<Poll>, schedule: set<Slot>, s: Slot, f: nat, m: nat, n: nat)
      returns (x: Slot)
    requires PacedRun(polls, schedule, s) && f < m < n < |polls|
    requires ExecutedAt(STARTED, polls, f) == Some(s) == ExecutedAt(STARTED, polls, n)
    requires !NoRivalRuns(Before(STARTED, polls, m), polls[m], s)
    ensures Interferes(schedule, s, x, polls[m].now)
  {
    hide Run, Executed, Closed, Honest, Quiet;
    x := ExecutedAt(STARTED, polls, m).value;
    ExecutedIsOffered(Before(STARTED, polls, f), polls[f]);
    ExecutedIsOffered(Before(STARTED, polls, m), polls[m]);
    ExecutedIsOffered(Before(STARTED, polls, n), polls[n]);
    if SameLane(x, s) {
      LaneProgress(schedule, STARTED, polls, f, m);
      LaneProgress(schedule, STARTED, polls, m, n);
    }
    LatestWhenRun(polls, schedule, s, n);
    assert OneKey(s);
    var k :| s.keys == {k};
    assert k in x.keys * s.keys;
    assert polls[f].now + POLL_SECONDS <= polls[m].now && polls[m].now + POLL_SECONDS <= polls[n].now;
  }

  /** A slot that runs has not been overtaken, then or before. */
  lemma {:induction false} LatestWhenRun(polls: seq<Poll>, schedule: set<Slot>, s: Slot, n: nat)
    requires PacedRun(polls, schedule, s) && n < |polls| && ExecutedAt(STARTED, polls, n) == Some(s)
    ensures forall t :: t <= polls[n].now ==> !Overtaken(schedule, s, t)
  {
    hide Run, Executed, Closed, Honest, Quiet;
    FreshIsClosed(schedule, polls[0].now);
    ClosedBefore(schedule, STARTED, polls, n);
    forall x | x in schedule && SameLane(x, s) && x.due <= polls[n].now ensures x.due <= s.due {
      ExecutedIsLatest(schedule, Before(STARTED, polls, n), polls[n], x);
    }
  }

  /**
   Why a slot runs a fifth time: in a paced run from a fresh start, quiet as far as its own blockers go, another
   lane of its instrument interferes with it.
   */
  lemma {:induction false} FifthNeedsARival(polls: seq<Poll>, schedule: set<Slot>, s: Slot) returns (x: Slot, t: int)
    requires PacedRun(polls, schedule, s) && Executions(STARTED, polls, s) > MAX_TRANSIENT_SLOT_ATTEMPTS
    ensures Interferes(schedule, s, x, t)
  {
    hide Tick, Executed, PacedRun, IsFirst, Interferes, Spent, NoRivalIn, Orderly, Rested;
    var n := |polls| - 1;
    PacedPrefix(polls, schedule, s, n);
    if Executions(STARTED, polls[..n], s) > MAX_TRANSIENT_SLOT_ATTEMPTS {
      x, t := FifthNeedsARival(polls[..n], schedule, s);
    } else {
      var f := FirstExecution(polls[..n], s);
      FirstOfAll(polls, s, f, n);
      var m := RivalBetween(polls, schedule, s, f, n);
      x := RivalInterferes(polls, schedule, s, f, m, n);
      t := polls[m].now;
    }
  }

  lemma {:induction false} FirstOfAll(polls: seq<Poll>, s: Slot, f: nat, n: nat)
    requires n <= |polls| && IsFirst(polls[..n], s, f)
    ensures f < n && IsFirst(polls, s, f) && ExecutedAt(STARTED, polls, f) == Some(s)
  {
    hide Run, Executed;
    forall m | 0 <= m <= f ensures ExecutedAt(STARTED, polls, m) == ExecutedAt(STARTED, polls[..n], m) {
      assert polls[..n][..m] == polls[..m];
    }
  }

  /** Between the first execution and the fifth a rival runs. */
  lemma {:induction false} RivalBetween(polls: seq<Poll>, schedule: set<Slot>, s: Slot, f: nat, n: nat) returns (m: nat)
    requires PacedRun(polls, schedule, s) && f < n < |polls| && IsFirst(polls, s, f)
    requires Executions(STARTED, polls[..n], s) == MAX_TRANSIENT_SLOT_ATTEMPTS
    requires ExecutedAt(STARTED, polls, n) == Some(s)
    ensures f < m < n && !NoRivalRuns(Before(STARTED, polls, m), polls[m], s)
  {
    hide Run, Executed, PacedRun, Orderly, Rested, Held;
    if NoRivalIn(polls, s, f, n) {
      SpentSince(polls, schedule, s, f, n);
      var d := Before(STARTED, polls, n);
      ExecutedIsOffered(d, polls[n]);
      OrderlyAt(polls, schedule, s, n);
      assert ExecutedAt(STARTED, polls, f) == Some(s);
      RestedNow(polls, schedule, s, f, n);
      HeldUnlessRivaled(d, polls[n], schedule, s);
    } else {
      m :| f < m < n && !NoRivalRuns(Before(STARTED, polls, m), polls[m], s);
    }
  }

  // ---- How often at all ----

  /** Two executions of a slot are at least the retry delay apart, whatever their outcomes. */
  lemma {:induction false} ExecutionsAreSpaced(polls: seq<Poll>, schedule: set<Slot>, s: Slot, e: nat, j: nat)
    requires PacedRun(polls, schedule, s) && e < j < |polls|
    requires ExecutedAt(STARTED, polls, e) == Some(s) == ExecutedAt(STARTED, polls, j)
    ensures polls[e].now + RETRY_SECONDS <= polls[j].now
  {
    hide Run, Executed, Honest, Distinct, Quiet, Closed;
    if j > e + 1 {
      assert polls[e].now + POLL_SECONDS <= polls[e + 1].now;
      assert polls[e + 1].now + POLL_SECONDS <= polls[j].now;
    } else {
      NextIsSpaced(polls, schedule, s, e);
    }
  }

  lemma {:induction false} NextIsSpaced(polls: seq<Poll>, schedule: set<Slot>, s: Slot, e: nat)
    requires PacedRun(polls, schedule, s) && e + 1 < |polls|
    requires ExecutedAt(STARTED, polls, e) == Some(s) == ExecutedAt(STARTED, polls, e + 1)
    ensures polls[e].now + RETRY_SECONDS <= polls[e + 1].now
  {
    hide Tick, Executed, PacedRun, Orderly, Rested, IsTransient, AttemptsOf, Held;
    var before, after := Before(STARTED, polls, e), Before(STARTED, polls, e + 1);
    assert polls[..e + 1][..e] == polls[..e];
    InstrumentOf(polls, schedule, s, e);
    CostOfOutcome(before, polls[e], s);
    ExecutedIsOffered(after, polls[e + 1]);
    if Held(after, s) {
      OrderlyAt(polls, schedule, s, e + 1);
      assert NoRivalIn(polls, s, e, e + 1);
      RestedNow(polls, schedule, s, e, e + 1);
      HeldUnlessRivaled(after, polls[e + 1], schedule, s);
    }
  }

  /** So `n` executions take at least `n - 1` retry delays. */
  lemma {:induction false} ExecutionsTakeTime(polls: seq<Poll>, schedule: set<Slot>, s: Slot) returns (e: nat)
    requires PacedRun(polls, schedule, s) && Executions(STARTED, polls, s) > 0
    ensures e < |polls| && ExecutedAt(STARTED, polls, e) == Some(s)
    ensures s.due + RETRY_SECONDS * (Executions(STARTED, polls, s) - 1) <= polls[e].now
  {
    hide Tick, Executed, PacedRun;
    var n := |polls| - 1;
    PacedPrefix(polls, schedule, s, n);
    if Executions(STARTED, polls[..n], s) > 0 {
      e := ExecutionsTakeTime(polls[..n], schedule, s);
      assert polls[..n][..e] == polls[..e];
      if Executed(Run(STARTED, polls[..n]), polls[n]) == Some(s) {
        ExecutionsAreSpaced(polls, schedule, s, e, n);
        e := n;
      }
    } else {
      e := n;
      ExecutedIsOffered(Before(STARTED, polls, n), polls[n]);
    }
  }

  /** A retry delay apart within the catch-up age: no slot runs more than 721 times, whatever contends with it. */
  lemma {:induction false} ExecutionsAreBounded(polls: seq<Poll>, schedule: set<Slot>, s: Slot)
    requires PacedRun(polls, schedule, s)
    ensures Executions(STARTED, polls, s) <= 721
  {
    hide Run, Executed, PacedRun, Executions;
    if Executions(STARTED, polls, s) > 0 {
      var e := ExecutionsTakeTime(polls, schedule, s);
      ExecutedIsOffered(Before(STARTED, polls, e), polls[e]);
    }
  }
}
