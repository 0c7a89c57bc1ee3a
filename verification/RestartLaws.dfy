/** Restarting the daemon, and two ways in which a blocker is not what it seems. */
module RestartLaws {
  import opened CompletedHistory
  import opened Scheduler
  import opened SchedulerLaws
  import opened Types
  import BlockerLaws
  import RetryLaws
  import Schedule

  // ---- The bounded history ----

  /** The ids a poll appends to the completion history. */
  function Appended(d: Daemon, poll: Poll): seq<string> {
    var executed := Executed(d, poll);
    if executed.Some? && poll.execute(executed.value).passed
    then IdsIn(poll.slots, CompletedThrough(poll.slots, executed.value))
    else []
  }

  /** Every id ever appended over a run. */
  function History(d: Daemon, polls: seq<Poll>): seq<string> {
    if polls == [] then []
    else
      var n := |polls| - 1;
      History(d, polls[..n]) + Appended(Run(d, polls[..n]), polls[n])
  }

  lemma {:induction false} IdsInAre(slots: seq<Slot>, ids: set<string>)
    ensures forall id :: id in IdsIn(slots, ids) <==> id in ids && exists s :: s in slots && s.id == id
  {
    if slots != [] {
      IdsInAre(slots[1..], ids);
      assert slots == [slots[0]] + slots[1..];
      var head := if slots[0].id in ids then [slots[0].id] else [];
      assert IdsIn(slots, ids) == head + IdsIn(slots[1..], ids);
      forall id ensures id in IdsIn(slots, ids) <==> id in ids && exists s :: s in slots && s.id == id {
        if id in ids && id == slots[0].id {
          assert head[0] == id && id in head;
        }
      }
    }
  }

  lemma {:induction false} AppendedAre(d: Daemon, poll: Poll)
    ensures Tick(d, poll).completed == d.completed + Elements(Appended(d, poll))
    ensures Tick(d, poll).order == Keep(d.order + Appended(d, poll))
        || (Appended(d, poll) == [] && Tick(d, poll).order == d.order)
  {
    hide Choice, NewBlocker, PutBlocker, IsTransient, Affected, Unconcerned, Keep, Executed;
    CompletedAfter(d, poll);
    if Executed(d, poll).Some? {
      var s := Executed(d, poll).value;
      IdsInAre(poll.slots, CompletedThrough(poll.slots, s));
    }
    OrderAfter(d, poll);
  }

  lemma {:induction false} OrderAfter(d: Daemon, poll: Poll)
    ensures var executed := Executed(d, poll);
      Tick(d, poll).order == if executed.Some? && poll.execute(executed.value).passed
        then Keep(d.order + IdsIn(poll.slots, CompletedThrough(poll.slots, executed.value))) else d.order
  {
  }

  /** From a fresh start the completed set is everything ever appended, and the stored list its bounded history. */
  lemma {:induction false} HistoryIsKept(polls: seq<Poll>)
    ensures var d := Run(STARTED, polls);
      d.completed == Elements(History(STARTED, polls)) && d.order == Keep(History(STARTED, polls))
  {
    hide Tick, Appended, Keep;
    if polls == [] {
      assert Keep<string>([]) == [] by { NothingKept(); }
    } else {
      var n := |polls| - 1;
      HistoryIsKept(polls[..n]);
      var d := Run(STARTED, polls[..n]);
      var earlier, more := History(STARTED, polls[..n]), Appended(d, polls[n]);
      AppendedAre(d, polls[n]);
      TruncationCommutes(earlier, more);
      assert earlier + [] == earlier;
      assert Elements(earlier + more) == Elements(earlier) + Elements(more);
    }
  }

  lemma {:induction false} NothingKept()
    ensures Keep<string>([]) == []
  {
  }

  /** A restart forgets a completed id exactly when at least 1024 distinct ids were completed after it. */
  lemma {:induction false} RestartForgetsOnlyOldIds(polls: seq<Poll>, before: seq<string>, id: string,
      after: seq<string>)
    requires History(STARTED, polls) == before + [id] + after && id !in after
    ensures id in Run(STARTED, polls).completed
    ensures id in Restarted(Run(STARTED, polls)).completed <==> |Elements(after)| < HISTORY_LIMIT
  {
    hide Run, History, Keep, Reclassified;
    HistoryIsKept(polls);
    EvictionRule(before, id, after);
    assert (before + [id] + after)[|before|] == id;
  }

  // ---- Progress across a restart ----

  /** Of the slots still in the catch-up window, none has 1024 distinct ids after its last completion. */
  ghost predicate RecentIdsAreKept(history: seq<string>, schedule: set<Slot>, now: int) {
    forall s, before, after :: s in schedule && LastCompleted(history, s.id, before, after) ==>
      now - s.due > MAX_CATCHUP_AGE || |Elements(after)| < HISTORY_LIMIT
  }

  ghost predicate LastCompleted(history: seq<string>, id: string, before: seq<string>, after: seq<string>) {
    history == before + [id] + after && id !in after
  }

  lemma {:induction false} LastOccurrence(history: seq<string>, id: string)
      returns (before: seq<string>, after: seq<string>)
    requires id in history
    ensures LastCompleted(history, id, before, after)
  {
    var n := |history| - 1;
    if history[n] == id {
      before, after := history[..n], [];
      assert history == before + [id] + after;
    } else {
      assert history == history[..n] + [history[n]];
      var earlier;
      before, earlier := LastOccurrence(history[..n], id);
      after := earlier + [history[n]];
      assert history == before + [id] + after;
    }
  }

  lemma {:induction false} RecentIsNotForgotten(polls: seq<Poll>, schedule: set<Slot>, now: int, s: Slot)
    requires RecentIdsAreKept(History(STARTED, polls), schedule, now)
    requires s in schedule && now - s.due <= MAX_CATCHUP_AGE && s.id in Run(STARTED, polls).completed
    ensures s.id in Restarted(Run(STARTED, polls)).completed
  {
    hide Run, History, Keep, Reclassified;
    HistoryIsKept(polls);
    var before, after := LastOccurrence(History(STARTED, polls), s.id);
    RestartForgetsOnlyOldIds(polls, before, s.id, after);
  }

  lemma {:induction false} RestartedIsKept(polls: seq<Poll>, id: string)
    requires id in Restarted(Run(STARTED, polls)).completed
    ensures id in Run(STARTED, polls).completed
  {
    hide Run, History, Reclassified, Keep;
    HistoryIsKept(polls);
    KeepsItsOwn(History(STARTED, polls), id);
  }

  lemma {:induction false} KeepsItsOwn(history: seq<string>, id: string)
    ensures id in Keep(history) ==> id in history
  {
    LastOccurrencesElements(history);
  }

  /** What the laws of a run ask of the completed ids also holds of the restarted daemon. */
  lemma {:induction false} RestartKeepsClosed(polls: seq<Poll>, schedule: set<Slot>, now: int)
    requires Closed(Run(STARTED, polls).completed, schedule, now)
    requires RecentIdsAreKept(History(STARTED, polls), schedule, now)
    ensures Closed(Restarted(Run(STARTED, polls)).completed, schedule, now)
  {
    hide Run, History, Restarted, RecentIdsAreKept;
    var completed := Restarted(Run(STARTED, polls)).completed;
    forall a, b | a in schedule && b in schedule && SupersededBy(b, a) && a.id in completed
        && now - b.due <= MAX_CATCHUP_AGE
      ensures b.id in completed
    {
      RestartedIsKept(polls, a.id);
      RecentIsNotForgotten(polls, schedule, now, b);
    }
  }

  /** What had passed before the restart stays behind every later slot of its lane. */
  lemma {:induction false} PassedStaysPassed(schedule: set<Slot>, first: seq<Poll>, second: seq<Poll>, j: nat, s: Slot)
    requires Timeline(schedule, second) && j < |second| && s in schedule
    requires RecentIdsAreKept(History(STARTED, first), schedule, second[0].now)
    requires s.id in Run(STARTED, first).completed
    ensures ExecutedAt(Restarted(Run(STARTED, first)), second, j) != Some(s)
  {
    hide Run, History, Restarted, RecentIdsAreKept, Executed;
    var d := Restarted(Run(STARTED, first));
    if ExecutedAt(d, second, j) == Some(s) {
      ExecutedIsOffered(Before(d, second, j), second[j]);
      ClockMovesOn(schedule, second, j);
      RecentIsNotForgotten(first, schedule, second[0].now, s);
      NothingRunYet(d, second);
      CompletedGrows(d, second, 0, j);
    }
  }

  lemma {:induction false} ClockMovesOn(schedule: set<Slot>, polls: seq<Poll>, j: nat)
    requires Timeline(schedule, polls) && j < |polls|
    ensures polls[0].now <= polls[j].now
  {
  }

  lemma {:induction false} NothingRunYet(d: Daemon, polls: seq<Poll>)
    ensures Before(d, polls, 0) == d
  {
    assert polls[..0] == [];
  }

  /** The daemon after `first` and a restart, when `second` begins: lanes are still closed. */
  lemma {:induction false} RestartedIsClosed(schedule: set<Slot>, first: seq<Poll>, second: seq<Poll>)
    requires Distinct(schedule) && Timeline(schedule, first) && Timeline(schedule, second) && first != []
        && second != []
    requires first[|first| - 1].now <= second[0].now
    requires RecentIdsAreKept(History(STARTED, first), schedule, second[0].now)
    ensures Closed(Restarted(Run(STARTED, first)).completed, schedule, second[0].now)
  {
    hide Run, History, Restarted, RecentIdsAreKept, Closed, Distinct, Timeline;
    FreshIsClosed(schedule, first[0].now);
    RunKeepsClosed(schedule, STARTED, first);
    ClosedLater(Run(STARTED, first).completed, schedule, first[|first| - 1].now, second[0].now);
    RestartKeepsClosed(first, schedule, second[0].now);
  }

  /**
   Lane progress across a restart: as long as no slot still in the catch-up window has been pushed out of the
   bounded history, a lane goes on where it was. No slot passes twice, and no superseded slot runs afterwards.
   */
  lemma {:induction false} ProgressAcrossRestart(schedule: set<Slot>, first: seq<Poll>, second: seq<Poll>, i: nat,
      j: nat)
    requires Distinct(schedule) && Timeline(schedule, first) && Timeline(schedule, second)
    requires i < |first| && j < |second| && first[|first| - 1].now <= second[0].now
    requires RecentIdsAreKept(History(STARTED, first), schedule, second[0].now)
    requires var d := Restarted(Run(STARTED, first));
      && ExecutedAt(STARTED, first, i).Some? && ExecutedAt(d, second, j).Some?
      && SameLane(ExecutedAt(STARTED, first, i).value, ExecutedAt(d, second, j).value)
    ensures var d := Restarted(Run(STARTED, first));
      var s, x := ExecutedAt(STARTED, first, i).value, ExecutedAt(d, second, j).value;
      s.due <= x.due && (PassedAt(STARTED, first, i) ==> s.due < x.due)
  {
    hide Run, History, Restarted, RecentIdsAreKept, Closed, Executed;
    var d := Restarted(Run(STARTED, first));
    var s, x := ExecutedAt(STARTED, first, i).value, ExecutedAt(d, second, j).value;
    ExecutedIsOffered(Before(STARTED, first, i), first[i]);
    ExecutedIsOffered(Before(d, second, j), second[j]);
    ClockMovesOn(schedule, second, j);
    RestartedIsClosed(schedule, first, second);
    ClosedBefore(schedule, d, second, j);
    ExecutedIsLatest(schedule, Before(d, second, j), second[j], s);
    if PassedAt(STARTED, first, i) {
      PassCompletes(STARTED, first, i);
      CompletedGrows(STARTED, first, i + 1, |first|);
      assert first[..|first|] == first;
      PassedStaysPassed(schedule, first, second, j, s);
    }
  }

  // ---- Retries across a restart ----

  /** A restart keeps the counters and the blockers of a slot, so it leaves no more executions than there were. */
  lemma {:induction false} RestartLeavesNoMore(first: seq<Poll>, schedule: set<Slot>, s: Slot, earlier: int, now: int)
    requires s in schedule && earlier <= now && RecentIdsAreKept(History(STARTED, first), schedule, now)
    ensures var d := Run(STARTED, first);
      RetryLaws.Left(Restarted(d), schedule, s, now) <= RetryLaws.Left(d, schedule, s, earlier)
  {
    hide Run, History, RecentIdsAreKept, RetryLaws.Overtaken, Restarted;
    var d := Run(STARTED, first);
    RetryLaws.LeftOnlyShrinks(d, schedule, s, earlier, now);
    RestartKeepsAttempts(d, s);
    if !RetryLaws.Expired(s, now) && s.id in d.completed {
      RecentIsNotForgotten(first, schedule, now, s);
    }
  }

  lemma {:induction false} RestartKeepsAttempts(d: Daemon, s: Slot)
    ensures AttemptsOf(Restarted(d), s.id) == AttemptsOf(d, s.id)
    ensures RetryLaws.Held(d, s) ==> RetryLaws.Held(Restarted(d), s)
  {
    if b :| b in d.blockers && RetryLaws.Own(b, s) {
      var i :| 0 <= i < |d.blockers| && d.blockers[i] == b;
      assert Restarted(d).blockers[i] in Restarted(d).blockers;
    }
  }

  /** The second run, from the restarted daemon. */
  ghost predicate GoesOn(first: seq<Poll>, second: seq<Poll>, schedule: set<Slot>, s: Slot) {
    && Timeline(schedule, second) && (forall i :: 0 <= i < |second| ==> Honest(second[i]))
    && (forall i :: 0 <= i < |second| ==>
          RetryLaws.Quiet(Before(Restarted(Run(STARTED, first)), second, i), second[i], s))
    && (first != [] && second != [] ==> first[|first| - 1].now <= second[0].now)
    && (second != [] ==> RecentIdsAreKept(History(STARTED, first), schedule, second[0].now))
  }

  /**
   Bounded retries across a restart. A slot that no other lane of its instrument contends with is executed at most
   four times before and after the restart together, as long as no revision changes under its blockers and no slot
   in the catch-up window has been pushed out of the bounded history.
   */
  lemma {:induction false} RetriesAreBoundedAcrossRestart(first: seq<Poll>, second: seq<Poll>, schedule: set<Slot>,
      s: Slot)
    requires RetryLaws.RegularRun(STARTED, first, schedule, s) && GoesOn(first, second, schedule, s)
    ensures RetryLaws.Executions(STARTED, first, s)
      + RetryLaws.Executions(Restarted(Run(STARTED, first)), second, s) <= MAX_TRANSIENT_SLOT_ATTEMPTS
  {
    hide Run, RetryLaws.Executions, Restarted, RecentIdsAreKept, Honest, RetryLaws.Quiet, RetryLaws.Left, Timeline,
      Distinct, Closed, History;
    var d := Restarted(Run(STARTED, first));
    FreshRetries(first, schedule, s);
    if second == [] {
      NoExecutions(d, s);
    } else {
      SecondIsRegular(first, second, schedule, s);
      RetryLaws.BudgetHolds(d, second, schedule, s);
      RetryLaws.LeftIsNatural(Run(d, second), schedule, s, second[|second| - 1].now);
      var earlier := if first == [] then second[0].now else first[|first| - 1].now;
      RestartLeavesNoMore(first, schedule, s, earlier, second[0].now);
      if first == [] {
        NoExecutions(STARTED, s);
        RetryLaws.LeftOnlyShrinks(STARTED, schedule, s, earlier, earlier);
      } else {
        RetryLaws.BudgetHolds(STARTED, first, schedule, s);
        RetryLaws.LeftOnlyShrinks(STARTED, schedule, s, first[0].now, first[0].now);
      }
    }
  }

  lemma {:induction false} NoExecutions(d: Daemon, s: Slot)
    ensures RetryLaws.Executions(d, [], s) == 0 && Run(d, []) == d && AttemptsOf(STARTED, s.id) == 0
  {
  }

  lemma {:induction false} FreshRetries(first: seq<Poll>, schedule: set<Slot>, s: Slot)
    requires RetryLaws.RegularRun(STARTED, first, schedule, s)
    ensures RetryLaws.Executions(STARTED, first, s) <= MAX_TRANSIENT_SLOT_ATTEMPTS && AttemptsOf(STARTED, s.id) == 0
  {
    hide RetryLaws.RegularRun, Run, RetryLaws.Executions;
    RetryLaws.RetriesAreBounded(STARTED, first, schedule, s);
  }

  lemma {:induction false} SecondIsRegular(first: seq<Poll>, second: seq<Poll>, schedule: set<Slot>, s: Slot)
    requires RetryLaws.RegularRun(STARTED, first, schedule, s) && GoesOn(first, second, schedule, s) && second != []
    ensures RetryLaws.RegularRun(Restarted(Run(STARTED, first)), second, schedule, s)
  {
    hide Run, Restarted, RecentIdsAreKept, Honest, RetryLaws.Quiet, Closed, Distinct, History, RetryLaws.Uncontended;
    if first == [] {
      FreshIsClosed(schedule, second[0].now);
      NoExecutions(STARTED, s);
      RestartKeepsClosed(first, schedule, second[0].now);
    } else {
      RestartedIsClosed(schedule, first, second);
    }
  }

  // ---- Blockers across a restart ----

  /** A restart keeps every blocker as it is but for its domain, and forgets every waiting time. */
  lemma {:induction false} RestartKeepsBlockers(d: Daemon, i: nat)
    requires i < |d.blockers|
    ensures var after := Restarted(d).blockers;
      && |after| == |d.blockers| && after[i].domain == ErrorDomain(after[i].code)
      && after[i].(domain := d.blockers[i].domain) == d.blockers[i]
    ensures forall slot: Slot, now :: MayAttempt(Restarted(d).nextAttempt, slot, now)
  {
  }

  /**
   Blocker safety across a restart: a blocker recorded before it whose code tells neither a late publication nor an
   interface fault, whatever domain it was filed under, holds its instruments through every poll after it while their
   revision stands.
   */
  lemma {:induction false} BlockersHoldAcrossRestart(first: seq<Poll>, second: seq<Poll>, b: Blocker, i: nat)
    requires forall j :: 0 <= j < |first| ==> Honest(first[j]) && BlockerLaws.OfInstruments(first[j])
    requires b in Run(STARTED, first).blockers && i < |second|
    requires b.code != EXHAUSTED + NOT_READY && ErrorDomain(b.code) !in INTERFACE_DOMAINS
    requires forall j :: 0 <= j <= i ==> Honest(second[j]) && second[j].before(b.keys) == b.revision
    ensures var d := Restarted(Run(STARTED, first));
      && b.(domain := ErrorDomain(b.code)) in Before(d, second, i + 1).blockers
      && (ExecutedAt(d, second, i).Some? ==> !Concerns(b, ExecutedAt(d, second, i).value))
  {
    hide Run, Executed, ErrorDomain, Honest;
    var d := Run(STARTED, first);
    BlockerLaws.BlockersStayApart(first);
    var k :| 0 <= k < |d.blockers| && d.blockers[k] == b;
    RestartKeepsBlockers(d, k);
    var after := b.(domain := ErrorDomain(b.code));
    assert Restarted(d).blockers[k] == after;
    assert BlockerLaws.Recorded(b);
    BlockerSafetyOverRuns(Restarted(d), second, after, i);
  }

  // ---- Domains after a restart ----

  /** What the executor reports for an unexpected exception. */
  const CRASHED := Outcome(false, "SCHEDULED_TIMEOUTERROR", "interface_operational", None)

  lemma {:induction false} CrashDomain()
    ensures ErrorDomain("SCHEDULED_TIMEOUTERROR") == "data_quality"
    ensures !IsTransient("SCHEDULED_TIMEOUTERROR")
  {
    var code := "SCHEDULED_TIMEOUTERROR";
    assert code[0] == 'S';
    assert "FAILED_HTTP_429"[0] == 'F' && EXHAUSTED[0] == 'R' && "AUTH_"[0] == 'A' && "BLOCKED_TOKEN"[0] == 'B';
    assert "BLOCKED_PERMISSION"[0] == 'B' && "FAILED_HTTP_"[0] == 'F';
    assert code != "BLOCKED_RATE_LIMIT" && code != "FAILED_NETWORK" && code != NOT_READY;
  }

  /**
   An unexpected exception is recorded as an interface fault and holds back only its own slot; the restarted
   daemon files the same blocker under data quality, and from then on it holds back every slot of the instruments.
   */
  lemma {:induction false} CrashBlocksAfterRestart(s: Slot, later: Slot, revision: string)
    requires later.id != s.id && s.keys * later.keys != {}
    ensures var b := NewBlocker(s, CRASHED, CRASHED.code, revision);
      && !StillApplies(b, later, revision)
      && StillApplies(b.(domain := ErrorDomain(b.code)), later, revision)
  {
    hide ErrorDomain;
    CrashDomain();
    CodesDiffer();
  }

  lemma {:induction false} CodesDiffer()
    ensures CRASHED.code != EXHAUSTED + NOT_READY
  {
  }

  // ---- An instrument with two lanes ----

  /** A session of one hour: the hourly bars are due 3615 seconds after its opening, the daily bars 6300. */
  const SESSION := Schedule.Session(0, 0, 3600, true)
  const NAMING := Schedule.Naming((t: int) => "t", (d: int) => "d")
  const PROFILE := Schedule.Profile({"spy"}, {"equity_regular_1h", "etf_daily_close"})

  const HOURLY_JOB := Schedule.HourlyJobs(SESSION, 0, NAMING)[0]
  const CLOSING_JOB := Schedule.Job("etf-daily-close-d", "etf_daily_close", 6300,
    Schedule.EQUITY_REIT_KEYS + Schedule.BOND_CREDIT_KEYS + Schedule.GOLD_KEYS)
  const HOURLY := Schedule.SlotOf(HOURLY_JOB, "spy")
  const CLOSING := Schedule.SlotOf(CLOSING_JOB, "spy")

  function SameRevision(keys: set<string>): string { "r" }

  function NeverReady(s: Slot): Outcome { Outcome(false, NOT_READY, "data_not_ready", None) }

  /** A poll of the schedule as it is built around that time. */
  function PollAt(now: int): Poll {
    Poll(now, Schedule.Scoped(Schedule.VisibleJobs([], [SESSION], now, NAMING), PROFILE), SameRevision, NeverReady,
      SameRevision)
  }

  lemma {:induction false} TheTwoSlots()
    ensures HOURLY.due == 3615 && HOURLY.kind == "equity_regular_1h" && HOURLY.keys == {"spy"}
    ensures CLOSING.due == 6300 && CLOSING.kind == "etf_daily_close" && CLOSING.keys == {"spy"}
    ensures HOURLY.id != CLOSING.id && !SameLane(HOURLY, CLOSING)
  {
    assert HOURLY.id[1] == 'q' && CLOSING.id[1] == 't';
    assert HOURLY.kind[1] == 'q' && CLOSING.kind[1] == 't';
  }

  lemma {:induction false} JobsOfTheDay(now: int)
    requires 0 <= now < 86400
    ensures Schedule.VisibleJobs([], [SESSION], now, NAMING) == Schedule.HourlyJobs(SESSION, 0, NAMING) + [CLOSING_JOB]
  {
    assert Schedule.HoursFrom(SESSION, 3600, NAMING) == [];
    assert Schedule.HoursFrom(SESSION, 0, NAMING) == Schedule.HourlyJobs(SESSION, 0, NAMING) + [];
    assert "etf-daily-close-" + "d" == "etf-daily-close-d";
    assert [SESSION][1..] == [];
    assert Schedule.EquityPart([SESSION], now, NAMING) == Schedule.SessionJobs(SESSION, NAMING) + [];
  }

  /** Of a list that starts with "spy", and has it nowhere else, the profile takes that one slot. */
  lemma {:induction false} OnlySpy(job: Schedule.Job, keys: seq<string>)
    requires keys != [] && keys[0] == "spy" && forall i :: 0 < i < |keys| ==> keys[i] != "spy"
    ensures Schedule.SlotsOf(job, keys, PROFILE) == [Schedule.SlotOf(job, "spy")]
  {
    var n := |keys| - 1;
    if n > 0 {
      OnlySpy(job, keys[..n]);
    } else {
      assert Schedule.SlotsOf(job, keys[..0], PROFILE) == [];
    }
  }

  lemma {:induction false} SpyComesFirst()
    ensures forall i :: 0 < i < |Schedule.EQUITY_REIT_KEYS| ==> Schedule.EQUITY_REIT_KEYS[i] != "spy"
    ensures forall i :: 0 < i < |CLOSING_JOB.keys| ==> CLOSING_JOB.keys[i] != "spy"
  {
    var others := ["iwm", "efa", "eem", "vnq", "shy", "ief", "tlt", "tip", "lqd", "gld"];
    assert others[0][0] == 'i' && others[1][0] == 'e' && others[2][0] == 'e' && others[3][0] == 'v';
    assert others[4][1] == 'h' && others[5][0] == 'i' && others[6][0] == 't' && others[7][0] == 't';
    assert others[8][0] == 'l' && others[9][0] == 'g';
    assert forall i :: 0 <= i < |others| ==> others[i] != "spy";
    assert CLOSING_JOB.keys == ["spy"] + others;
    assert Schedule.EQUITY_REIT_KEYS == ["spy"] + others[..4];
  }

  lemma {:induction false} ShownSlots(now: int)
    requires 0 <= now < 86400
    ensures PollAt(now).slots == [HOURLY, CLOSING]
  {
    hide Schedule.SlotsOf, Schedule.VisibleJobs;
    JobsOfTheDay(now);
    SpyComesFirst();
    OnlySpy(HOURLY_JOB, HOURLY_JOB.keys);
    OnlySpy(CLOSING_JOB, CLOSING_JOB.keys);
    var hourly := Schedule.HourlyJobs(SESSION, 0, NAMING);
    var eq, bond, gold := hourly[0], hourly[1], hourly[2];
    assert bond.kind[0] == 'b' && gold.kind[0] == 'g' && eq.kind[0] == 'e';
    assert bond.kind !in PROFILE.kinds && gold.kind !in PROFILE.kinds;
    var jobs := [eq, bond, gold, CLOSING_JOB];
    assert hourly + [CLOSING_JOB] == jobs;
    assert jobs[..3] == [eq, bond, gold] && [eq, bond, gold][..2] == [eq, bond] && [eq, bond][..1] == [eq]
        && [eq][..0] == [];
    assert Schedule.Scoped([], PROFILE) == [];
    assert Schedule.Scoped([eq], PROFILE) == [HOURLY];
    assert Schedule.Scoped([eq, bond], PROFILE) == [HOURLY];
    assert Schedule.Scoped([eq, bond, gold], PROFILE) == [HOURLY];
    assert Schedule.Scoped(jobs, PROFILE) == [HOURLY] + [CLOSING];
  }

  lemma {:induction false} CandidatesAt(now: int)
    requires 3615 <= now <= 3615 + MAX_CATCHUP_AGE
    ensures Candidates(PollAt(now).slots, now, {}) == if now < 6300 then [HOURLY] else [HOURLY, CLOSING]
  {
    hide PollAt;
    ShownSlots(now);
    TheTwoSlots();
    TwoSlotCandidates(HOURLY, CLOSING, now);
  }

  lemma {:induction false} TwoSlotCandidates(a: Slot, b: Slot, now: int)
    requires !SameLane(a, b) && a.due <= b.due && InCatchUp(a, now) && now - b.due <= MAX_CATCHUP_AGE
    ensures Candidates([a, b], now, {}) == if now < b.due then [a] else [a, b]
  {
    var slots := [a, b];
    assert slots[..1] == [a] && [a][..0] == [];
    assert LatestPerLane([], now, {}) == [];
    assert LatestPerLane([a], now, {}) == [a];
    assert [a][1..] == [];
    assert PutLane([], b) == [b];
    assert PutLane([a], b) == [a, b];
    assert LatestPerLane(slots, now, {}) == if now < b.due then [a] else slots;
    assert ByDue([]) == [];
    assert ByDue([a]) == [a];
    assert ByDue(slots) == slots;
  }

  /** The daemon after `n` failed attempts of the hourly slot. */
  function AfterAttempts(n: int, next: int): Daemon {
    Daemon({}, [], map[HOURLY.id := next], [], map[HOURLY.id := n])
  }

  const LATE := NewBlocker(HOURLY, NeverReady(HOURLY), EXHAUSTED + NOT_READY, "r")

  lemma {:induction false} HourlyFails(d: Daemon, now: int)
    requires 3615 <= now < 6300 && d.completed == {} && d.blockers == [] && MayAttempt(d.nextAttempt, HOURLY, now)
    ensures Executed(d, PollAt(now)) == Some(HOURLY)
    ensures Tick(d, PollAt(now)) == Scheduler.Failed(d, PollAt(now), HOURLY, NeverReady(HOURLY))
  {
    hide NewBlocker, Candidates, LatestPerLane, ByDue, Scheduler.Failed, Schedule.Scoped, Schedule.VisibleJobs,
      Schedule.SlotOf;
    CandidatesAt(now);
    assert Swept(d.blockers, SameRevision) == [];
    assert Examine([], HOURLY, SameRevision) == Examined([], false);
  }

  lemma {:induction false} NotReadyIsTransient()
    ensures IsTransient(NOT_READY)
  {
  }

  lemma {:induction false} FailedAttempt(n: int, now: int)
    requires 1 <= n <= 3 && 3615 <= now < 6300
    ensures var d := if n == 1 then STARTED else AfterAttempts(n - 1, now);
      && Executed(d, PollAt(now)) == Some(HOURLY)
      && Tick(d, PollAt(now)) == AfterAttempts(n, now + 30)
  {
    hide Tick, Executed, NewBlocker, IsTransient, Schedule.Scoped, Schedule.VisibleJobs, Schedule.SlotOf;
    NotReadyIsTransient();
    HourlyFails(if n == 1 then STARTED else AfterAttempts(n - 1, now), now);
  }

  lemma {:induction false} LastAttempt()
    ensures Executed(AfterAttempts(3, 3705), PollAt(3705)) == Some(HOURLY)
    ensures Tick(AfterAttempts(3, 3705), PollAt(3705)) == AfterAttempts(4, 3705).(blockers := [LATE])
  {
    hide Tick, Executed, NewBlocker, IsTransient, Schedule.Scoped, Schedule.VisibleJobs, Schedule.SlotOf;
    NotReadyIsTransient();
    HourlyFails(AfterAttempts(3, 3705), 3705);
  }

  const FOUR_POLLS := [PollAt(3615), PollAt(3645), PollAt(3675), PollAt(3705)]

  lemma {:induction false} FourFailures()
    ensures Run(STARTED, FOUR_POLLS) == AfterAttempts(4, 3705).(blockers := [LATE])
    ensures RetryLaws.Executions(STARTED, FOUR_POLLS, HOURLY) == 4
  {
    hide Tick, Executed, NewBlocker, PollAt, Schedule.SlotOf;
    FailedAttempt(1, 3615);
    FailedAttempt(2, 3645);
    FailedAttempt(3, 3675);
    LastAttempt();
    var a, b, c, e := PollAt(3615), PollAt(3645), PollAt(3675), PollAt(3705);
    assert FOUR_POLLS[..3] == [a, b, c] && [a, b, c][..2] == [a, b] && [a, b][..1] == [a] && [a][..0] == [];
    assert Run(STARTED, []) == STARTED;
    assert Run(STARTED, [a]) == AfterAttempts(1, 3645);
    assert Run(STARTED, [a, b]) == AfterAttempts(2, 3675);
    assert Run(STARTED, [a, b, c]) == AfterAttempts(3, 3705);
    assert RetryLaws.Executions(STARTED, [], HOURLY) == 0;
    assert RetryLaws.Executions(STARTED, [a], HOURLY) == 1;
    assert RetryLaws.Executions(STARTED, [a, b], HOURLY) == 2;
    assert RetryLaws.Executions(STARTED, [a, b, c], HOURLY) == 3;
  }

  /** The daily close of the same instrument comes due, drops the blocker of the hourly slot, and runs. */
  lemma {:induction false} ClosingDropsTheBlocker()
    ensures var d := AfterAttempts(4, 3705).(blockers := [LATE]);
      && Executed(d, PollAt(6300)) == Some(CLOSING)
      && Tick(d, PollAt(6300)).blockers == [] && Tick(d, PollAt(6300)).completed == {}
      && Tick(d, PollAt(6300)).nextAttempt == map[HOURLY.id := 3705, CLOSING.id := 6330]
  {
    hide Candidates, ErrorDomain, IsTransient, Schedule.Scoped, Schedule.VisibleJobs, Schedule.SlotOf;
    CandidatesAt(6300);
    NotReadyIsTransient();
    TheTwoSlots();
    var d := AfterAttempts(4, 3705).(blockers := [LATE]);
    LateBlocker();
    assert [LATE][1..] == [];
    assert Swept([LATE], SameRevision) == [LATE];
    assert Examine([LATE], HOURLY, SameRevision) == Examined([LATE], true);
    assert Examine([LATE], CLOSING, SameRevision) == Examined([], false);
    assert [HOURLY, CLOSING][1..] == [CLOSING];
    assert MayAttempt(d.nextAttempt, CLOSING, 6300);
    assert Select([LATE], [CLOSING], d.nextAttempt, 6300, SameRevision) == Selection([], Some(CLOSING));
    assert Select([LATE], [HOURLY, CLOSING], d.nextAttempt, 6300, SameRevision) == Selection([], Some(CLOSING));
    assert Choice(d, PollAt(6300)) == Selection([], Some(CLOSING));
  }

  lemma {:induction false} LateBlocker()
    ensures LATE.origin == HOURLY.id && LATE.keys == {"spy"} && LATE.revision == "r" && LATE.status in ENFORCED
    ensures LATE.domain == "data_not_ready" && LATE.code == EXHAUSTED + NOT_READY
    ensures Concerns(LATE, HOURLY) && Concerns(LATE, CLOSING)
    ensures StillApplies(LATE, HOURLY, "r") && !StillApplies(LATE, CLOSING, "r")
  {
    hide ErrorDomain;
    TheTwoSlots();
    assert "spy" in LATE.keys * HOURLY.keys && "spy" in LATE.keys * CLOSING.keys;
    assert "data_not_ready"[0] == 'd' && "interface_auth"[0] == 'i' && "interface_operational"[0] == 'i';
  }

  /**
   Where an instrument has an hourly and a daily lane the bound on retries fails: after four attempts the daily
   candidate drops the hourly slot's blocker, and the hourly slot is executed a fifth time with nothing changed.
   The slots and their due times are those the schedule builder makes of a session.
   */
  lemma {:induction false} TwoLanesRetryAFifthTime()
    ensures RetryLaws.Executions(STARTED, FOUR_POLLS, HOURLY) == 4 && LATE in Run(STARTED, FOUR_POLLS).blockers
    ensures Executed(Run(STARTED, FOUR_POLLS), PollAt(6300)) == Some(CLOSING)
    ensures Executed(Tick(Run(STARTED, FOUR_POLLS), PollAt(6300)), PollAt(6315)) == Some(HOURLY)
  {
    hide Tick, Executed, Run, NewBlocker, PollAt, Schedule.SlotOf, RetryLaws.Executions;
    FourFailures();
    ClosingDropsTheBlocker();
    HourlyRunsAgain(Tick(Run(STARTED, FOUR_POLLS), PollAt(6300)));
  }

  lemma {:induction false} HourlyRunsAgain(d: Daemon)
    requires d.completed == {} && d.blockers == [] && d.nextAttempt == map[HOURLY.id := 3705, CLOSING.id := 6330]
    ensures Executed(d, PollAt(6315)) == Some(HOURLY)
  {
    hide Candidates, Schedule.Scoped, Schedule.VisibleJobs, Schedule.SlotOf;
    CandidatesAt(6315);
    TheTwoSlots();
    assert Swept(d.blockers, SameRevision) == [];
    assert Examine([], HOURLY, SameRevision) == Examined([], false);
  }
}
