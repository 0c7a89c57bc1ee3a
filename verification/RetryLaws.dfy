/** How often, and how soon, the scheduler tries a slot again. */
module RetryLaws {
  import opened Scheduler
  import opened SchedulerLaws
  import opened Types

  // ---- A slot no other lane interferes with ----

  /**
   At time `t`, while `s` may run, a slot of another lane of its instruments may be looked at too. Lanes of one
   instrument interfere this way only: each drops the blockers of the other that are bound to a slot.
   */
  ghost predicate Contended(schedule: set<Slot>, s: Slot, x: Slot, t: int) {
    && x in schedule && x.keys * s.keys != {} && !SameLane(x, s)
    && InCatchUp(s, t) && InCatchUp(x, t) && !Overtaken(schedule, s, t)
  }

  ghost predicate Uncontended(schedule: set<Slot>, s: Slot) {
    && s in schedule && (exists k :: s.keys == {k})
    && forall x, t :: !Contended(schedule, s, x, t)
  }

  /** Every slot of the schedule that touches the instruments of `s` is in its lane, as for the FX instruments. */
  ghost predicate SoleLane(schedule: set<Slot>, s: Slot) {
    && s in schedule && (exists k :: s.keys == {k})
    && forall x :: x in schedule && x.keys * s.keys != {} ==> SameLane(x, s)
  }

  lemma {:induction false} SoleLaneIsUncontended(schedule: set<Slot>, s: Slot)
    requires SoleLane(schedule, s)
    ensures Uncontended(schedule, s)
  {
  }

  /** A blocker recorded when `s` itself failed for good. */
  predicate Own(b: Blocker, s: Slot) { b.origin == s.id && b.keys == s.keys && Signed(b) && b.status in ENFORCED }

  ghost predicate Held(d: Daemon, s: Slot) { exists b :: b in d.blockers && Own(b, s) }

  ghost predicate Overtaken(schedule: set<Slot>, s: Slot, now: int) {
    exists x :: x in schedule && SameLane(x, s) && s.due < x.due <= now
  }

  predicate Expired(s: Slot, now: int) { now - s.due > MAX_CATCHUP_AGE }

  function AtLeastOne(n: int): int { if n < 1 then 1 else n }

  /** How often `s` can still be executed, once the clock has reached `now`. */
  ghost function Left(d: Daemon, schedule: set<Slot>, s: Slot, now: int): int {
    if Overtaken(schedule, s, now) || Expired(s, now) || s.id in d.completed || (Held(d, s) && s.due <= now) then 0
    else AtLeastOne(MAX_TRANSIENT_SLOT_ATTEMPTS - AttemptsOf(d, s.id))
  }

  /** The revision a blocker of `s` was recorded under has not changed. */
  ghost predicate Quiet(d: Daemon, poll: Poll, s: Slot) {
    forall b :: b in d.blockers && Own(b, s) ==> poll.before(b.keys) == b.revision
  }

  /** What the laws below ask of a poll. */
  ghost predicate Regular(d: Daemon, poll: Poll, schedule: set<Slot>, s: Slot) {
    && Distinct(schedule) && Shows(schedule, poll) && Honest(poll)
    && Uncontended(schedule, s) && Quiet(d, poll, s) && Closed(d.completed, schedule, poll.now)
  }

  lemma {:induction false} HeldStays(d: Daemon, poll: Poll, schedule: set<Slot>, s: Slot)
    requires Regular(d, poll, schedule, s)
    requires Held(d, s) && s.due <= poll.now && s.id !in d.completed
    requires !Overtaken(schedule, s, poll.now) && !Expired(s, poll.now)
    ensures Held(Tick(d, poll), s) && Executed(d, poll) != Some(s)
  {
    hide Tick, Executed, Candidates, Closed, Honest;
    var b :| b in d.blockers && Own(b, s);
    var k :| s.keys == {k};
    assert k in b.keys;
    forall c | c in Candidates(poll.slots, poll.now, d.completed) && Concerns(b, c)
      ensures StillApplies(b, c, b.revision)
    {
      OnlyCandidate(d, poll, schedule, s, c);
    }
    HeldBlockerSurvives(d, poll, b);
    assert k in b.keys * s.keys;
  }

  lemma {:induction false} OnlyCandidate(d: Daemon, poll: Poll, schedule: set<Slot>, s: Slot, c: Slot)
    requires Distinct(schedule) && Shows(schedule, poll) && Uncontended(schedule, s)
    requires s.due <= poll.now && s.id !in d.completed && !Overtaken(schedule, s, poll.now) && !Expired(s, poll.now)
    requires c in Candidates(poll.slots, poll.now, d.completed) && c.keys * s.keys != {}
    ensures c == s
  {
    hide Candidates;
    CandidatesLead(poll.slots, poll.now, d.completed);
    var offered := Offered(poll.slots, poll.now, d.completed);
    assert InCatchUp(s, poll.now);
    assert c in offered && InCatchUp(c, poll.now);
    assert !Contended(schedule, s, c, poll.now);
    assert c.due <= s.due;
    assert s in offered;
    assert Leader(c, s);
  }

  /** Executing `s` changes the completed ids, the attempts and the blockers as its outcome says. */
  lemma {:induction false} ExecutionOf(d: Daemon, poll: Poll, s: Slot)
    requires Executed(d, poll) == Some(s)
    ensures var after := Tick(d, poll);
      var outcome := poll.execute(s);
      && (outcome.passed ==> after.completed == d.completed + CompletedThrough(poll.slots, s))
      && (!outcome.passed && IsTransient(outcome.code) ==> AttemptsOf(after, s.id) == AttemptsOf(d, s.id) + 1)
      && (!outcome.passed && IsTransient(outcome.code) && AttemptsOf(after, s.id) < MAX_TRANSIENT_SLOT_ATTEMPTS ==>
            s.id in after.nextAttempt && after.nextAttempt[s.id] == poll.now + RETRY_SECONDS)
      && (!outcome.passed && !(IsTransient(outcome.code) && AttemptsOf(after, s.id) < MAX_TRANSIENT_SLOT_ATTEMPTS) ==>
            exists code :: NewBlocker(s, outcome, code, poll.after(Affected(s, outcome))) in after.blockers)
  {
    hide Choice, NewBlocker, PutBlocker, IsTransient, Affected, IdsIn, Unconcerned, CompletedThrough;
    var chosen := d.(blockers := Choice(d, poll).blockers);
    var outcome := poll.execute(s);
    var revision := poll.after(Affected(s, outcome));
    PutPuts(chosen.blockers, NewBlocker(s, outcome, EXHAUSTED + outcome.code, revision));
    PutPuts(chosen.blockers,
        NewBlocker(s, outcome, if outcome.code == "" then "SCHEDULED_INCREMENTAL_FAILED" else outcome.code, revision));
  }

  lemma {:induction false} NewBlockerIsOwn(s: Slot, outcome: Outcome, code: string, revision: string)
    requires exists k :: s.keys == {k}
    requires outcome.failedKey.Some? ==> outcome.failedKey.value in s.keys
    ensures Own(NewBlocker(s, outcome, code, revision), s)
  {
  }

  lemma {:induction false} ExecutionCosts(d: Daemon, poll: Poll, schedule: set<Slot>, s: Slot)
    requires Regular(d, poll, schedule, s) && Executed(d, poll) == Some(s)
    ensures s.due <= poll.now
        && Left(d, schedule, s, poll.now) == AtLeastOne(MAX_TRANSIENT_SLOT_ATTEMPTS - AttemptsOf(d, s.id))
    ensures Left(Tick(d, poll), schedule, s, poll.now) < Left(d, schedule, s, poll.now)
  {
    hide Tick, Executed, Closed, Honest, CompletedThrough, AttemptsOf;
    ExecutedIsOffered(d, poll);
    NotOvertaken(d, poll, schedule, s);
    if Held(d, s) {
      HeldStays(d, poll, schedule, s);
    }
    ExecutionOf(d, poll, s);
    CostOfOutcome(d, poll, s);
  }

  lemma {:induction false} NotOvertaken(d: Daemon, poll: Poll, schedule: set<Slot>, s: Slot)
    requires Regular(d, poll, schedule, s) && Executed(d, poll) == Some(s)
    ensures !Overtaken(schedule, s, poll.now)
  {
    hide Executed, Closed, Honest;
    forall x | x in schedule && SameLane(x, s) && x.due <= poll.now ensures x.due <= s.due {
      ExecutedIsLatest(schedule, d, poll, x);
    }
  }

  /** After the execution either attempts went up towards the limit and the slot waits, or nothing is left. */
  lemma {:induction false} CostOfOutcome(d: Daemon, poll: Poll, s: Slot)
    requires Honest(poll) && (exists k :: s.keys == {k}) && Executed(d, poll) == Some(s)
    ensures var after := Tick(d, poll);
      || s.id in after.completed || (Held(after, s) && s.due <= poll.now)
      || (AttemptsOf(after, s.id) == AttemptsOf(d, s.id) + 1 < MAX_TRANSIENT_SLOT_ATTEMPTS
          && s.id in after.nextAttempt && after.nextAttempt[s.id] == poll.now + RETRY_SECONDS)
  {
    hide Tick, Executed, Closed, AttemptsOf, IsTransient, Affected, ErrorDomain;
    ExecutedIsOffered(d, poll);
    ExecutionOf(d, poll, s);
    var after, outcome := Tick(d, poll), poll.execute(s);
    if outcome.passed {
      assert SupersededBy(s, s);
      assert s.id in CompletedThrough(poll.slots, s);
    } else if !(IsTransient(outcome.code) && AttemptsOf(after, s.id) < MAX_TRANSIENT_SLOT_ATTEMPTS) {
      var code :| NewBlocker(s, outcome, code, poll.after(Affected(s, outcome))) in after.blockers;
      NewBlockerIsOwn(s, outcome, code, poll.after(Affected(s, outcome)));
    }
  }

  /** A poll that executes something else leaves the attempts and the waiting time of `s` alone. */
  lemma {:induction false} OtherExecution(d: Daemon, poll: Poll, schedule: set<Slot>, s: Slot)
    requires Distinct(schedule) && Shows(schedule, poll) && s in schedule && Executed(d, poll) != Some(s)
    ensures var after := Tick(d, poll);
      && AttemptsOf(after, s.id) == AttemptsOf(d, s.id) && d.completed <= after.completed
      && (s.id in after.nextAttempt <==> s.id in d.nextAttempt)
      && (s.id in d.nextAttempt ==> after.nextAttempt[s.id] == d.nextAttempt[s.id])
  {
    hide Choice, NewBlocker, PutBlocker, IsTransient, Affected, IdsIn, Unconcerned, CompletedThrough;
    if Executed(d, poll).Some? {
      OfferedSlot(d, poll, schedule);
      assert Executed(d, poll).value.id != s.id;
    }
  }

  lemma {:induction false} OfferedSlot(d: Daemon, poll: Poll, schedule: set<Slot>)
    requires Shows(schedule, poll) && Executed(d, poll).Some?
    ensures Executed(d, poll).value in schedule
  {
    hide Executed;
    ExecutedIsOffered(d, poll);
  }

  lemma {:induction false} OtherExecutionCostsNothing(d: Daemon, poll: Poll, schedule: set<Slot>, s: Slot, earlier: int)
    requires Regular(d, poll, schedule, s) && Executed(d, poll) != Some(s) && earlier <= poll.now
    ensures Left(Tick(d, poll), schedule, s, poll.now) <= Left(d, schedule, s, earlier)
  {
    hide Tick, Executed, Closed, Honest, AttemptsOf;
    OtherExecution(d, poll, schedule, s);
    if !Overtaken(schedule, s, poll.now) && !Expired(s, poll.now) {
      NotOvertakenBefore(schedule, s, earlier, poll.now);
      if s.id !in d.completed && Held(d, s) && s.due <= earlier {
        HeldStays(d, poll, schedule, s);
      }
    }
  }

  lemma {:induction false} NotOvertakenBefore(schedule: set<Slot>, s: Slot, earlier: int, now: int)
    requires earlier <= now && !Overtaken(schedule, s, now)
    ensures !Overtaken(schedule, s, earlier)
  {
  }

  // ---- Counting executions ----

  function Executions(d: Daemon, polls: seq<Poll>, s: Slot): nat {
    if polls == [] then 0
    else
      var n := |polls| - 1;
      Executions(d, polls[..n], s) + if Executed(Run(d, polls[..n]), polls[n]) == Some(s) then 1 else 0
  }

  /** A run on one schedule with a clock that never runs back, quiet as far as the blockers of `s` go. */
  ghost predicate OrderlyRun(d: Daemon, polls: seq<Poll>, schedule: set<Slot>, s: Slot) {
    && Distinct(schedule) && Timeline(schedule, polls)
    && (polls != [] ==> Closed(d.completed, schedule, polls[0].now))
    && (forall i :: 0 <= i < |polls| ==> Honest(polls[i]))
    && (forall i :: 0 <= i < |polls| ==> Quiet(Before(d, polls, i), polls[i], s))
  }

  ghost predicate RegularRun(d: Daemon, polls: seq<Poll>, schedule: set<Slot>, s: Slot) {
    OrderlyRun(d, polls, schedule, s) && Uncontended(schedule, s)
  }

  lemma {:induction false} RegularPrefix(d: Daemon, polls: seq<Poll>, schedule: set<Slot>, s: Slot)
    requires polls != [] && RegularRun(d, polls, schedule, s)
    ensures var n := |polls| - 1;
      RegularRun(d, polls[..n], schedule, s) && Regular(Run(d, polls[..n]), polls[n], schedule, s)
  {
    hide Run, Closed, Honest, Distinct, Uncontended, Quiet;
    var n := |polls| - 1;
    ClosedBefore(schedule, d, polls, n);
    assert Quiet(Before(d, polls, n), polls[n], s);
    forall i | 0 <= i < n ensures Quiet(Before(d, polls[..n], i), polls[..n][i], s) {
      assert polls[..n][..i] == polls[..i];
      assert Quiet(Before(d, polls, i), polls[i], s);
    }
  }

  /** What one poll costs, whichever slot it executes. */
  lemma {:induction false} PollCosts(d: Daemon, poll: Poll, schedule: set<Slot>, s: Slot, earlier: int)
    requires Regular(d, poll, schedule, s) && earlier <= poll.now
    ensures var cost := if Executed(d, poll) == Some(s) then 1 else 0;
      cost + Left(Tick(d, poll), schedule, s, poll.now) <= Left(d, schedule, s, earlier)
  {
    hide Tick, Executed, Regular, AttemptsOf;
    if Executed(d, poll) == Some(s) {
      ExecutionCosts(d, poll, schedule, s);
      LeftOnlyShrinks(d, schedule, s, earlier, poll.now);
    } else {
      OtherExecutionCostsNothing(d, poll, schedule, s, earlier);
    }
  }

  lemma {:induction false} LeftOnlyShrinks(d: Daemon, schedule: set<Slot>, s: Slot, earlier: int, now: int)
    requires earlier <= now
    ensures Left(d, schedule, s, now) <= Left(d, schedule, s, earlier)
    ensures Left(d, schedule, s, earlier) <= AtLeastOne(MAX_TRANSIENT_SLOT_ATTEMPTS - AttemptsOf(d, s.id))
  {
  }

  lemma {:induction false} InOrder(polls: seq<Poll>, schedule: set<Slot>, n: nat)
    requires Timeline(schedule, polls) && 0 < n < |polls|
    ensures polls[n - 1].now <= polls[n].now
  {
  }

  /** Executions so far and executions left never exceed what was left to begin with. */
  lemma {:induction false} BudgetHolds(d: Daemon, polls: seq<Poll>, schedule: set<Slot>, s: Slot)
    requires polls != [] && RegularRun(d, polls, schedule, s)
    ensures Executions(d, polls, s) + Left(Run(d, polls), schedule, s, polls[|polls| - 1].now)
      <= Left(d, schedule, s, polls[0].now)
  {
    hide Tick, Executed, Left, AttemptsOf, Regular, Distinct, Uncontended, Closed, Honest, Quiet, Timeline;
    var n := |polls| - 1;
    RegularPrefix(d, polls, schedule, s);
    var before := Run(d, polls[..n]);
    if n == 0 {
      assert polls[..0] == [];
      PollCosts(d, polls[0], schedule, s, polls[0].now);
    } else {
      BudgetHolds(d, polls[..n], schedule, s);
      InOrder(polls, schedule, n);
      PollCosts(before, polls[n], schedule, s, polls[n - 1].now);
    }
  }

  /**
   Bounded retries. A slot that no other lane of its instrument contends with is executed at most four times in a
   daemon run, as long as the watermark revision does not change under a blocker recorded for it.
   */
  lemma {:induction false} RetriesAreBounded(d: Daemon, polls: seq<Poll>, schedule: set<Slot>, s: Slot)
    requires RegularRun(d, polls, schedule, s) && AttemptsOf(d, s.id) >= 0
    ensures Executions(d, polls, s) <= MAX_TRANSIENT_SLOT_ATTEMPTS
  {
    hide Left, Executed, Tick, RegularRun, Run;
    if polls != [] {
      BudgetHolds(d, polls, schedule, s);
      LeftIsNatural(Run(d, polls), schedule, s, polls[|polls| - 1].now);
      LeftOnlyShrinks(d, schedule, s, polls[0].now, polls[0].now);
    }
  }

  lemma {:induction false} LeftIsNatural(d: Daemon, schedule: set<Slot>, s: Slot, now: int)
    ensures Left(d, schedule, s, now) >= 0
  {
  }

  /** Once a slot has failed for good, it runs again only after its revision changed or a later slot took over. */
  lemma {:induction false} ExhaustedSlotWaits(d: Daemon, poll: Poll, schedule: set<Slot>, s: Slot)
    requires Distinct(schedule) && Shows(schedule, poll) && Honest(poll) && Uncontended(schedule, s)
    requires Closed(d.completed, schedule, poll.now)
    requires Held(d, s) && Executed(d, poll) == Some(s)
    ensures exists b :: b in d.blockers && Own(b, s) && poll.before(b.keys) != b.revision
  {
    hide Executed, Closed, Honest, Held;
    if Quiet(d, poll, s) {
      ExecutedIsOffered(d, poll);
      NotOvertaken(d, poll, schedule, s);
      HeldStays(d, poll, schedule, s);
    }
  }

  // ---- What one execution leaves ----

  /** The failures worth another attempt: rate limits, the network, and bars that are not there yet. */
  predicate IsRetried(code: string) {
    || code == "BLOCKED_RATE_LIMIT" || code == "FAILED_NETWORK" || code == "DATA_NOT_READY"
    || code == "INSUFFICIENT_INCREMENTAL_CHART_DATA"
    || (|code| >= 15 && code[..15] == "FAILED_HTTP_429")
  }

  lemma {:induction false} RetriedAreTransient(code: string)
    ensures IsRetried(code) <==> IsTransient(code)
  {
    assert |"FAILED_HTTP_429"| == 15;
  }

  /** What a final failure records: the slot, the instruments it names or else its own, and the revision they are at. */
  predicate Records(b: Blocker, s: Slot, outcome: Outcome, code: string, revisionOf: set<string> -> string) {
    && b.origin == s.id && b.code == code
    && b.keys == (if outcome.failedKey.Some? then {outcome.failedKey.value} else s.keys)
    && b.revision == revisionOf(b.keys) && b.signature == Signature(b.keys, code, b.revision)
    && b.status == "INSTRUMENT_DEGRADED_OPERATOR_ACTION_REQUIRED"
    && b.domain == (if outcome.domain == "" then ErrorDomain(code) else outcome.domain)
  }

  /** The first three failures worth another attempt only make the slot wait; any other is recorded. */
  lemma {:induction false} FailureLeaves(d: Daemon, poll: Poll, s: Slot)
    requires Executed(d, poll) == Some(s) && !poll.execute(s).passed
    ensures var after, outcome, found := Tick(d, poll), poll.execute(s), Choice(d, poll).blockers;
      var retried := IsRetried(outcome.code);
      var code := if retried then "RETRY_EXHAUSTED:" + outcome.code
        else if outcome.code == "" then "SCHEDULED_INCREMENTAL_FAILED" else outcome.code;
      && after.completed == d.completed && after.order == d.order
      && AttemptsOf(after, s.id) == (if retried then AttemptsOf(d, s.id) + 1 else 0)
      && (retried && AttemptsOf(d, s.id) < 3 ==>
            after.blockers == found && after.nextAttempt == d.nextAttempt[s.id := poll.now + 30])
      && (!(retried && AttemptsOf(d, s.id) < 3) ==>
            && after.nextAttempt == (if retried then d.nextAttempt else d.nextAttempt - {s.id})
            && (exists b :: Records(b, s, outcome, code, poll.after) && after.blockers == PutBlocker(found, b)))
      && (forall id :: id != s.id ==> AttemptsOf(after, id) == AttemptsOf(d, id))
  {
    hide Choice, PutBlocker, ErrorDomain, IsTransient, IsRetried;
    RetriedAreTransient(poll.execute(s).code);
    var outcome := poll.execute(s);
    var retried := IsRetried(outcome.code);
    var code := if retried then "RETRY_EXHAUSTED:" + outcome.code
      else if outcome.code == "" then "SCHEDULED_INCREMENTAL_FAILED" else outcome.code;
    var b := NewBlocker(s, outcome, code, poll.after(Affected(s, outcome)));
    assert Records(b, s, outcome, code, poll.after);
  }

  /** A blocker takes the place of the one with its signature, or comes last. */
  lemma {:induction false} PutReplaces(blockers: seq<Blocker>, b: Blocker)
    ensures var r := PutBlocker(blockers, b);
      && b in r && (forall x :: x in r ==> x == b || x in blockers)
      && (forall x :: x in blockers && x.signature != b.signature ==> x in r)
      && |r| == |blockers| + if exists x :: x in blockers && x.signature == b.signature then 0 else 1
  {
    if blockers != [] {
      assert blockers == [blockers[0]] + blockers[1..];
      if blockers[0].signature != b.signature {
        PutReplaces(blockers[1..], b);
      }
    }
  }

  /** The id is that of a slot of the same kind and instruments, due no later. */
  ghost predicate IsBehind(id: string, slots: seq<Slot>, s: Slot) {
    exists y :: y in slots && y.id == id && y.kind == s.kind && y.keys == s.keys && y.due <= s.due
  }

  /** A PASS completes the lane up to the slot and clears everything recorded about it and its instruments. */
  lemma {:induction false} PassLeaves(d: Daemon, poll: Poll, s: Slot)
    requires Executed(d, poll) == Some(s) && poll.execute(s).passed
    ensures var after, found := Tick(d, poll), Choice(d, poll).blockers;
      && (forall id :: id in after.completed <==> (id in d.completed || IsBehind(id, poll.slots, s)))
      && (forall b :: b in after.blockers <==> b in found && b.keys !! s.keys)
      && s.id !in after.nextAttempt && s.id !in after.attempts
      && (forall id :: id != s.id ==> (id in after.nextAttempt <==> id in d.nextAttempt))
      && (forall id :: id != s.id && id in d.nextAttempt ==> after.nextAttempt[id] == d.nextAttempt[id])
      && (forall id :: id != s.id ==> AttemptsOf(after, id) == AttemptsOf(d, id))
  {
    hide Choice, IdsIn, Concerns;
    forall b ensures !Concerns(b, s) <==> b.keys !! s.keys { Untouched(b, s); }
  }

  lemma {:induction false} Untouched(b: Blocker, s: Slot)
    ensures !Concerns(b, s) <==> b.keys !! s.keys
  {
    if k :| k in b.keys && k in s.keys {
      assert k in b.keys * s.keys;
    }
  }

  // ---- Which fault a code tells ----

  predicate StartsWith(code: string, prefix: string) { prefix <= code }

  /** The plain codes by their domain: authorisation, the interface, late data, and revisions of the source. */
  predicate TellsAuth(code: string) {
    StartsWith(code, "AUTH_") || StartsWith(code, "BLOCKED_TOKEN") || StartsWith(code, "BLOCKED_PERMISSION")
  }

  predicate TellsInterface(code: string) {
    || code in {"BLOCKED_RATE_LIMIT", "FAILED_NETWORK", "FAILED_SERVICE_UNAVAILABLE", "FAILED_INVALID_JSON",
        "FAILED_JSON_NOT_OBJECT", "FAILED_INSUFFICIENTPRIVILEGE"}
    || StartsWith(code, "FAILED_HTTP_")
  }

  predicate TellsLateData(code: string) { code in {"DATA_NOT_READY", "INSUFFICIENT_INCREMENTAL_CHART_DATA"} }

  predicate TellsRevision(code: string) {
    code in {"BLOCKED_CANONICAL_WATERMARK_SET", "BLOCKED_FULL_REFETCH_REQUIRED", "BLOCKED_BOUNDED_REVISION_REQUIRED",
      "BLOCKED_REPEATED_DATA_VERSION_CHANGE", "BLOCKED_REVISION_SCOPE_UNRESOLVED_FULL_REFETCH_REQUIRED"}
  }

  predicate TellsExhausted(code: string) { StartsWith(code, "RETRY_EXHAUSTED:") }

  lemma {:induction false} ExhaustedDomain(code: string)
    ensures TellsExhausted("RETRY_EXHAUSTED:" + code)
    ensures ErrorDomain("RETRY_EXHAUSTED:" + code) == ErrorDomain(code)
  {
    assert ("RETRY_EXHAUSTED:" + code)[|EXHAUSTED|..] == code;
  }

  lemma {:induction false} PlainDomain(code: string)
    requires code != "" && !TellsExhausted(code)
    ensures ErrorDomain(code) ==
      if TellsAuth(code) then "interface_auth"
      else if TellsInterface(code) then "interface_operational"
      else if TellsLateData(code) then "data_not_ready"
      else if TellsRevision(code) then "source_revision"
      else "data_quality"
  {
  }

  lemma {:induction false} DomainsDiffer()
    ensures "interface_auth" != "interface_operational" && "interface_auth" != "source_revision"
    ensures "interface_auth" != "data_not_ready" && "interface_auth" != "data_quality" && "none" != "data_quality"
    ensures "interface_operational" != "data_not_ready" && "interface_operational" != "source_revision"
    ensures "interface_operational" != "data_quality" && "data_not_ready" != "source_revision"
    ensures "data_not_ready" != "data_quality" && "source_revision" != "data_quality"
  {
    assert "interface_auth"[0] == 'i' && "data_not_ready"[0] == 'd';
  }

  /** Each domain has its codes, in this order, and no others; an exhausted code goes by what was retried. */
  lemma {:induction false} DomainsOfCodes(code: string)
    ensures ErrorDomain("RETRY_EXHAUSTED:" + code) == ErrorDomain(code) && ErrorDomain("") == "none"
    ensures code != "" && !TellsExhausted(code) ==>
      && (ErrorDomain(code) == "interface_auth" <==> TellsAuth(code))
      && (ErrorDomain(code) == "interface_operational" <==> TellsInterface(code) && !TellsAuth(code))
      && (ErrorDomain(code) == "data_not_ready" <==> TellsLateData(code) && !TellsAuth(code) && !TellsInterface(code))
      && (ErrorDomain(code) == "source_revision" <==>
            TellsRevision(code) && !TellsAuth(code) && !TellsInterface(code) && !TellsLateData(code))
      && (ErrorDomain(code) == "data_quality" <==>
            !(TellsAuth(code) || TellsInterface(code) || TellsLateData(code) || TellsRevision(code)))
  {
    hide TellsAuth, TellsInterface, TellsLateData, TellsRevision, TellsExhausted, ErrorDomain;
    ExhaustedDomain(code);
    NoCode();
    if code != "" && !TellsExhausted(code) {
      PlainDomain(code);
      DomainsDiffer();
    }
  }

  lemma {:induction false} NoCode()
    ensures ErrorDomain("") == "none"
  {
  }

  // ---- Waiting between attempts ----

  lemma {:induction false} WaitingPersists(d: Daemon, polls: seq<Poll>, schedule: set<Slot>, s: Slot, i: nat, j: nat)
    requires Distinct(schedule) && Timeline(schedule, polls) && s in schedule && i < j <= |polls|
    requires forall m :: i < m < j ==> ExecutedAt(d, polls, m) != Some(s)
    requires s.id in Before(d, polls, i + 1).nextAttempt
    ensures s.id in Before(d, polls, j).nextAttempt
    ensures Before(d, polls, j).nextAttempt[s.id] == Before(d, polls, i + 1).nextAttempt[s.id]
    decreases j
  {
    hide Tick, Executed;
    if j > i + 1 {
      WaitingPersists(d, polls, schedule, s, i, j - 1);
      assert polls[..j][..j - 1] == polls[..j - 1];
      assert ExecutedAt(d, polls, j - 1) != Some(s);
      OtherExecution(Before(d, polls, j - 1), polls[j - 1], schedule, s);
    }
  }

  /** After a transient failure that leaves attempts, the next execution of the slot is at least 30 seconds later. */
  lemma {:induction false} AttemptsAreSpaced(d: Daemon, polls: seq<Poll>, schedule: set<Slot>, s: Slot, i: nat, j: nat)
    requires Distinct(schedule) && Timeline(schedule, polls) && i < j < |polls|
    requires ExecutedAt(d, polls, i) == Some(s) == ExecutedAt(d, polls, j)
    requires forall m :: i < m < j ==> ExecutedAt(d, polls, m) != Some(s)
    requires var outcome := polls[i].execute(s); !outcome.passed && IsTransient(outcome.code)
    requires AttemptsOf(Before(d, polls, i + 1), s.id) < MAX_TRANSIENT_SLOT_ATTEMPTS
    ensures polls[i].now + RETRY_SECONDS <= polls[j].now
  {
    hide Tick, Executed, Distinct, Timeline, IsTransient, AttemptsOf;
    var before := Before(d, polls, i);
    assert polls[..i + 1][..i] == polls[..i];
    ExecutionOf(before, polls[i], s);
    InSchedule(before, polls, schedule, s, i);
    WaitingPersists(d, polls, schedule, s, i, j);
    ExecutedIsOffered(Before(d, polls, j), polls[j]);
  }

  lemma {:induction false} InSchedule(before: Daemon, polls: seq<Poll>, schedule: set<Slot>, s: Slot, i: nat)
    requires Timeline(schedule, polls) && i < |polls| && Executed(before, polls[i]) == Some(s)
    ensures s in schedule
  {
    hide Executed;
    OfferedSlot(before, polls[i], schedule);
  }
}
