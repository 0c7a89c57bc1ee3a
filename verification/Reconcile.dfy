/** The recovery loop: refetch drifting instruments until enough normal runs pass in a row. */
module Reconcile {
  import opened Types

  datatype Status = Pass | Blocked | Failed

  datatype Code =
    | NoError
    | CanonicalWatermarkSet
    | FullRefetchRequired
    | RepeatedDataVersionChange
    | ReconciliationLimit
    | MissingFailedInstrumentKey
    | RefetchInstrumentMismatch
    | OtherCode(code: string)

  datatype RunResult = RunResult(status: Status, error: Code, failedKey: Option<string>, runId: Option<int>)

  datatype RefetchResult = RefetchResult(status: Status, error: Code, instrumentKey: Option<string>)

  datatype Step = NormalStep(run: RunResult) | RefetchStep(key: string, refetch: RefetchResult)

  /** The outside world: the n-th normal run, the n-th refetch, the n-th look at the stale watermarks. */
  datatype World = World(
    normal: nat -> RunResult,
    refetch: (nat, string) -> RefetchResult,
    stale: nat -> seq<string>)

  datatype Outcome = Outcome(
    status: Status, error: Code, consecutivePasses: nat, passRunIds: seq<int>,
    refetched: seq<string>, steps: seq<Step>)

  // ---- Reading a list of steps ----

  function NormalRuns(steps: seq<Step>): seq<RunResult> {
    if steps == [] then []
    else
      var n := |steps| - 1;
      NormalRuns(steps[..n]) + if steps[n].NormalStep? then [steps[n].run] else []
  }

  function Refetches(steps: seq<Step>): seq<string> {
    if steps == [] then []
    else
      var n := |steps| - 1;
      Refetches(steps[..n]) + if steps[n].RefetchStep? then [steps[n].key] else []
  }

  predicate IsPass(s: Step) { s.NormalStep? && s.run.status == Pass }

  predicate IsFailedRun(s: Step) { s.NormalStep? && s.run.status != Pass }

  /** How many passing normal runs the list ends in. */
  function Streak(steps: seq<Step>): (k: nat)
    ensures k <= |steps|
  {
    if steps != [] && IsPass(steps[|steps| - 1]) then 1 + Streak(steps[..|steps| - 1]) else 0
  }

  function RunIds(steps: seq<Step>): seq<int> {
    if steps == [] then []
    else
      var n := |steps| - 1;
      RunIds(steps[..n])
        + if steps[n].NormalStep? && steps[n].run.runId.Some? then [steps[n].run.runId.value] else []
  }

  /** The ids of the passing runs the list ends in. */
  function PassIds(steps: seq<Step>): seq<int> { RunIds(steps[|steps| - Streak(steps)..]) }

  predicate Distinct(keys: seq<string>) {
    forall i, j :: 0 <= i < j < |keys| ==> keys[i] != keys[j]
  }

  predicate Refused(s: Step) { s.RefetchStep? && s.refetch.status != Pass }

  /** The provider passed the refetch, but for another instrument than the one asked for. */
  predicate Mismatched(s: Step) {
    && s.RefetchStep? && s.refetch.status == Pass
    && s.refetch.instrumentKey.Some? && s.refetch.instrumentKey.value != s.key
  }

  /** The refetches the loop has accepted: all but a last one that ended it. */
  function Accepted(steps: seq<Step>): seq<string> {
    if steps == [] then []
    else
      var n := |steps| - 1;
      if Refused(steps[n]) || Mismatched(steps[n]) then Refetches(steps[..n]) else Refetches(steps)
  }

  // ---- What the history demands next ----

  /** How often the stale watermarks have been looked up: once at the start, and for every incomplete set. */
  function Looks(steps: seq<Step>): nat {
    if steps == [] then 1
    else
      var n := |steps| - 1;
      Looks(steps[..n]) + if IsFailedRun(steps[n]) && steps[n].run.error == CanonicalWatermarkSet then 1 else 0
  }

  predicate NamesItsInstrument(run: RunResult) { run.failedKey.Some? && run.failedKey.value != "" }

  /** The instruments a failed run asks to refetch. */
  function AskedFor(world: World, run: RunResult, looks: nat): seq<string> {
    if run.error == CanonicalWatermarkSet then world.stale(looks)
    else if run.error == FullRefetchRequired && NamesItsInstrument(run) then [run.failedKey.value]
    else []
  }

  /** The instruments still waiting for their refetch. */
  function Pending(world: World, steps: seq<Step>): seq<string> {
    if steps == [] then world.stale(0)
    else
      var n := |steps| - 1;
      match steps[n]
      case NormalStep(run) => if run.status == Pass then [] else AskedFor(world, run, Looks(steps[..n]))
      case RefetchStep(_, _) =>
        var keys := Pending(world, steps[..n]);
        if keys == [] then [] else keys[1..]
  }

  datatype Move = MakeRun | MakeRefetch(key: string) | Stop(status: Status, error: Code)

  /** What a failed run reports when it asks for no refetch. */
  function ErrorOf(run: RunResult): Code {
    if run.error == FullRefetchRequired then MissingFailedInstrumentKey else run.error
  }

  /** The next move, read off the history alone. */
  function Next(world: World, required: int, limit: int, steps: seq<Step>): Move {
    var n, keys := |steps| - 1, Pending(world, steps);
    if steps != [] && Refused(steps[n]) then Stop(steps[n].refetch.status, steps[n].refetch.error)
    else if steps != [] && Mismatched(steps[n]) then Stop(Pass, RefetchInstrumentMismatch)
    else if keys != [] then
      if keys[0] in Refetches(steps) then Stop(Blocked, RepeatedDataVersionChange)
      else if |Refetches(steps)| >= limit then Stop(Blocked, ReconciliationLimit)
      else MakeRefetch(keys[0])
    else if steps != [] && IsFailedRun(steps[n]) then Stop(steps[n].run.status, ErrorOf(steps[n].run))
    else if Streak(steps) >= required then Stop(Pass, NoError)
    else MakeRun
  }

  /** The step is the world's answer to the move the history demands. */
  ghost predicate Answers(world: World, required: int, limit: int, steps: seq<Step>, s: Step) {
    match Next(world, required, limit, steps)
    case MakeRun => s == NormalStep(world.normal(|NormalRuns(steps)|))
    case MakeRefetch(key) => s == RefetchStep(key, world.refetch(|Refetches(steps)|, key))
    case Stop(_, _) => false
  }

  /** A history: every step is the one demanded by those before it. */
  ghost predicate History(world: World, required: int, limit: int, steps: seq<Step>) {
    steps == []
    || (History(world, required, limit, steps[..|steps| - 1])
        && Answers(world, required, limit, steps[..|steps| - 1], steps[|steps| - 1]))
  }

  /** The outcome reports a history that demands to stop, and why. */
  ghost predicate Ended(world: World, required: int, limit: int, o: Outcome) {
    && History(world, required, limit, o.steps)
    && Next(world, required, limit, o.steps) == Stop(o.status, o.error)
    && o.consecutivePasses == Streak(o.steps) && o.passRunIds == PassIds(o.steps)
    && o.refetched == Accepted(o.steps)
  }

  // ---- Growing a history ----

  lemma {:induction false} Appended(world: World, required: int, limit: int, steps: seq<Step>, s: Step)
    requires History(world, required, limit, steps) && Answers(world, required, limit, steps, s)
    ensures History(world, required, limit, steps + [s])
    ensures NormalRuns(steps + [s]) == NormalRuns(steps) + if s.NormalStep? then [s.run] else []
    ensures Refetches(steps + [s]) == Refetches(steps) + if s.RefetchStep? then [s.key] else []
    ensures Streak(steps + [s]) == if IsPass(s) then Streak(steps) + 1 else 0
    ensures Looks(steps + [s]) ==
      Looks(steps) + if IsFailedRun(s) && s.run.error == CanonicalWatermarkSet then 1 else 0
    ensures Pending(world, steps + [s]) ==
      match s
      case NormalStep(run) => if run.status == Pass then [] else AskedFor(world, run, Looks(steps))
      case RefetchStep(_, _) => var keys := Pending(world, steps); if keys == [] then [] else keys[1..]
  {
    assert (steps + [s])[..|steps|] == steps;
  }

  /** The loop is between two moves: nothing refused, the kept keys are the refetches made. */
  ghost predicate Between(world: World, required: int, limit: int, steps: seq<Step>, refetched: seq<string>) {
    && History(world, required, limit, steps)
    && refetched == Refetches(steps) && |refetched| <= limit
    && (steps != [] ==> !Refused(steps[|steps| - 1]) && !Mismatched(steps[|steps| - 1]))
  }

  lemma {:induction false} PendingEndsTheStreak(world: World, steps: seq<Step>)
    requires Pending(world, steps) != []
    ensures Streak(steps) == 0
  {
  }

  /** One guarded full refetch: refuses a repeated key and an exhausted budget, else asks once. */
  method Recover(world: World, ghost required: int, limit: int, steps: seq<Step>, refetched: seq<string>, key: string)
    returns (newSteps: seq<Step>, newRefetched: seq<string>, blocked: Option<Outcome>)
    requires Between(world, required, limit, steps, refetched)
    requires Pending(world, steps) != [] && Pending(world, steps)[0] == key
    ensures blocked.None? ==>
      && Between(world, required, limit, newSteps, newRefetched) && |newRefetched| == |refetched| + 1
      && Pending(world, newSteps) == Pending(world, steps)[1..]
      && NormalRuns(newSteps) == NormalRuns(steps) && Looks(newSteps) == Looks(steps) && Streak(newSteps) == 0
      && newSteps != [] && newSteps[|newSteps| - 1].RefetchStep?
    ensures blocked.Some? ==> Ended(world, required, limit, blocked.value)
  {
    hide History, Pending, Streak, Refetches, NormalRuns, Looks;
    newSteps, newRefetched, blocked := steps, refetched, None;
    PendingEndsTheStreak(world, steps);
    NoIdsAtTheEnd(steps);
    NothingRefused(steps);
    if key in refetched {
      blocked := Some(Outcome(Blocked, RepeatedDataVersionChange, 0, [], refetched, steps));
      return;
    }
    if |refetched| >= limit {
      blocked := Some(Outcome(Blocked, ReconciliationLimit, 0, [], refetched, steps));
      return;
    }
    var result := world.refetch(|refetched|, key);
    Appended(world, required, limit, steps, RefetchStep(key, result));
    newSteps := steps + [RefetchStep(key, result)];
    NoIdsAtTheEnd(newSteps);
    assert newSteps[..|newSteps| - 1] == steps;
    if result.status != Pass {
      blocked := Some(Outcome(result.status, result.error, 0, [], refetched, newSteps));
      return;
    }
    if result.instrumentKey.Some? && result.instrumentKey.value != key {
      blocked := Some(Outcome(result.status, RefetchInstrumentMismatch, 0, [], refetched, newSteps));
      return;
    }
    newRefetched := refetched + [key];
  }

  lemma {:induction false} NoIdsAtTheEnd(steps: seq<Step>)
    ensures Streak(steps) == 0 ==> PassIds(steps) == []
  {
  }

  method RecoverAll(world: World, ghost required: int, limit: int, steps: seq<Step>, refetched: seq<string>,
      keys: seq<string>)
    returns (newSteps: seq<Step>, newRefetched: seq<string>, blocked: Option<Outcome>)
    requires Between(world, required, limit, steps, refetched)
    requires keys == Pending(world, steps) && Streak(steps) == 0
    ensures blocked.None? ==>
      && Between(world, required, limit, newSteps, newRefetched) && |newRefetched| == |refetched| + |keys|
      && Pending(world, newSteps) == [] && NormalRuns(newSteps) == NormalRuns(steps)
      && Looks(newSteps) == Looks(steps) && Streak(newSteps) == 0
      && (keys == [] ==> newSteps == steps)
      && (keys != [] ==> newSteps != [] && newSteps[|newSteps| - 1].RefetchStep?)
    ensures blocked.Some? ==> Ended(world, required, limit, blocked.value)
  {
    hide Between, Ended, Pending, Streak, NormalRuns, Looks;
    newSteps, newRefetched, blocked := steps, refetched, None;
    for i := 0 to |keys|
      invariant blocked.None? && Between(world, required, limit, newSteps, newRefetched)
      invariant |newRefetched| == |refetched| + i && Pending(world, newSteps) == keys[i..]
      invariant NormalRuns(newSteps) == NormalRuns(steps) && Looks(newSteps) == Looks(steps) && Streak(newSteps) == 0
      invariant i == 0 ==> newSteps == steps
      invariant i > 0 ==> newSteps != [] && newSteps[|newSteps| - 1].RefetchStep?
    {
      newSteps, newRefetched, blocked := Recover(world, required, limit, newSteps, newRefetched, keys[i]);
      if blocked.Some? {
        return;
      }
      assert keys[i..][1..] == keys[i + 1..];
    }
  }

  /** A failed run either leads to at least one full refetch, or ends the loop with its own status. */
  method AfterFailedRun(world: World, ghost required: int, limit: int, run: RunResult, looks: nat,
      steps: seq<Step>, refetched: seq<string>)
    returns (newSteps: seq<Step>, newRefetched: seq<string>, newLooks: nat, ended: Option<Outcome>)
    requires Between(world, required, limit, steps, refetched)
    requires steps != [] && steps[|steps| - 1] == NormalStep(run) && run.status != Pass
    requires looks == Looks(steps[..|steps| - 1])
    ensures ended.None? ==>
      && Between(world, required, limit, newSteps, newRefetched) && |refetched| < |newRefetched|
      && Pending(world, newSteps) == [] && NormalRuns(newSteps) == NormalRuns(steps)
      && newLooks == Looks(newSteps) && Streak(newSteps) == 0
      && newSteps != [] && newSteps[|newSteps| - 1].RefetchStep?
    ensures ended.Some? ==> Ended(world, required, limit, ended.value)
  {
    hide History, Refetches, NormalRuns;
    newSteps, newRefetched, newLooks, ended := steps, refetched, looks, None;
    NoIdsAtTheEnd(steps);
    if run.error == CanonicalWatermarkSet {
      var keys := world.stale(looks);
      newLooks := looks + 1;
      if keys != [] {
        newSteps, newRefetched, ended := RecoverAll(world, required, limit, steps, refetched, keys);
        return;
      }
    }
    if run.error != FullRefetchRequired {
      ended := Some(Outcome(run.status, run.error, 0, [], refetched, steps));
      return;
    }
    if run.failedKey.None? || run.failedKey.value == "" {
      ended := Some(Outcome(run.status, MissingFailedInstrumentKey, 0, [], refetched, steps));
      return;
    }
    newSteps, newRefetched, ended := Recover(world, required, limit, steps, refetched, run.failedKey.value);
  }

  /**
   Whatever the world answers, the loop ends, and its outcome is the one history the answers determine: every run
   and refetch it made was demanded by what came before, and it stopped where and as the history demands.
   */
  method ReconcileIncremental(world: World, required: int, limit: int) returns (r: Result<Outcome, string>)
    ensures r.Err? <==> required < 1 || limit < 0
    ensures r.Ok? ==> Ended(world, required, limit, r.value)
  {
    if required < 1 {
      return Err("required_consecutive_passes must be positive");
    }
    if limit < 0 {
      return Err("max_full_refetches must not be negative");
    }
    var steps, refetched, blocked := RecoverAll(world, required, limit, [], [], world.stale(0));
    if blocked.Some? {
      return Ok(blocked.value);
    }
    var o := RunUntilStreak(world, required, limit, steps, refetched);
    r := Ok(o);
  }

  method RunUntilStreak(world: World, required: int, limit: int, steps0: seq<Step>,
      refetched0: seq<string>) returns (o: Outcome)
    requires 1 <= required && 0 <= limit && Between(world, required, limit, steps0, refetched0)
    requires NormalRuns(steps0) == [] && Looks(steps0) == 1 && Streak(steps0) == 0 && Pending(world, steps0) == []
    requires steps0 != [] ==> steps0[|steps0| - 1].RefetchStep?
    ensures Ended(world, required, limit, o)
  {
    hide History, Refetches, NormalRuns, Looks, Pending, Streak, PassIds, Accepted;
    var steps, refetched := steps0, refetched0;
    var streak, calls, looks := 0, 0, 1;
    var passIds: seq<int> := [];
    var blocked: Option<Outcome>;
    NoIdsAtTheEnd(steps);
    while streak < required
      invariant 0 <= streak <= required && streak == Streak(steps) && passIds == PassIds(steps)
      invariant Between(world, required, limit, steps, refetched) && Pending(world, steps) == []
      invariant calls == |NormalRuns(steps)| && looks == Looks(steps)
      invariant steps != [] ==> !IsFailedRun(steps[|steps| - 1])
      decreases limit - |refetched|, required - streak
    {
      var run := world.normal(calls);
      ghost var before := steps;
      Appended(world, required, limit, steps, NormalStep(run));
      steps, calls := steps + [NormalStep(run)], calls + 1;
      if run.status == Pass {
        StreakIds(before, NormalStep(run));
        streak := streak + 1;
        if run.runId.Some? {
          passIds := passIds + [run.runId.value];
        }
        continue;
      }
      streak, passIds := 0, [];
      assert steps[..|steps| - 1] == before;
      steps, refetched, looks, blocked := AfterFailedRun(world, required, limit, run, looks, steps, refetched);
      if blocked.Some? {
        return blocked.value;
      }
      NoIdsAtTheEnd(steps);
    }
    NothingRefused(steps);
    o := Outcome(Pass, NoError, streak, passIds, refetched, steps);
  }

  lemma {:induction false} NothingRefused(steps: seq<Step>)
    requires steps != [] ==> !Refused(steps[|steps| - 1]) && !Mismatched(steps[|steps| - 1])
    ensures Accepted(steps) == Refetches(steps)
  {
  }

  /** A passing run extends the streak, and its id the list of ids. */
  lemma {:induction false} StreakIds(steps: seq<Step>, s: Step)
    requires IsPass(s)
    ensures PassIds(steps + [s]) == PassIds(steps) + if s.run.runId.Some? then [s.run.runId.value] else []
  {
    var more := steps + [s];
    assert more[..|steps|] == steps;
    var tail := more[|more| - Streak(more)..];
    assert tail[..|tail| - 1] == steps[|steps| - Streak(steps)..];
  }

  // ---- Laws of every history ----

  lemma {:induction false} AppendDistinct(keys: seq<string>, key: string)
    requires Distinct(keys) && key !in keys
    ensures Distinct(keys + [key])
  {
  }

  /** Refetches are of distinct instruments and never more than the limit. */
  lemma {:induction false} RefetchesAreBounded(world: World, required: int, limit: int, steps: seq<Step>)
    requires History(world, required, limit, steps) && 0 <= limit
    ensures Distinct(Refetches(steps)) && |Refetches(steps)| <= limit
  {
    if steps != [] {
      hide Pending, Distinct, Streak, Looks;
      var n := |steps| - 1;
      RefetchesAreBounded(world, required, limit, steps[..n]);
      if steps[n].RefetchStep? {
        AppendDistinct(Refetches(steps[..n]), steps[n].key);
      }
    }
  }

  /** A normal run is made only where the last step did not fail and fewer than `required` runs have passed. */
  lemma {:induction false} RunIsDue(world: World, required: int, limit: int, steps: seq<Step>, s: Step)
    requires Answers(world, required, limit, steps, s) && s.NormalStep?
    ensures Streak(steps) < required && (steps != [] ==> !IsFailedRun(steps[|steps| - 1]))
  {
  }

  /** The runs already made are paid for by the refetches and by the runs of the current streak. */
  ghost predicate PaidFor(required: int, steps: seq<Step>) {
    var runs, refetches := |NormalRuns(steps)|, |Refetches(steps)|;
    runs <= required * refetches + if steps != [] && IsFailedRun(steps[|steps| - 1]) then required else Streak(steps)
  }

  lemma {:induction false} RunsArePaidFor(world: World, required: int, limit: int, steps: seq<Step>)
    requires History(world, required, limit, steps) && 1 <= required
    ensures PaidFor(required, steps) && Streak(steps) <= required
  {
    if steps != [] {
      var n := |steps| - 1;
      var before := steps[..n];
      hide Pending, Looks;
      RunsArePaidFor(world, required, limit, before);
      if steps[n].NormalStep? {
        RunIsDue(world, required, limit, before, steps[n]);
        assert |Refetches(steps)| == |Refetches(before)|;
      } else {
        assert |Refetches(steps)| == |Refetches(before)| + 1;
        assert required * (|Refetches(before)| + 1) == required * |Refetches(before)| + required;
      }
    }
  }

  lemma {:induction false} WithinBudget(required: int, limit: int, refetches: int, runs: int)
    requires 0 <= refetches <= limit && 1 <= required && runs <= required * refetches + required
    ensures runs <= required * (limit + 1)
  {
  }

  /** However the loop ends: at most required * (limit + 1) normal runs, at most `limit` refetches, none repeated. */
  lemma {:induction false} WorkIsBounded(world: World, required: int, limit: int, o: Outcome)
    requires Ended(world, required, limit, o) && 1 <= required && 0 <= limit
    ensures |NormalRuns(o.steps)| <= required * (limit + 1)
    ensures |Refetches(o.steps)| <= limit && Distinct(Refetches(o.steps)) && o.refetched <= Refetches(o.steps)
  {
    hide History, Next, NormalRuns, Distinct;
    RefetchesAreBounded(world, required, limit, o.steps);
    RunsArePaidFor(world, required, limit, o.steps);
    WithinBudget(required, limit, |Refetches(o.steps)|, |NormalRuns(o.steps)|);
  }

  /** The last `k` steps are passing normal runs. */
  predicate EndsInPasses(steps: seq<Step>, k: nat) {
    k <= |steps| && forall i :: |steps| - k <= i < |steps| ==> IsPass(steps[i])
  }

  lemma {:induction false} StreakPasses(steps: seq<Step>)
    ensures EndsInPasses(steps, Streak(steps))
  {
    if Streak(steps) > 0 {
      StreakPasses(steps[..|steps| - 1]);
    }
  }

  /**
   Exactly what PASS is worth: without an error it means that the last `required` steps were passing normal runs,
   nothing refetched among them; with an error, and only then, the last refetch answered for another instrument.
   */
  lemma {:induction false} PassMeansRecovered(world: World, required: int, limit: int, o: Outcome)
    requires Ended(world, required, limit, o) && 1 <= required
    ensures o.status == Pass && o.error == NoError ==>
      && o.consecutivePasses == required && EndsInPasses(o.steps, required) && o.refetched == Refetches(o.steps)
    ensures o.steps != [] && Mismatched(o.steps[|o.steps| - 1]) <==> o.status == Pass && o.error != NoError
    ensures o.status == Pass && o.error != NoError ==> o.error == RefetchInstrumentMismatch
  {
    hide History, Pending;
    RunsArePaidFor(world, required, limit, o.steps);
    StreakPasses(o.steps);
  }

  /** The last step failed, and the outcome repeats what it reported. */
  predicate RepeatsLastStep(o: Outcome) {
    && o.steps != []
    && match o.steps[|o.steps| - 1]
       case NormalStep(run) => run.status == o.status && run.error == o.error
       case RefetchStep(_, refetch) => refetch.status == o.status && refetch.error == o.error
  }

  /** Every other end names a refetch that was due: already made, over the limit, or for an unnamed instrument. */
  lemma {:induction false} BlockedEndsAreExplained(world: World, required: int, limit: int, o: Outcome)
    requires Ended(world, required, limit, o) && o.status != Pass && !RepeatsLastStep(o) && 0 <= limit
    ensures o.error in {RepeatedDataVersionChange, ReconciliationLimit, MissingFailedInstrumentKey}
    ensures o.error != MissingFailedInstrumentKey ==> o.status == Blocked
    ensures o.error == RepeatedDataVersionChange ==>
      Pending(world, o.steps) != [] && Pending(world, o.steps)[0] in o.refetched
    ensures o.error == ReconciliationLimit ==>
      Pending(world, o.steps) != [] && Pending(world, o.steps)[0] !in o.refetched && |o.refetched| == limit
    ensures o.error == MissingFailedInstrumentKey ==>
      o.steps != [] && FailsWith(o.steps[|o.steps| - 1], FullRefetchRequired)
      && !NamesItsInstrument(o.steps[|o.steps| - 1].run)
  {
    hide History, Next, Refetches, Pending, Accepted, NormalRuns, NamesItsInstrument, Streak, PassIds;
    RefetchesAreBounded(world, required, limit, o.steps);
    AllAccepted(o.steps);
    StopsBecause(world, required, limit, o.steps, o.status, o.error);
    NothingAsked(world, o.steps);
  }

  /** The last step ended the loop by itself. */
  predicate EndsTheLoop(steps: seq<Step>) {
    steps != [] && (Refused(steps[|steps| - 1]) || Mismatched(steps[|steps| - 1]))
  }

  /** A stop short of PASS: a refetch was refused, one that is due may not be made, or a run asked for none. */
  lemma {:induction false} StopsBecause(world: World, required: int, limit: int, steps: seq<Step>, status: Status,
      error: Code)
    requires Next(world, required, limit, steps) == Stop(status, error) && status != Pass
    ensures var keys := Pending(world, steps);
      || (steps != [] && Refused(steps[|steps| - 1])
          && status == steps[|steps| - 1].refetch.status && error == steps[|steps| - 1].refetch.error)
      || (keys != [] && status == Blocked && error == RepeatedDataVersionChange && keys[0] in Refetches(steps)
          && !EndsTheLoop(steps))
      || (keys != [] && status == Blocked && error == ReconciliationLimit && keys[0] !in Refetches(steps)
          && |Refetches(steps)| >= limit && !EndsTheLoop(steps))
      || (keys == [] && steps != [] && IsFailedRun(steps[|steps| - 1])
          && status == steps[|steps| - 1].run.status && error == ErrorOf(steps[|steps| - 1].run))
  {
    hide Pending, Refetches, Streak;
  }

  lemma {:induction false} AllAccepted(steps: seq<Step>)
    ensures !EndsTheLoop(steps) ==> Accepted(steps) == Refetches(steps)
  {
  }

  /** A failed run after which nothing is pending asked for nothing. */
  lemma {:induction false} NothingAsked(world: World, steps: seq<Step>)
    ensures Pending(world, steps) == [] && steps != [] && FailsWith(steps[|steps| - 1], FullRefetchRequired) ==>
      !NamesItsInstrument(steps[|steps| - 1].run)
  {
    hide Looks;
  }

  // ---- What calls for a refetch ----

  predicate FailsWith(s: Step, error: Code) { s.NormalStep? && s.run.status != Pass && s.run.error == error }

  /** The runs before `m` that found the set of watermarks incomplete. */
  function Incomplete(steps: seq<Step>, m: int): set<int>
    requires m <= |steps|
  {
    set i | 0 <= i < m && FailsWith(steps[i], CanonicalWatermarkSet)
  }

  /**
   The instruments asked for before the first run (`m == -1`) or by run `m`: those found stale, or the one a run names
   that needs its whole history again.
   */
  ghost predicate Asks(world: World, steps: seq<Step>, m: int, keys: seq<string>)
    requires -1 <= m < |steps|
  {
    if m == -1 then keys == world.stale(0)
    else
      && steps[m].NormalStep? && steps[m].run.status != Pass
      && if steps[m].run.error == CanonicalWatermarkSet then keys == world.stale(1 + |Incomplete(steps, m)|)
         else if steps[m].run.error == FullRefetchRequired && steps[m].run.failedKey.Some?
           && steps[m].run.failedKey.value != "" then keys == [steps[m].run.failedKey.value]
         else keys == []
  }

  lemma {:induction false} LooksCount(steps: seq<Step>, m: nat)
    requires m <= |steps|
    ensures Looks(steps[..m]) == 1 + |Incomplete(steps, m)|
  {
    if m == 0 {
      assert Incomplete(steps, 0) == {};
    } else {
      LooksCount(steps, m - 1);
      assert steps[..m][..m - 1] == steps[..m - 1];
      assert Incomplete(steps, m) == Incomplete(steps, m - 1)
        + if FailsWith(steps[m - 1], CanonicalWatermarkSet) then {m - 1} else {};
    }
  }

  /** Since `m` there were only refetches, of the instruments asked for in their order. */
  ghost predicate WorksOff(world: World, steps: seq<Step>, m: int, k: int, keys: seq<string>)
    requires -1 <= m < k <= |steps|
  {
    && Asks(world, steps, m, keys) && k - m - 1 <= |keys|
    && forall j :: m < j < k ==> steps[j].RefetchStep? && steps[j].key == keys[j - m - 1]
  }

  /** What is pending is the rest of what the last run, or the start, asked for. */
  lemma {:induction false} PendingIsAskedFor(world: World, required: int, limit: int, steps: seq<Step>, k: nat)
      returns (m: int, keys: seq<string>)
    requires k <= |steps| && History(world, required, limit, steps[..k])
    requires k > 0 ==> !IsPass(steps[k - 1])
    ensures -1 <= m < k && WorksOff(world, steps, m, k, keys) && Pending(world, steps[..k]) == keys[k - m - 1..]
  {
    if k == 0 {
      m, keys := -1, world.stale(0);
      assert keys[0..] == keys;
    } else {
      assert steps[..k][..k - 1] == steps[..k - 1];
      hide History, Pending, WorksOff, Asks, Looks;
      if steps[k - 1].NormalStep? {
        m := k - 1;
        keys := AskedFor(world, steps[m].run, Looks(steps[..m]));
        RunAsks(world, steps, m);
      } else {
        RefetchFollows(world, required, limit, steps, k);
        m, keys := PendingIsAskedFor(world, required, limit, steps, k - 1);
        OneLess(world, steps, m, k, keys);
      }
    }
  }

  lemma {:induction false} RunAsks(world: World, steps: seq<Step>, m: nat)
    requires m < |steps| && steps[m].NormalStep? && !IsPass(steps[m])
    ensures var keys := AskedFor(world, steps[m].run, Looks(steps[..m]));
      WorksOff(world, steps, m, m + 1, keys) && Pending(world, steps[..m + 1]) == keys[0..]
  {
    assert steps[..m + 1][..m] == steps[..m];
    LooksCount(steps, m);
  }

  lemma {:induction false} OneLess(world: World, steps: seq<Step>, m: int, k: nat, keys: seq<string>)
    requires -1 <= m < k - 1 && 0 < k <= |steps| && WorksOff(world, steps, m, k - 1, keys)
    requires steps[k - 1].RefetchStep? && Pending(world, steps[..k - 1]) == keys[k - m - 2..]
    requires Pending(world, steps[..k - 1]) != [] && steps[k - 1].key == Pending(world, steps[..k - 1])[0]
    ensures WorksOff(world, steps, m, k, keys) && Pending(world, steps[..k]) == keys[k - m - 1..]
  {
    hide Asks, Looks;
    assert steps[..k][..k - 1] == steps[..k - 1];
  }

  /** A refetch is the answer to something pending, so no passing run comes right before it. */
  lemma {:induction false} RefetchFollows(world: World, required: int, limit: int, steps: seq<Step>, k: nat)
    requires 0 < k <= |steps| && History(world, required, limit, steps[..k]) && steps[k - 1].RefetchStep?
    ensures History(world, required, limit, steps[..k - 1])
    ensures k > 1 ==> !IsPass(steps[k - 2])
    ensures Pending(world, steps[..k - 1]) != [] && steps[k - 1].key == Pending(world, steps[..k - 1])[0]
  {
    hide Streak, Looks, NormalRuns, Refetches, AskedFor;
    var before := steps[..k - 1];
    assert steps[..k][..k - 1] == before && steps[..k][k - 1] == steps[k - 1];
    assert k > 1 ==> before[|before| - 1] == steps[k - 2];
  }

  /**
   Every refetch was called for: before the first run, by the watermarks found stale; afterwards by the last failed
   run, which found the set incomplete or names the instrument; and in between only refetches were made, in the order
   asked for. All of them but a last one that ends the loop passed, and for the instrument they were made for.
   */
  lemma {:induction false} RefetchesAreCalledFor(world: World, required: int, limit: int, steps: seq<Step>, k: nat)
      returns (m: int, keys: seq<string>)
    requires History(world, required, limit, steps) && k < |steps| && steps[k].RefetchStep?
    ensures -1 <= m < k + 1 && WorksOff(world, steps, m, k + 1, keys)
    ensures k + 1 < |steps| ==>
      steps[k].refetch.status == Pass
      && (steps[k].refetch.instrumentKey == None || steps[k].refetch.instrumentKey == Some(steps[k].key))
  {
    hide History, Answers, Pending, Asks;
    PrefixIsHistory(world, required, limit, steps, k + 1);
    RefetchFollows(world, required, limit, steps, k + 1);
    m, keys := PendingIsAskedFor(world, required, limit, steps, k);
    if k + 1 < |steps| {
      PassedIfFollowed(world, required, limit, steps, k);
    }
  }

  lemma {:induction false} PassedIfFollowed(world: World, required: int, limit: int, steps: seq<Step>, k: nat)
    requires k + 1 < |steps| && steps[k].RefetchStep?
    requires Answers(world, required, limit, steps[..k + 1], steps[k + 1])
    ensures steps[k].refetch.status == Pass
    ensures steps[k].refetch.instrumentKey == None || steps[k].refetch.instrumentKey == Some(steps[k].key)
  {
    hide Pending, Streak, Looks, NormalRuns, Refetches;
    assert steps[..k + 1][k] == steps[k];
  }

  /** A failed run is followed by a refetch of what it asks for, or by the end. */
  lemma {:induction false} FailedRunsAreFollowed(world: World, required: int, limit: int, steps: seq<Step>, m: nat)
    requires History(world, required, limit, steps) && m + 1 < |steps| && IsFailedRun(steps[m])
    ensures steps[m + 1].RefetchStep?
    ensures exists keys :: Asks(world, steps, m, keys) && keys != [] && steps[m + 1].key == keys[0]
  {
    hide History, Streak, NormalRuns, Refetches;
    PrefixIsHistory(world, required, limit, steps, m + 1);
    assert steps[..m + 1][m] == steps[m];
    assert steps[..m + 1][..m] == steps[..m];
    LooksCount(steps, m);
    var keys := AskedFor(world, steps[m].run, Looks(steps[..m]));
    assert Asks(world, steps, m, keys);
  }

  /** How a loop ends whose last run failed and asked for nothing: with what the run reported, or for want of a key. */
  lemma {:induction false} EndsWithItsLastRun(world: World, required: int, limit: int, o: Outcome)
    requires Ended(world, required, limit, o) && o.steps != [] && IsFailedRun(o.steps[|o.steps| - 1])
    requires Asks(world, o.steps, |o.steps| - 1, [])
    ensures var run := o.steps[|o.steps| - 1].run;
      && o.status == run.status
      && o.error == if run.error == FullRefetchRequired then MissingFailedInstrumentKey else run.error
  {
    hide History, Streak, NormalRuns, Refetches, Accepted;
    var n := |o.steps| - 1;
    LooksCount(o.steps, n);
  }

  /** How a loop ends with a refetch: with what a refused one reported, or PASS with the mismatch. */
  lemma {:induction false} EndsWithItsLastRefetch(world: World, required: int, limit: int, o: Outcome)
    requires Ended(world, required, limit, o) && o.steps != [] && o.steps[|o.steps| - 1].RefetchStep?
    ensures var last := o.steps[|o.steps| - 1];
      && (last.refetch.status != Pass ==> o.status == last.refetch.status && o.error == last.refetch.error)
      && (last.refetch.status == Pass && last.refetch.instrumentKey.Some?
          && last.refetch.instrumentKey.value != last.key ==>
            o.status == Pass && o.error == RefetchInstrumentMismatch)
  {
    hide History, Pending, Streak, NormalRuns, Refetches, Accepted;
  }

  // ---- The answers determine the outcome ----

  lemma {:induction false} SameStep(world: World, required: int, limit: int, steps: seq<Step>, a: Step, b: Step)
    requires Answers(world, required, limit, steps, a) && Answers(world, required, limit, steps, b)
    ensures a == b
  {
  }

  lemma {:induction false} PrefixIsHistory(world: World, required: int, limit: int, steps: seq<Step>, n: nat)
    requires History(world, required, limit, steps) && n <= |steps|
    ensures History(world, required, limit, steps[..n])
    ensures n < |steps| ==> Answers(world, required, limit, steps[..n], steps[n])
  {
    hide Answers;
    if n < |steps| - 1 {
      PrefixIsHistory(world, required, limit, steps[..|steps| - 1], n);
      assert steps[..|steps| - 1][..n] == steps[..n];
    } else if n == |steps| {
      assert steps[..n] == steps;
    }
  }

  lemma {:induction false} SamePrefix(world: World, required: int, limit: int, a: seq<Step>, b: seq<Step>, n: nat)
    requires History(world, required, limit, a) && History(world, required, limit, b) && n <= |a| && n <= |b|
    ensures a[..n] == b[..n]
  {
    hide Answers;
    if n > 0 {
      SamePrefix(world, required, limit, a, b, n - 1);
      PrefixIsHistory(world, required, limit, a, n - 1);
      PrefixIsHistory(world, required, limit, b, n - 1);
      SameStep(world, required, limit, a[..n - 1], a[n - 1], b[n - 1]);
      assert a[..n] == a[..n - 1] + [a[n - 1]] && b[..n] == b[..n - 1] + [b[n - 1]];
    }
  }

  lemma {:induction false} StoppedIsLongest(world: World, required: int, limit: int, a: seq<Step>, b: seq<Step>)
    requires History(world, required, limit, a) && History(world, required, limit, b)
    requires Next(world, required, limit, a).Stop?
    ensures |b| <= |a|
  {
    hide Next, Answers, History;
    assert a[..|a|] == a;
    NothingAnswersAStop(world, required, limit, a);
    if |a| <= |b| {
      SamePrefix(world, required, limit, a, b, |a|);
      PrefixIsHistory(world, required, limit, b, |a|);
    }
  }

  lemma {:induction false} NothingAnswersAStop(world: World, required: int, limit: int, steps: seq<Step>)
    requires Next(world, required, limit, steps).Stop?
    ensures forall s :: !Answers(world, required, limit, steps, s)
  {
  }

  /** Only one outcome fits the world's answers. */
  lemma {:induction false} OneOutcome(world: World, required: int, limit: int, o: Outcome, p: Outcome)
    requires Ended(world, required, limit, o) && Ended(world, required, limit, p)
    ensures o == p
  {
    hide Next, History;
    StoppedIsLongest(world, required, limit, o.steps, p.steps);
    StoppedIsLongest(world, required, limit, p.steps, o.steps);
    SamePrefix(world, required, limit, o.steps, p.steps, |o.steps|);
    assert o.steps[..|o.steps|] == o.steps && p.steps[..|p.steps|] == p.steps;
  }

  // ---- Runs that pass from the start ----

  function FirstRuns(world: World, k: nat): seq<Step> {
    if k == 0 then [] else FirstRuns(world, k - 1) + [NormalStep(world.normal(k - 1))]
  }

  ghost predicate PassesFromTheStart(world: World, k: int) {
    world.stale(0) == [] && forall i :: 0 <= i < k ==> world.normal(i).status == Pass
  }

  /** The state of the loop after `k` passing runs and nothing else. */
  ghost predicate OnlyPasses(world: World, required: int, limit: int, steps: seq<Step>, k: nat) {
    && History(world, required, limit, steps) && |steps| == k == Streak(steps) == |NormalRuns(steps)|
    && Pending(world, steps) == [] && Refetches(steps) == []
    && (steps != [] ==> IsPass(steps[|steps| - 1]))
  }

  lemma {:induction false} OneMorePass(world: World, required: int, limit: int, steps: seq<Step>, k: nat)
    requires OnlyPasses(world, required, limit, steps, k) && k < required && world.normal(k).status == Pass
    ensures OnlyPasses(world, required, limit, steps + [NormalStep(world.normal(k))], k + 1)
  {
    hide History, Pending, Streak, NormalRuns, Refetches, Looks;
    Appended(world, required, limit, steps, NormalStep(world.normal(k)));
  }

  lemma {:induction false} FirstRunsAreHistory(world: World, required: int, limit: int, k: nat)
    requires PassesFromTheStart(world, required) && k <= required
    ensures OnlyPasses(world, required, limit, FirstRuns(world, k), k)
  {
    if k > 0 {
      hide OnlyPasses;
      FirstRunsAreHistory(world, required, limit, k - 1);
      OneMorePass(world, required, limit, FirstRuns(world, k - 1), k - 1);
    } else {
      assert Streak([]) == 0;
    }
  }

  /** A passing run without an id adds no id. */
  lemma {:induction false} IdsOfFirstRuns(world: World, k: nat)
    requires forall i :: 0 <= i < k ==> world.normal(i).runId.None?
    ensures RunIds(FirstRuns(world, k)) == []
  {
    if k > 0 {
      IdsOfFirstRuns(world, k - 1);
      assert FirstRuns(world, k)[..|FirstRuns(world, k)| - 1] == FirstRuns(world, k - 1);
    }
  }

  /** When nothing is stale and the first `required` runs pass, the loop makes these runs and reports PASS. */
  lemma {:induction false} PassingRunsRecover(world: World, required: int, limit: int, o: Outcome)
    requires PassesFromTheStart(world, required) && 1 <= required && Ended(world, required, limit, o)
    ensures var steps := FirstRuns(world, required);
      o == Outcome(Pass, NoError, required, RunIds(steps), [], steps)
  {
    hide History, Pending, Streak, Refetches, FirstRuns, RunIds;
    var steps := FirstRuns(world, required);
    FirstRunsAreHistory(world, required, limit, required);
    assert steps[|steps| - Streak(steps)..] == steps;
    OneOutcome(world, required, limit, o, Outcome(Pass, NoError, required, RunIds(steps), [], steps));
  }

  /** A PASS without an id counts as a pass: `required` of them end the loop with PASS and an empty list of ids. */
  lemma {:induction false} PassesWithoutIdsCount(world: World, required: int, limit: int, o: Outcome)
    requires PassesFromTheStart(world, required) && 1 <= required && Ended(world, required, limit, o)
    requires forall i :: 0 <= i < required ==> world.normal(i).runId.None?
    ensures o.status == Pass && o.error == NoError && o.consecutivePasses == required && o.passRunIds == []
  {
    PassingRunsRecover(world, required, limit, o);
    IdsOfFirstRuns(world, required);
  }

  // ---- What the reported pass ids are worth ----

  lemma {:induction false} IdsOfPasses(steps: seq<Step>)
    requires forall i :: 0 <= i < |steps| ==> IsPass(steps[i])
    ensures |RunIds(steps)| <= |steps|
    ensures |RunIds(steps)| == |steps| <==>
      forall i :: 0 <= i < |steps| ==> IsPass(steps[i]) && steps[i].run.runId.Some?
  {
    if steps != [] {
      IdsOfPasses(steps[..|steps| - 1]);
    }
  }

  /** PASS comes with at most `required` ids, and with that many exactly when each of the last runs carries one. */
  lemma {:induction false} ReportedIdsAreComplete(world: World, required: int, limit: int, o: Outcome)
    requires Ended(world, required, limit, o) && 1 <= required && o.status == Pass && o.error == NoError
    ensures EndsInPasses(o.steps, required) && |o.passRunIds| <= required
    ensures |o.passRunIds| == required <==>
      forall i :: |o.steps| - required <= i < |o.steps| ==> IsPass(o.steps[i]) && o.steps[i].run.runId.Some?
  {
    hide Ended, Streak;
    PassMeansRecovered(world, required, limit, o);
    ReportsItsHistory(world, required, limit, o);
    var k := |o.steps| - required;
    var last := o.steps[k..];
    IdsOfPasses(last);
    if |o.passRunIds| == required {
      forall i | k <= i < |o.steps| ensures IsPass(o.steps[i]) && o.steps[i].run.runId.Some? {
        assert o.steps[i] == last[i - k];
      }
    }
  }

  lemma {:induction false} ReportsItsHistory(world: World, required: int, limit: int, o: Outcome)
    requires Ended(world, required, limit, o)
    ensures o.passRunIds == PassIds(o.steps) && o.consecutivePasses == Streak(o.steps)
  {
  }
}
