/** Publication of an FX research candidate: onboarding, finalisation, and two accepted normal runs. */
module Publication {
  import opened Types

  datatype Status = Candidate | Staging | Published | Blocked

  /** One accepted normal run: its ingestion run and the complete time it reached. */
  datatype Acceptance = Acceptance(runId: int, completeTime: int)

  /** The stored row, and whether the instrument has a watermark row already. */
  datatype State = State(
    status: Status,
    passes: int,
    lastAccepted: Option<int>,
    history: seq<Acceptance>,
    lastRun: Option<int>,
    onboarded: bool)

  const FRESH := State(Candidate, 0, None, [], None, false)

  /** How an onboarding attempt ends once its acquisition is over. */
  datatype Onboarding =
    | Raised(committed: bool)
    | Gated(pass: bool, latest: Option<int>, metadata: bool)

  /** Finalising reads the database run again; a mismatch raises and changes nothing. */
  datatype Finalization = StateMismatch | Regated(pass: bool, latestComplete: int)

  datatype NormalRun = NormalRun(pass: bool, runId: int, watermarkAfter: Option<int>)

  datatype Event =
    | Onboard(runId: int, onboarding: Onboarding)
    | Finalize(runId: int, finalization: Finalization)
    | Accept(run: NormalRun)

  datatype Answer =
    Idempotent | Done | NotStaging | BaselineMissing | RunFailed | NotAdvanced | CounterInvalid | HistoryInvalid

  function Coalesce<T>(first: Option<T>, second: Option<T>): Option<T> {
    if first.Some? then first else second
  }

  // ---- What each command does to the row ----

  function AfterOnboard(s: State, runId: int, o: Onboarding): State {
    if s.onboarded then
      s.(status := Blocked, passes := 0, lastRun := Some(runId))
    else match o
      case Raised(committed) =>
        s.(status := Blocked, passes := 0, lastRun := Some(runId), onboarded := committed)
      case Gated(pass, latest, metadata) =>
        // a passing gate has compared the latest complete time, so it has one
        var staged := pass && latest.Some?;
        State(if staged then Staging else Blocked, 0, Coalesce(latest, s.lastAccepted),
          if staged || metadata then [] else s.history, Some(runId), true)
  }

  function AfterFinalize(s: State, runId: int, f: Finalization): State {
    if s.status == Staging || s.status == Published then s
    else match f
      case StateMismatch => s
      case Regated(pass, latest) =>
        if pass then State(Staging, 0, Some(latest), [], Some(runId), true) else s
  }

  /** The acceptance history a further run is appended to; older rows carry only the counter. */
  function PriorHistory(s: State): seq<Acceptance>
    requires s.lastAccepted.Some?
  {
    if s.history == [] && s.passes == 1 then [Acceptance(s.lastRun.GetOr(0), s.lastAccepted.value)] else s.history
  }

  function AfterAccept(s: State, run: NormalRun): (State, Answer) {
    if s.status == Published && s.passes == 2 then (s, Idempotent)
    else if s.status != Staging then (s, NotStaging)
    else if s.lastAccepted.None? then (s, BaselineMissing)
    else if !run.pass then
      (s.(status := Blocked, passes := 0, lastRun := Some(run.runId)), RunFailed)
    else
      var observed := run.watermarkAfter;
      if observed.None? || observed.value <= s.lastAccepted.value then (s, NotAdvanced)
      else
        var consecutive := s.passes + 1;
        if consecutive != 1 && consecutive != 2 then (s, CounterInvalid)
        else
          var history := PriorHistory(s) + [Acceptance(run.runId, observed.value)];
          if |history| != consecutive || |set a | a in history :: a.completeTime| != consecutive then
            (s, HistoryInvalid)
          else
            (State(if consecutive == 2 then Published else Staging, consecutive, observed, history,
              Some(run.runId), s.onboarded), Done)
  }

  function Step(s: State, e: Event): State {
    match e
    case Onboard(runId, o) => AfterOnboard(s, runId, o)
    case Finalize(runId, f) => AfterFinalize(s, runId, f)
    case Accept(run) => AfterAccept(s, run).0
  }

  function Run(events: seq<Event>): State {
    if events == [] then FRESH else Step(Run(events[..|events| - 1]), events[|events| - 1])
  }

  // ---- PUBLISHED means two accepted runs past the staging baseline ----

  /** Command number `b` put the candidate on staging with complete time `t` as its baseline. */
  ghost predicate StagedAt(events: seq<Event>, b: int, t: int) {
    && 0 <= b < |events|
    && Run(events[..b + 1]).status == Staging && Run(events[..b + 1]).passes == 0
    && Run(events[..b + 1]).lastAccepted == Some(t)
    && PassesAGate(events[b], t) && Run(events[..b]).status != Staging && Run(events[..b]).status != Published
  }

  /** A gate that passed over rows complete up to `t`. */
  predicate PassesAGate(e: Event, t: int) {
    match e
    case Onboard(_, o) => o == Gated(true, Some(t), o.Gated? && o.metadata)
    case Finalize(_, f) => f == Regated(true, t)
    case Accept(_) => false
  }

  /** Command number `i` was a passing normal run that moved the complete time from `from` to `to`. */
  ghost predicate AcceptedAt(events: seq<Event>, i: int, from: int, to: int) {
    && 0 <= i < |events| && events[i].Accept? && events[i].run.pass
    && Run(events[..i]).status == Staging && Run(events[..i]).lastAccepted == Some(from)
    && events[i].run.watermarkAfter == Some(to) && from < to
  }

  /** The candidate was on staging after every command from number `b` to before number `n`. */
  ghost predicate StaysStaged(events: seq<Event>, b: int, n: int) {
    forall m :: 0 <= b < m <= n <= |events| ==> Run(events[..m]).status == Staging
  }

  ghost predicate OneAccepted(events: seq<Event>, b: int, i: int, t0: int, t1: int) {
    b < i && StagedAt(events, b, t0) && AcceptedAt(events, i, t0, t1) && StaysStaged(events, b, i)
  }

  ghost predicate TwoAccepted(events: seq<Event>, b: int, i: int, j: int, t0: int, t1: int, t2: int) {
    i < j && OneAccepted(events, b, i, t0, t1) && AcceptedAt(events, j, t1, t2) && StaysStaged(events, b, j)
  }

  /** What the stored row says is backed by the commands that were run. */
  ghost predicate Backed(events: seq<Event>) {
    var s := Run(events);
    && (s.status == Staging ==>
         && (s.passes == 0 || s.passes == 1) && s.lastAccepted.Some? && |s.history| == s.passes
         && (s.passes == 0 ==>
             exists b :: StagedAt(events, b, s.lastAccepted.value) && StaysStaged(events, b, |events|))
         && (s.passes == 1 ==>
              && s.history[0].completeTime == s.lastAccepted.value
              && exists b, i, t0 ::
                   OneAccepted(events, b, i, t0, s.lastAccepted.value) && StaysStaged(events, b, |events|)))
    && (s.status == Published ==>
         && s.passes == 2 && |s.history| == 2
         && exists b, i, j, t0 ::
              TwoAccepted(events, b, i, j, t0, s.history[0].completeTime, s.history[1].completeTime))
  }

  lemma {:induction false} EarlierEvidenceStands(events: seq<Event>, e: Event, b: int, i: int, t0: int, t1: int)
    ensures StagedAt(events, b, t0) ==> StagedAt(events + [e], b, t0)
    ensures AcceptedAt(events, i, t0, t1) ==> AcceptedAt(events + [e], i, t0, t1)
  {
    var more := events + [e];
    assert 0 <= b < |events| ==> more[..b + 1] == events[..b + 1] && more[..b] == events[..b] && more[b] == events[b];
    assert 0 <= i < |events| ==> more[..i] == events[..i] && more[i] == events[i];
  }

  /** One more command that leaves the candidate on staging continues the stay; it never shortens an earlier one. */
  lemma {:induction false} StayContinues(events: seq<Event>, e: Event, b: int, n: int)
    requires StaysStaged(events, b, n) && n <= |events|
    ensures StaysStaged(events + [e], b, n)
    ensures n == |events| && Run(events + [e]).status == Staging ==> StaysStaged(events + [e], b, n + 1)
  {
    var more := events + [e];
    forall m | 0 <= b < m <= n ensures Run(more[..m]).status == Staging {
      assert more[..m] == events[..m];
    }
    assert more[..|more|] == more;
  }

  predicate SameRecord(s: State, t: State) {
    s.status == t.status && s.passes == t.passes && s.lastAccepted == t.lastAccepted && s.history == t.history
  }

  lemma {:induction false} UnchangedStaysBacked(events: seq<Event>, e: Event)
    requires Backed(events) && SameRecord(Run(events), Run(events + [e]))
    ensures Backed(events + [e])
  {
    var s := Run(events);
    if s.status == Staging && s.passes == 0 {
      var b :| StagedAt(events, b, s.lastAccepted.value) && StaysStaged(events, b, |events|);
      EarlierEvidenceStands(events, e, b, 0, s.lastAccepted.value, 0);
      StayContinues(events, e, b, |events|);
    } else if s.status == Staging {
      var b, i, t0 :| OneAccepted(events, b, i, t0, s.lastAccepted.value) && StaysStaged(events, b, |events|);
      OneAcceptedStands(events, e, b, i, t0, s.lastAccepted.value);
      StayContinues(events, e, b, |events|);
    } else if s.status == Published {
      var t1, t2 := s.history[0].completeTime, s.history[1].completeTime;
      var b, i, j, t0 :| TwoAccepted(events, b, i, j, t0, t1, t2);
      OneAcceptedStands(events, e, b, i, t0, t1);
      EarlierEvidenceStands(events, e, b, j, t1, t2);
      StayContinues(events, e, b, j);
      assert TwoAccepted(events + [e], b, i, j, t0, t1, t2);
    }
  }

  lemma {:induction false} OneAcceptedStands(events: seq<Event>, e: Event, b: int, i: int, t0: int, t1: int)
    requires OneAccepted(events, b, i, t0, t1)
    ensures OneAccepted(events + [e], b, i, t0, t1)
  {
    EarlierEvidenceStands(events, e, b, i, t0, t1);
    StayContinues(events, e, b, i);
  }

  lemma {:induction false} RunOfAppend(events: seq<Event>, e: Event)
    ensures Run(events + [e]) == Step(Run(events), e)
  {
  }

  lemma {:induction false} StagingIsBacked(events: seq<Event>, e: Event)
    requires var s := Run(events + [e]);
      && s.status == Staging && s.passes == 0 && s.history == [] && s.lastAccepted.Some?
      && PassesAGate(e, s.lastAccepted.value)
    requires Run(events).status != Staging && Run(events).status != Published
    ensures Backed(events + [e])
  {
    var more := events + [e];
    assert more[..|events| + 1] == more && more[..|events|] == events;
    assert StagedAt(more, |events|, Run(more).lastAccepted.value);
    assert StaysStaged(more, |events|, |more|);
  }

  lemma {:induction false} AcceptanceIsRecorded(events: seq<Event>, run: NormalRun)
    requires AfterAccept(Run(events), run).1 == Done
    ensures var s := Run(events);
      && s.lastAccepted.Some? && run.watermarkAfter.Some?
      && AcceptedAt(events + [Accept(run)], |events|, s.lastAccepted.value, run.watermarkAfter.value)
  {
  }

  lemma {:induction false} FirstAcceptanceIsBacked(events: seq<Event>, run: NormalRun)
    requires Backed(events) && AfterAccept(Run(events), run).1 == Done && Run(events).passes == 0
    ensures Backed(events + [Accept(run)])
  {
    var s, e := Run(events), Accept(run);
    RunOfAppend(events, e);
    AcceptanceIsRecorded(events, run);
    var b :| StagedAt(events, b, s.lastAccepted.value) && StaysStaged(events, b, |events|);
    EarlierEvidenceStands(events, e, b, 0, s.lastAccepted.value, 0);
    StayContinues(events, e, b, |events|);
    assert OneAccepted(events + [e], b, |events|, s.lastAccepted.value, run.watermarkAfter.value);
  }

  lemma {:induction false} SecondAcceptancePublishes(s: State, run: NormalRun)
    requires AfterAccept(s, run).1 == Done && s.passes == 1 && |s.history| == 1
    ensures var next := AfterAccept(s, run).0;
      && next.status == Published && next.passes == 2 && |next.history| == 2
      && next.history[0] == s.history[0]
      && next.history[1].completeTime == run.watermarkAfter.value
  {
  }

  lemma {:induction false} SecondAcceptanceIsBacked(events: seq<Event>, run: NormalRun)
    requires Backed(events) && AfterAccept(Run(events), run).1 == Done && Run(events).passes == 1
    ensures Backed(events + [Accept(run)])
  {
    var s, e := Run(events), Accept(run);
    AcceptanceIsRecorded(events, run);
    SecondAcceptancePublishes(s, run);
    var b, i, t0 := LastStaging(events);
    OneAcceptedStands(events, e, b, i, t0, s.lastAccepted.value);
    StayContinues(events, e, b, |events|);
    RunOfAppend(events, e);
    PublishedIsBacked(events + [e], b, i, |events|, t0, s.lastAccepted.value, run.watermarkAfter.value);
  }

  lemma {:induction false} LastStaging(events: seq<Event>) returns (b: int, i: int, t0: int)
    requires Backed(events) && Run(events).status == Staging && Run(events).passes == 1
    ensures OneAccepted(events, b, i, t0, Run(events).lastAccepted.value) && StaysStaged(events, b, |events|)
  {
    b, i, t0 :| OneAccepted(events, b, i, t0, Run(events).lastAccepted.value) && StaysStaged(events, b, |events|);
  }

  lemma {:induction false} PublishedIsBacked(events: seq<Event>, b: int, i: int, j: int, t0: int, t1: int, t2: int)
    requires var s := Run(events);
      && s.status == Published && s.passes == 2 && |s.history| == 2
      && s.history[0].completeTime == t1 && s.history[1].completeTime == t2
    requires i < j && OneAccepted(events, b, i, t0, t1) && AcceptedAt(events, j, t1, t2) && StaysStaged(events, b, j)
    ensures Backed(events)
  {
    assert TwoAccepted(events, b, i, j, t0, t1, t2);
  }

  lemma {:induction false} OnboardingIsBacked(events: seq<Event>, runId: int, o: Onboarding)
    ensures Backed(events + [Onboard(runId, o)])
  {
    hide AfterOnboard, Run;
    var s, e := Run(events), Onboard(runId, o);
    RunOfAppend(events, e);
    OnboardingStagesOrBlocks(s, runId, o);
    if Run(events + [e]).status == Staging {
      NotStagedBefore(events);
      StagingIsBacked(events, e);
    }
  }

  lemma {:induction false} NotStagedBefore(events: seq<Event>)
    requires !Run(events).onboarded
    ensures Run(events).status != Staging && Run(events).status != Published
  {
    if Run(events).status == Staging || Run(events).status == Published {
      OnboardedOnceStaged(events);
    }
  }

  lemma {:induction false} BackedStep(events: seq<Event>, e: Event)
    requires Backed(events)
    ensures Backed(events + [e])
  {
    RunOfAppend(events, e);
    var s, next := Run(events), Run(events + [e]);
    if SameRecord(s, next) {
      UnchangedStaysBacked(events, e);
    } else {
      match e
      case Onboard(runId, o) =>
        OnboardingIsBacked(events, runId, o);
      case Finalize(runId, f) =>
        FinalizingStagesOrKeeps(s, runId, f);
        StagingIsBacked(events, e);
      case Accept(run) =>
        if AfterAccept(s, run).1 == Done {
          if s.passes == 0 { FirstAcceptanceIsBacked(events, run); } else { SecondAcceptanceIsBacked(events, run); }
        }
    }
  }

  lemma {:induction false} EveryRunIsBacked(events: seq<Event>)
    ensures Backed(events)
  {
    if events != [] {
      var n := |events| - 1;
      EveryRunIsBacked(events[..n]);
      BackedStep(events[..n], events[n]);
      assert events[..n] + [events[n]] == events;
    }
  }

  /**
   A candidate is PUBLISHED only after it was staged with some baseline and two later normal runs passed,
   each reaching a strictly later complete time than the one before. A gate passed when it was staged. In between it
   never left staging: no run failed and it was not onboarded or staged anew. Its history names exactly those runs.
   */
  lemma {:induction false} PublishedMeansTwoAcceptedRuns(events: seq<Event>) returns (b: int, i: int, j: int,
      baseline: int)
    requires Run(events).status == Published
    ensures var h := Run(events).history;
      && Run(events).passes == 2 && |h| == 2
      && 0 <= b < i < j < |events|
      && StagedAt(events, b, baseline)
      && AcceptedAt(events, i, baseline, h[0].completeTime)
      && AcceptedAt(events, j, h[0].completeTime, h[1].completeTime)
      && baseline < h[0].completeTime < h[1].completeTime
      && (forall m :: b < m <= j ==> Run(events[..m]).status == Staging)
      && (forall m :: b < m < j && events[m].Accept? ==> events[m].run.pass)
      && (forall m :: b < m < j ==> !events[m].Onboard?)
  {
    EveryRunIsBacked(events);
    var h := Run(events).history;
    b, i, j, baseline :| TwoAccepted(events, b, i, j, baseline, h[0].completeTime, h[1].completeTime);
    forall m | b < m < j ensures (events[m].Accept? ==> events[m].run.pass) && !events[m].Onboard? {
      StagedStaysOn(events, m);
    }
  }

  /** A command that leaves a staged candidate staged is no onboarding and no failed run. */
  lemma {:induction false} StagedStaysOn(events: seq<Event>, m: nat)
    requires m < |events| && Run(events[..m]).status == Staging && Run(events[..m + 1]).status == Staging
    ensures events[m].Accept? ==> events[m].run.pass
    ensures !events[m].Onboard?
  {
    hide Run;
    var s, e := Run(events[..m]), events[m];
    assert events[..m + 1] == events[..m] + [e];
    RunOfAppend(events[..m], e);
    OnboardedOnceStaged(events[..m]);
    EveryRunIsBacked(events[..m]);
    LeavesStaging(s, e);
  }

  lemma {:induction false} LeavesStaging(s: State, e: Event)
    requires s.status == Staging && s.onboarded && s.lastAccepted.Some?
    ensures e.Onboard? || (e.Accept? && !e.run.pass) ==> Step(s, e).status == Blocked
  {
  }

  // ---- What each command can do ----

  /** An acceptance that finds what it needs: a passing run that moved the complete time on. */
  predicate Advances(s: State, run: NormalRun) {
    && run.pass && s.lastAccepted.Some? && run.watermarkAfter.Some?
    && s.lastAccepted.value < run.watermarkAfter.value
  }

  /** A failed run takes a staged candidate off staging, clears its counter and keeps its baseline and history. */
  lemma {:induction false} FailedRunBlocks(events: seq<Event>, run: NormalRun)
    requires Run(events).status == Staging && !run.pass
    ensures var s, after := Run(events), Run(events + [Accept(run)]);
      && after.status == Blocked && after.passes == 0 && after.lastRun == Some(run.runId)
      && after.lastAccepted == s.lastAccepted && after.history == s.history && after.onboarded == s.onboarded
    ensures AfterAccept(Run(events), run).1 == RunFailed
  {
    EveryRunIsBacked(events);
    RunOfAppend(events, Accept(run));
  }

  /** A run that does not advance a staged candidate changes nothing; one that does is counted. */
  lemma {:induction false} AdvancingRunCounts(events: seq<Event>, run: NormalRun)
    requires Run(events).status == Staging && run.pass
    ensures var s, after := Run(events), Run(events + [Accept(run)]);
      && s.lastAccepted.Some?
      && (Advances(s, run) <==> AfterAccept(s, run).1 == Done) && (!Advances(s, run) ==> after == s)
      && (!Advances(s, run) <==> AfterAccept(s, run).1 == NotAdvanced)
      && (Advances(s, run) ==>
            && after.passes == s.passes + 1 && after.lastAccepted == run.watermarkAfter
            && after.history == s.history + [Acceptance(run.runId, run.watermarkAfter.value)]
            && after.lastRun == Some(run.runId) && after.onboarded == s.onboarded
            && (after.status == Published <==> s.passes == 1) && (after.status == Staging <==> s.passes == 0))
  {
    EveryRunIsBacked(events);
    AcceptanceNeverDisagreesWithItself(events, run);
    RunOfAppend(events, Accept(run));
  }

  /** Where no acceptance is due it changes nothing, and says so. */
  lemma {:induction false} IdleAcceptance(events: seq<Event>, run: NormalRun)
    requires Run(events).status != Staging
    ensures Run(events + [Accept(run)]) == Run(events)
    ensures AfterAccept(Run(events), run).1 == if Run(events).status == Published then Idempotent else NotStaging
  {
    EveryRunIsBacked(events);
    RunOfAppend(events, Accept(run));
  }

  /** An onboarding stages a candidate exactly when it has no watermark and its gate passes with a complete time. */
  lemma {:induction false} OnboardingStagesOrBlocks(s: State, runId: int, o: Onboarding)
    ensures var after := AfterOnboard(s, runId, o);
      && after.passes == 0 && after.lastRun == Some(runId)
      && (after.status == Staging <==> !s.onboarded && exists t :: PassesAGate(Onboard(runId, o), t))
      && (after.status == Blocked <==> after.status != Staging)
      && (s.onboarded ==> after == s.(status := Blocked, passes := 0, lastRun := Some(runId)))
      && (after.onboarded <==> s.onboarded || o.Gated? || o.committed)
      && (forall t :: !s.onboarded && PassesAGate(Onboard(runId, o), t) ==>
            after.lastAccepted == Some(t) && after.history == [])
      && (after.status == Blocked && !s.onboarded ==>
            && after.lastAccepted == (if o.Gated? && o.latest.Some? then o.latest else s.lastAccepted)
            && after.history == (if o.Gated? && o.metadata then [] else s.history))
  {
    if !s.onboarded && o.Gated? && o.pass && o.latest.Some? {
      assert PassesAGate(Onboard(runId, o), o.latest.value);
    }
  }

  /** Until a command changes it, the row is as it was created: no run, no time, no history. */
  lemma {:induction false} CandidateIsUntouched(events: seq<Event>)
    requires Run(events).status == Candidate
    ensures Run(events) == State(Candidate, 0, None, [], None, false)
  {
    if events != [] {
      var n := |events| - 1;
      StaysCandidate(Run(events[..n]), events[n]);
      CandidateIsUntouched(events[..n]);
    }
  }

  lemma {:induction false} StaysCandidate(s: State, e: Event)
    requires Step(s, e).status == Candidate
    ensures s.status == Candidate && Step(s, e) == s
  {
  }

  /** The row acceptance finds may be older than its history: any row, and why the command raises on it. */
  lemma {:induction false} AcceptanceOfAnyRow(s: State, run: NormalRun)
    ensures var answer := AfterAccept(s, run).1;
      && (answer == Idempotent <==> s.status == Published && s.passes == 2)
      && (answer == NotStaging <==> s.status != Staging && !(s.status == Published && s.passes == 2))
      && (answer == BaselineMissing <==> s.status == Staging && s.lastAccepted.None?)
      && (answer == RunFailed <==> s.status == Staging && s.lastAccepted.Some? && !run.pass)
      && (answer == CounterInvalid <==> s.status == Staging && Advances(s, run) && s.passes != 0 && s.passes != 1)
      && (answer in {CounterInvalid, HistoryInvalid, BaselineMissing, NotAdvanced, NotStaging, Idempotent} ==>
            AfterAccept(s, run).0 == s)
  {
  }

  /** A staged row that carries only the counter of its first run gets that run's entry when the second is accepted. */
  lemma {:induction false} OlderRowIsCompleted(s: State, run: NormalRun)
    requires s.status == Staging && s.passes == 1 && s.history == [] && Advances(s, run)
    ensures var after := AfterAccept(s, run).0;
      && after.status == Published && |after.history| == 2
      && after.history[0] == Acceptance(s.lastRun.GetOr(0), s.lastAccepted.value)
      && after.history[1] == Acceptance(run.runId, run.watermarkAfter.value)
  {
    TwoTimes(Acceptance(s.lastRun.GetOr(0), s.lastAccepted.value),
      Acceptance(run.runId, run.watermarkAfter.value));
  }

  /** A staged row whose counter and history do not fit is left alone. */
  lemma {:induction false} MisfitHistoryIsRefused(s: State, run: NormalRun)
    requires s.status == Staging && (s.passes == 0 || s.passes == 1) && Advances(s, run)
    requires |s.history| != s.passes && !(s.history == [] && s.passes == 1)
    ensures AfterAccept(s, run) == (s, HistoryInvalid)
  {
  }

  /** Finalising stages a candidate that is neither staged nor published when its gate passes, and else does nothing. */
  lemma {:induction false} FinalizingStagesOrKeeps(s: State, runId: int, f: Finalization)
    ensures var after := AfterFinalize(s, runId, f);
      if s.status != Staging && s.status != Published && f.Regated? && f.pass
      then
        && PassesAGate(Finalize(runId, f), f.latestComplete)
        && after.status == Staging && after.passes == 0 && after.history == [] && after.onboarded
        && after.lastAccepted == Some(f.latestComplete) && after.lastRun == Some(runId)
      else after == s
  {
  }

  /** From a fresh row the counter and history errors can never be raised. */
  lemma {:induction false} AcceptanceNeverDisagreesWithItself(events: seq<Event>, run: NormalRun)
    ensures AfterAccept(Run(events), run).1 != CounterInvalid
    ensures AfterAccept(Run(events), run).1 != HistoryInvalid
    ensures AfterAccept(Run(events), run).1 != BaselineMissing
  {
    EveryRunIsBacked(events);
    var s := Run(events);
    if s.status == Staging && run.watermarkAfter.Some? && s.lastAccepted.value < run.watermarkAfter.value {
      var next := Acceptance(run.runId, run.watermarkAfter.value);
      if s.passes == 0 {
        OneTime(next);
      } else {
        TwoTimes(s.history[0], next);
        assert s.history == [s.history[0]];
      }
    }
  }

  lemma {:induction false} OneTime(a: Acceptance)
    ensures [] + [a] == [a]
    ensures |set x | x in [a] :: x.completeTime| == 1
  {
    assert (set x | x in [a] :: x.completeTime) == {a.completeTime};
  }

  lemma {:induction false} TwoTimes(a: Acceptance, b: Acceptance)
    requires a.completeTime != b.completeTime
    ensures |set x | x in [a] + [b] :: x.completeTime| == 2
  {
    var both := [a] + [b];
    assert both[0] == a && both[1] == b;
    assert (set x | x in both :: x.completeTime) == {a.completeTime, b.completeTime};
  }

  /** Onboarding a candidate a second time takes it off publication, whatever state it was in. */
  lemma {:induction false} OnboardingTwiceBlocks(events: seq<Event>, runId: int, o: Onboarding)
    requires Run(events).status == Staging || Run(events).status == Published
    ensures Run(events + [Onboard(runId, o)]).status == Blocked
  {
    OnboardedOnceStaged(events);
    RunOfAppend(events, Onboard(runId, o));
  }

  lemma {:induction false} OnboardedOnceStaged(events: seq<Event>)
    requires Run(events).status == Staging || Run(events).status == Published
    ensures Run(events).onboarded
  {
    if events != [] {
      var n := |events| - 1;
      if Run(events[..n]).status == Staging || Run(events[..n]).status == Published {
        OnboardedOnceStaged(events[..n]);
      }
    }
  }

  // ---- The stored row itself ----

  class Row {
    var status: Status
    var passes: int
    var lastAccepted: Option<int>
    var history: seq<Acceptance>
    var lastRun: Option<int>
    var onboarded: bool

    function Current(): State
      reads this
    {
      State(status, passes, lastAccepted, history, lastRun, onboarded)
    }

    constructor ()
      ensures Current() == FRESH
    {
      status, passes, lastAccepted, history, lastRun, onboarded := Candidate, 0, None, [], None, false;
    }

    /** `_update_publication`: NULL arguments keep the stored counter, time and metadata. */
    method Update(newStatus: Status, runId: int, newPasses: int, accepted: Option<int>,
        metadata: Option<seq<Acceptance>>)
      modifies this
      ensures Current() == State(newStatus, newPasses, Coalesce(accepted, old(lastAccepted)),
        Coalesce(metadata, Some(old(history))).value, Some(runId), old(onboarded))
    {
      status := newStatus;
      lastRun := Some(runId);
      passes := newPasses;
      if accepted.Some? {
        lastAccepted := accepted;
      }
      if metadata.Some? {
        history := metadata.value;
      }
    }

    method RunOnboarding(runId: int, o: Onboarding)
      modifies this
      ensures Current() == AfterOnboard(old(Current()), runId, o)
    {
      if onboarded {
        Update(Blocked, runId, 0, None, None);
        return;
      }
      match o
      case Raised(committed) =>
        onboarded := committed;
        Update(Blocked, runId, 0, None, None);
      case Gated(pass, latest, metadata) =>
        onboarded := true;
        if pass && latest.Some? {
          Update(Staging, runId, 0, latest, Some([]));
        } else {
          Update(Blocked, runId, 0, latest, if metadata then Some([]) else None);
        }
    }

    method FinalizeOnboarding(runId: int, f: Finalization)
      modifies this
      ensures Current() == AfterFinalize(old(Current()), runId, f)
    {
      if status == Staging || status == Published {
        return;
      }
      match f
      case StateMismatch =>
      case Regated(pass, latest) =>
        if pass {
          onboarded := true;
          Update(Staging, runId, 0, Some(latest), Some([]));
        }
    }

    method RunAcceptance(run: NormalRun) returns (answer: Answer)
      modifies this
      ensures Current() == AfterAccept(old(Current()), run).0
      ensures answer == AfterAccept(old(Current()), run).1
    {
      if status == Published && passes == 2 {
        return Idempotent;
      }
      if status != Staging {
        return NotStaging;
      }
      if lastAccepted.None? {
        return BaselineMissing;
      }
      var previousComplete := lastAccepted.value;
      if !run.pass {
        Update(Blocked, run.runId, 0, None, None);
        return RunFailed;
      }
      var observed := run.watermarkAfter;
      if observed.None? || observed.value <= previousComplete {
        return NotAdvanced;
      }
      var consecutive := passes + 1;
      if consecutive != 1 && consecutive != 2 {
        return CounterInvalid;
      }
      var accepted := history;
      if accepted == [] && passes == 1 {
        accepted := [Acceptance(lastRun.GetOr(0), previousComplete)];
      }
      accepted := accepted + [Acceptance(run.runId, observed.value)];
      if |accepted| != consecutive || |set a | a in accepted :: a.completeTime| != consecutive {
        return HistoryInvalid;
      }
      Update(if consecutive == 2 then Published else Staging, run.runId, consecutive, observed, Some(accepted));
      answer := Done;
    }
  }
}
