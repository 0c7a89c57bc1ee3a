/** Daemon runs in which two lanes of one instrument take turns. */
module RivalRuns {
  import opened ContentionLaws
  import opened RetryLaws
  import opened Scheduler
  import opened SchedulerLaws
  import opened Types
  import BlockerLaws
  import RestartLaws

  const CRASHED := RestartLaws.CRASHED
  const LATE := Outcome(false, NOT_READY, "data_not_ready", None)
  const PASS := Outcome(true, "", "", None)

  /**
   Two lanes of one instrument: the lane of `s`, and that of its rivals. Rivals always end in an unexpected exception;
   `s` does so at some times and is late at the others. At one time whatever runs passes. No watermark moves.
   */
  datatype Scene = Scene(own: seq<Slot>, rivals: seq<Slot>, s: Slot, crashes: int -> bool, passing: int) {
    function Slots(): seq<Slot> { own + rivals }

    function Plan(): set<Slot> { set y | y in Slots() }

    function At(t: int): Poll {
      Poll(t, Slots(), RestartLaws.SameRevision,
        (z: Slot) => if t == passing then PASS else if z == s && !crashes(t) then LATE else CRASHED,
        RestartLaws.SameRevision)
    }

    /** One poll every fifteen seconds. */
    function Polls(start: int, n: nat): seq<Poll> { seq(n, (j: int) => At(start + POLL_SECONDS * j)) }

    ghost predicate Fits() {
      && s in own && OneKey(s) && Distinct(Plan())
      && (forall y :: y in own ==> SameLane(y, s))
      && (forall y :: y in rivals ==> y.keys == s.keys && y.kind != s.kind)
      && (forall y, z :: y in rivals && z in rivals ==> SameLane(y, z))
    }
  }

  // ---- The candidates ----

  /** The candidate of one lane. */
  function Front(lane: seq<Slot>, now: int, completed: set<string>): Option<Slot> {
    var l := LatestPerLane(lane, now, completed);
    if l == [] then None else Some(l[0])
  }

  ghost predicate OneLane(lane: seq<Slot>) { forall y, z :: y in lane && z in lane ==> SameLane(y, z) }

  lemma {:induction false} FrontIs(lane: seq<Slot>, now: int, completed: set<string>)
    requires OneLane(lane)
    ensures var l := LatestPerLane(lane, now, completed); l == if l == [] then [] else [l[0]]
    ensures var front := Front(lane, now, completed);
      if front.Some? then
        && front.value in lane && Eligible(front.value, now, completed)
        && forall y :: y in lane && Eligible(y, now, completed) ==> y.due <= front.value.due
      else forall y :: y in lane ==> !Eligible(y, now, completed)
  {
    hide Eligible, LatestPerLane;
    LatestLeads(lane, now, completed);
    FrontLeads(lane, LatestPerLane(lane, now, completed), Offered(lane, now, completed));
  }

  lemma {:induction false} FrontLeads(lane: seq<Slot>, l: seq<Slot>, offered: set<Slot>)
    requires OneLane(lane) && Leads(l, offered) && OneALane(l) && forall y :: y in offered ==> y in lane
    ensures |l| <= 1 && forall y :: y in offered ==> l != [] && y.due <= l[0].due
    ensures l != [] ==> l[0] in offered
  {
    if |l| >= 2 { TwoShareALane(lane, l); }
    forall y | y in offered ensures l != [] && y.due <= l[0].due {
      assert Led(l, y);
      var c :| c in l && Leader(c, y);
    }
  }

  lemma {:induction false} TwoShareALane(lane: seq<Slot>, l: seq<Slot>)
    requires OneLane(lane) && |l| >= 2 && forall c :: c in l ==> c in lane
    ensures !OneALane(l)
  {
    assert l[0] in l && l[1] in l;
    assert SameLane(l[0], l[1]);
  }

  /** The latest offered slot of a lane is its front. */
  lemma {:induction false} FrontOf(plan: set<Slot>, lane: seq<Slot>, now: int, completed: set<string>, y: Slot)
    requires OneLane(lane) && Distinct(plan) && (forall z :: z in lane ==> z in plan)
    requires y in lane && Eligible(y, now, completed)
    requires forall z :: z in lane && Eligible(z, now, completed) ==> z.due <= y.due
    ensures Front(lane, now, completed) == Some(y)
  {
    hide Eligible;
    FrontIs(lane, now, completed);
  }

  function InLine(a: Option<Slot>, b: Option<Slot>): seq<Slot> {
    if a.None? then if b.None? then [] else [b.value]
    else if b.None? then [a.value]
    else if b.value.due < a.value.due then [b.value, a.value]
    else [a.value, b.value]
  }

  lemma {:induction false} PutBehind(front: seq<Slot>, rest: seq<Slot>, y: Slot)
    requires |front| <= 1 && forall z :: z in front ==> !SameLane(z, y)
    ensures PutLane(front + rest, y) == front + PutLane(rest, y)
  {
    if front != [] {
      assert (front + rest)[0] == front[0] && (front + rest)[1..] == rest;
    } else {
      assert front + rest == rest;
    }
  }

  lemma {:induction false} LanesApart(own: seq<Slot>, rivals: seq<Slot>, now: int, completed: set<string>)
    requires |LatestPerLane(own, now, completed)| <= 1
    requires forall z, y :: z in LatestPerLane(own, now, completed) && y in rivals ==> !SameLane(z, y)
    ensures LatestPerLane(own + rivals, now, completed)
      == LatestPerLane(own, now, completed) + LatestPerLane(rivals, now, completed)
  {
    hide PutLane, Eligible;
    if rivals == [] {
      assert own + rivals == own;
    } else {
      var n := |rivals| - 1;
      assert (own + rivals)[..|own + rivals| - 1] == own + rivals[..n];
      LanesApart(own, rivals[..n], now, completed);
      PutBehind(LatestPerLane(own, now, completed), LatestPerLane(rivals[..n], now, completed), rivals[n]);
    }
  }

  lemma {:induction false} CandidatesAre(sc: Scene, now: int, completed: set<string>)
    requires sc.Fits()
    ensures Candidates(sc.Slots(), now, completed)
      == InLine(Front(sc.own, now, completed), Front(sc.rivals, now, completed))
  {
    hide LatestPerLane;
    var a, b := LatestPerLane(sc.own, now, completed), LatestPerLane(sc.rivals, now, completed);
    FrontIs(sc.own, now, completed);
    FrontIs(sc.rivals, now, completed);
    LanesApart(sc.own, sc.rivals, now, completed);
    SortTwo(Front(sc.own, now, completed), Front(sc.rivals, now, completed));
  }

  lemma {:induction false} SortTwo(a: Option<Slot>, b: Option<Slot>)
    ensures ByDue((if a.None? then [] else [a.value]) + (if b.None? then [] else [b.value])) == InLine(a, b)
  {
    assert ByDue([]) == [];
    if a.Some? {
      assert [a.value][..0] == [];
      assert ByDue([a.value]) == [a.value];
      if b.Some? {
        assert [a.value] + [b.value] == [a.value, b.value];
        assert [a.value, b.value][..1] == [a.value];
        assert [a.value][..0] == [];
      }
    }
    if b.Some? {
      assert [] + [b.value] == [b.value];
      assert [b.value][..0] == [];
      assert ByDue([b.value]) == [b.value];
    }
  }

  // ---- Walking past a single blocker ----

  function CrashBlocker(z: Slot): Blocker { NewBlocker(z, CRASHED, CRASHED.code, "r") }

  function Blocked(z: Option<Slot>): seq<Blocker> { if z.None? then [] else [CrashBlocker(z.value)] }

  lemma {:induction false} CrashBlocks(z: Slot, c: Slot)
    requires z.keys == c.keys && z.keys != {} && (z.id == c.id <==> z == c)
    ensures var b := CrashBlocker(z);
      && Concerns(b, c) && IsCurrent(b, RestartLaws.SameRevision) && (StillApplies(b, c, "r") <==> z == c)
  {
    hide ErrorDomain;
    RestartLaws.CodesDiffer();
    var k :| k in z.keys;
    assert k in z.keys * c.keys;
  }

  lemma {:induction false} ExamineLone(z: Slot, c: Slot)
    requires z.keys == c.keys && z.keys != {} && (z.id == c.id <==> z == c)
    ensures var r := Examine([CrashBlocker(z)], c, RestartLaws.SameRevision);
      r == if z == c then Examined([CrashBlocker(z)], true) else Examined([], false)
    ensures Examine([], c, RestartLaws.SameRevision) == Examined([], false)
    ensures Swept([CrashBlocker(z)], RestartLaws.SameRevision) == [CrashBlocker(z)]
  {
    hide NewBlocker, StillApplies, IsCurrent, Concerns;
    CrashBlocks(z, c);
    assert [CrashBlocker(z)][1..] == [];
    assert Swept([], RestartLaws.SameRevision) == [];
  }

  datatype Walked = Walked(blocker: Option<Slot>, slot: Option<Slot>)

  /** A slot stops at its own blocker and drops one of another slot; then it runs unless it waits. */
  function Walk(blocker: Option<Slot>, candidates: seq<Slot>, nextAttempt: map<string, int>, now: int): Walked
    decreases |candidates|
  {
    if candidates == [] then Walked(blocker, None)
    else if blocker == Some(candidates[0]) then Walk(blocker, candidates[1..], nextAttempt, now)
    else if MayAttempt(nextAttempt, candidates[0], now) then Walked(None, Some(candidates[0]))
    else Walk(None, candidates[1..], nextAttempt, now)
  }

  ghost predicate OfOne(plan: set<Slot>, keys: set<string>) {
    keys != {} && Distinct(plan) && forall y :: y in plan ==> y.keys == keys
  }

  lemma {:induction false} SelectWalks(plan: set<Slot>, keys: set<string>, blocker: Option<Slot>,
      candidates: seq<Slot>, nextAttempt: map<string, int>, now: int)
    requires OfOne(plan, keys) && (forall c :: c in candidates ==> c in plan)
    requires blocker.Some? ==> blocker.value in plan
    ensures Select(Blocked(blocker), candidates, nextAttempt, now, RestartLaws.SameRevision)
      == var w := Walk(blocker, candidates, nextAttempt, now); Selection(Blocked(w.blocker), w.slot)
    decreases |candidates|
  {
    if candidates != [] {
      hide Examine, NewBlocker, MayAttempt, Swept;
      var c := candidates[0];
      ExamineLone(if blocker.Some? then blocker.value else c, c);
      SelectWalks(plan, keys, blocker, candidates[1..], nextAttempt, now);
      SelectWalks(plan, keys, None, candidates[1..], nextAttempt, now);
    }
  }

  // ---- One poll ----

  /** The daemon in a scene: at most one blocker, no rival waiting, neither `s` nor a rival completed. */
  ghost predicate Stands(sc: Scene, d: Daemon, blocker: Option<Slot>) {
    && d.blockers == Blocked(blocker) && (blocker.Some? ==> blocker.value in sc.Plan())
    && sc.s.id !in d.completed
    && forall y :: y in sc.rivals ==> y.id !in d.completed && y.id !in d.nextAttempt
  }

  function AfterCrash(d: Daemon, z: Slot): Daemon {
    d.(nextAttempt := d.nextAttempt - {z.id}, attempts := d.attempts - {z.id}, blockers := [CrashBlocker(z)])
  }

  function AfterLate(d: Daemon, s: Slot, now: int): Daemon {
    d.(attempts := d.attempts[s.id := AttemptsOf(d, s.id) + 1], nextAttempt :=
        d.nextAttempt[s.id := now + RETRY_SECONDS],
       blockers := [])
  }

  lemma {:induction false} PlanIsOfOne(sc: Scene)
    requires sc.Fits()
    ensures OfOne(sc.Plan(), sc.s.keys) && OneLane(sc.own) && OneLane(sc.rivals)
    ensures forall y :: y in sc.own || y in sc.rivals ==> y in sc.Plan()
  {
  }

  lemma {:induction false} ChoiceWalks(sc: Scene, d: Daemon, blocker: Option<Slot>, t: int)
    requires sc.Fits() && d.blockers == Blocked(blocker) && (blocker.Some? ==> blocker.value in sc.Plan())
    ensures var line := InLine(Front(sc.own, t, d.completed), Front(sc.rivals, t, d.completed));
      Choice(d, sc.At(t)) == var w := Walk(blocker, line, d.nextAttempt, t); Selection(Blocked(w.blocker), w.slot)
  {
    hide Candidates, Select, NewBlocker, Walk, Front, Distinct;
    PlanIsOfOne(sc);
    CandidatesAre(sc, t, d.completed);
    FrontIs(sc.own, t, d.completed);
    FrontIs(sc.rivals, t, d.completed);
    SelectWalks(sc.Plan(), sc.s.keys, blocker, Candidates(sc.Slots(), t, d.completed), d.nextAttempt, t);
    if blocker.Some? {
      ExamineLone(blocker.value, blocker.value);
    } else {
      assert Swept([], RestartLaws.SameRevision) == [];
    }
  }

  lemma {:induction false} NotReadyIsTransient()
    ensures IsTransient(NOT_READY)
  {
  }

  /** What a poll does once its choice is known. */
  lemma {:induction false} TickServes(sc: Scene, d: Daemon, t: int, blocker: Option<Slot>, z: Option<Slot>)
    requires Choice(d, sc.At(t)) == Selection(Blocked(blocker), z) && t != sc.passing
    requires z.Some? ==> blocker.None?
    ensures Executed(d, sc.At(t)) == z
    ensures z.None? ==> Tick(d, sc.At(t)) == d.(blockers := Blocked(blocker))
    ensures z.Some? && (z.value != sc.s || sc.crashes(t)) ==> Tick(d, sc.At(t)) == AfterCrash(d, z.value)
    ensures z == Some(sc.s) && !sc.crashes(t) && AttemptsOf(d, sc.s.id) < 3 ==>
      Tick(d, sc.At(t)) == AfterLate(d, sc.s, t)
  {
    hide Choice, ErrorDomain, IsTransient;
    RestartLaws.CrashDomain();
    NotReadyIsTransient();
  }

  // ---- A round: `s`, and then its rival ----

  /** `s` may run: due, inside the catch-up age, and the latest of its lane. */
  ghost predicate Alive(sc: Scene, t: int) { InCatchUp(sc.s, t) && !Overtaken(sc.Plan(), sc.s, t) }

  lemma {:induction false} AliveBetween(sc: Scene, t: int, u: int, v: int)
    requires Alive(sc, v) && sc.s.due <= t <= u <= v
    ensures Alive(sc, u)
  {
  }

  lemma {:induction false} AliveIsFront(sc: Scene, t: int, completed: set<string>)
    requires sc.Fits() && Alive(sc, t) && sc.s.id !in completed
    ensures Front(sc.own, t, completed) == Some(sc.s)
  {
    hide Front, Distinct;
    PlanIsOfOne(sc);
    forall z | z in sc.own && Eligible(z, t, completed) ensures z.due <= sc.s.due {
      assert z in sc.Plan() && SameLane(z, sc.s);
    }
    FrontOf(sc.Plan(), sc.own, t, completed, sc.s);
  }

  /** The rival that is next in its lane. */
  function RivalAt(sc: Scene, t: int): Option<Slot> { Front(sc.rivals, t, {}) }

  lemma {:induction false} RivalFront(sc: Scene, t: int, completed: set<string>)
    requires sc.Fits() && forall y :: y in sc.rivals ==> y.id !in completed
    ensures Front(sc.rivals, t, completed) == RivalAt(sc, t)
  {
    hide Front, Distinct;
    PlanIsOfOne(sc);
    FrontIs(sc.rivals, t, completed);
    FrontIs(sc.rivals, t, {});
    if RivalAt(sc, t).Some? {
      FrontOf(sc.Plan(), sc.rivals, t, completed, RivalAt(sc, t).value);
    }
  }

  predicate IsEarly(sc: Scene, rival: Option<Slot>) { rival.Some? && rival.value.due < sc.s.due }

  /** An early rival that is next now was next at any time since it came due. */
  lemma {:induction false} EarlyRivalStays(sc: Scene, t: int, u: int)
    requires sc.Fits() && t <= u && RivalAt(sc, u).Some? && RivalAt(sc, u).value.due <= t
    ensures RivalAt(sc, t) == RivalAt(sc, u)
  {
    hide Front, Distinct;
    PlanIsOfOne(sc);
    FrontIs(sc.rivals, u, {});
    FrontOf(sc.Plan(), sc.rivals, t, {}, RivalAt(sc, u).value);
  }

  /** `s` is to run at `t`: what is in front of it is stopped by its own blocker. */
  ghost predicate Ready(sc: Scene, d: Daemon, t: int, blocker: Option<Slot>, attempts: int) {
    && Stands(sc, d, blocker) && blocker != Some(sc.s)
    && MayAttempt(d.nextAttempt, sc.s, t) && AttemptsOf(d, sc.s.id) == attempts
    && (IsEarly(sc, RivalAt(sc, t)) ==> blocker == RivalAt(sc, t))
  }

  lemma {:induction false} OwnTurn(sc: Scene, d: Daemon, t: int, blocker: Option<Slot>, attempts: int)
    requires sc.Fits() && Ready(sc, d, t, blocker, attempts) && Alive(sc, t) && t != sc.passing
    ensures Executed(d, sc.At(t)) == Some(sc.s)
    ensures sc.crashes(t) ==> Tick(d, sc.At(t)) == AfterCrash(d, sc.s)
    ensures !sc.crashes(t) && attempts < 3 ==> Tick(d, sc.At(t)) == AfterLate(d, sc.s, t)
  {
    hide Choice, Tick, Executed, Front, Distinct, MayAttempt, NewBlocker;
    AliveIsFront(sc, t, d.completed);
    RivalFront(sc, t, d.completed);
    ChoiceWalks(sc, d, blocker, t);
    TickServes(sc, d, t, None, Some(sc.s));
  }

  /** `s` has just run: it is held by its own blocker, or it waits. */
  ghost predicate HasRun(sc: Scene, d: Daemon, t: int, blocker: Option<Slot>) {
    && Stands(sc, d, blocker)
    && (blocker == Some(sc.s) || (blocker.None? && sc.s.id in d.nextAttempt && t < d.nextAttempt[sc.s.id]))
  }

  lemma {:induction false} RivalTurn(sc: Scene, d: Daemon, t: int, blocker: Option<Slot>)
    requires sc.Fits() && HasRun(sc, d, t, blocker) && Alive(sc, t) && t != sc.passing
    ensures Executed(d, sc.At(t)) == RivalAt(sc, t) != Some(sc.s)
    ensures Tick(d, sc.At(t)) == if RivalAt(sc, t).Some? then AfterCrash(d, RivalAt(sc, t).value) else d
  {
    hide Choice, Tick, Executed, Front, Distinct, NewBlocker;
    AliveIsFront(sc, t, d.completed);
    RivalFront(sc, t, d.completed);
    PlanIsOfOne(sc);
    FrontIs(sc.rivals, t, {});
    ChoiceWalks(sc, d, blocker, t);
    TickServes(sc, d, t, if RivalAt(sc, t).Some? then None else blocker, RivalAt(sc, t));
  }

  lemma {:induction false} IdsDiffer(sc: Scene, y: Slot)
    requires sc.Fits() && y in sc.rivals
    ensures y.id != sc.s.id && y != sc.s && y in sc.Plan() && sc.s in sc.Plan()
  {
  }

  lemma {:induction false} RanOnce(sc: Scene, d: Daemon, t: int, blocker: Option<Slot>, attempts: int)
    requires sc.Fits() && Ready(sc, d, t, blocker, attempts)
    ensures HasRun(sc, AfterCrash(d, sc.s), t + POLL_SECONDS, Some(sc.s))
    ensures AttemptsOf(AfterCrash(d, sc.s), sc.s.id) == 0 && sc.s.id !in AfterCrash(d, sc.s).nextAttempt
    ensures HasRun(sc, AfterLate(d, sc.s, t), t + POLL_SECONDS, None)
    ensures AttemptsOf(AfterLate(d, sc.s, t), sc.s.id) == attempts + 1
    ensures AfterLate(d, sc.s, t).nextAttempt[sc.s.id] == t + RETRY_SECONDS
  {
    hide NewBlocker, Front, Distinct;
    forall y | y in sc.rivals ensures y.id != sc.s.id {
      IdsDiffer(sc, y);
    }
    PlanIsOfOne(sc);
  }

  /** After its rival's turn, or without a rival after a late one, `s` is ready again. */
  lemma {:induction false} ReadyAgain(sc: Scene, d: Daemon, t: int, blocker: Option<Slot>, attempts: int)
    requires sc.Fits() && sc.s.due <= t && HasRun(sc, d, t, blocker)
    requires MayAttempt(d.nextAttempt, sc.s, t + POLL_SECONDS) && AttemptsOf(d, sc.s.id) == attempts
    requires RivalAt(sc, t).None? ==> blocker.None?
    ensures var after := if RivalAt(sc, t).Some? then AfterCrash(d, RivalAt(sc, t).value) else d;
      Ready(sc, after, t + POLL_SECONDS, RivalAt(sc, t), attempts)
  {
    hide NewBlocker, Front, Distinct;
    PlanIsOfOne(sc);
    FrontIs(sc.rivals, t, {});
    if RivalAt(sc, t).Some? {
      IdsDiffer(sc, RivalAt(sc, t).value);
    }
    if IsEarly(sc, RivalAt(sc, t + POLL_SECONDS)) {
      EarlyRivalStays(sc, t, t + POLL_SECONDS);
    }
  }

  /** A round from `t` can be played: after a crash there is a rival, after a late response an attempt is left. */
  predicate CanGo(sc: Scene, t: int, attempts: int) {
    if sc.crashes(t) then RivalAt(sc, t + POLL_SECONDS).Some? else attempts < 3
  }

  lemma {:induction false} Round(sc: Scene, d: Daemon, t: int, blocker: Option<Slot>, attempts: int)
    requires sc.Fits() && Ready(sc, d, t, blocker, attempts) && Alive(sc, t) && Alive(sc, t + POLL_SECONDS)
    requires sc.passing < t && CanGo(sc, t, attempts)
    ensures var d1 := Tick(d, sc.At(t));
      && Executed(d, sc.At(t)) == Some(sc.s) && Executed(d1, sc.At(t + POLL_SECONDS)) != Some(sc.s)
      && Ready(sc, Tick(d1, sc.At(t + POLL_SECONDS)), t + RETRY_SECONDS, RivalAt(sc, t + POLL_SECONDS),
           if sc.crashes(t) then 0 else attempts + 1)
  {
    hide Tick, Executed, Front, NewBlocker, Distinct, AttemptsOf, HasRun, Ready, AfterCrash, AfterLate;
    OwnTurn(sc, d, t, blocker, attempts);
    RanOnce(sc, d, t, blocker, attempts);
    var crash := sc.crashes(t);
    var d1, held := Tick(d, sc.At(t)), if crash then Some(sc.s) else None;
    RivalTurn(sc, d1, t + POLL_SECONDS, held);
    ReadyAgain(sc, d1, t + POLL_SECONDS, held, if crash then 0 else attempts + 1);
  }

  // ---- Rounds ----

  /** Late responses since the last crash, before round `i`. */
  function Streak(sc: Scene, q: int, i: nat): nat {
    if i == 0 || sc.crashes(q + RETRY_SECONDS * (i - 1)) then 0 else Streak(sc, q, i - 1) + 1
  }

  predicate GoesOn(sc: Scene, q: int, i: nat) { CanGo(sc, q + RETRY_SECONDS * i, Streak(sc, q, i)) }

  lemma {:induction false} OneMore(sc: Scene, start: int, n: nat)
    ensures var polls := sc.Polls(start, n + 1);
      && |polls| == n + 1 && polls[..n] == sc.Polls(start, n) && polls[n] == sc.At(start + POLL_SECONDS * n)
      && Run(STARTED, polls) == Tick(Run(STARTED, sc.Polls(start, n)), polls[n])
      && Executions(STARTED, polls, sc.s) == Executions(STARTED, sc.Polls(start, n), sc.s)
           + if Executed(Run(STARTED, sc.Polls(start, n)), polls[n]) == Some(sc.s) then 1 else 0
  {
    hide Tick, Executed;
    assert sc.Polls(start, n + 1)[..n] == sc.Polls(start, n);
  }

  /** `m` polls lead up to `q`, where `s` is ready. */
  ghost predicate LeadsUp(sc: Scene, start: int, m: nat, q: int, blocker: Option<Slot>) {
    && q == start + POLL_SECONDS * m && sc.passing < q && sc.s.due <= q
    && Ready(sc, Run(STARTED, sc.Polls(start, m)), q, blocker, 0)
    && Executions(STARTED, sc.Polls(start, m), sc.s) == 0
  }

  lemma {:induction false} Rounds(sc: Scene, start: int, m: nat, q: int, first: Option<Slot>, n: nat)
      returns (blocker: Option<Slot>)
    requires sc.Fits() && LeadsUp(sc, start, m, q, first) && Alive(sc, q + RETRY_SECONDS * n)
    requires forall i :: 0 <= i < n ==> GoesOn(sc, q, i)
    ensures Ready(sc, Run(STARTED, sc.Polls(start, m + 2 * n)), q + RETRY_SECONDS * n, blocker, Streak(sc, q, n))
    ensures Executions(STARTED, sc.Polls(start, m + 2 * n), sc.s) == n
  {
    hide Tick, Executed, Ready, Front, Executions, Run, Alive, CanGo;
    if n == 0 {
      blocker := first;
    } else {
      var t := q + RETRY_SECONDS * (n - 1);
      AliveBetween(sc, q, t, t + RETRY_SECONDS);
      AliveBetween(sc, q, t + POLL_SECONDS, t + RETRY_SECONDS);
      blocker := Rounds(sc, start, m, q, first, n - 1);
      assert GoesOn(sc, q, n - 1);
      OneMore(sc, start, m + 2 * n - 2);
      OneMore(sc, start, m + 2 * n - 1);
      Round(sc, Run(STARTED, sc.Polls(start, m + 2 * n - 2)), t, blocker, Streak(sc, q, n - 1));
      blocker := RivalAt(sc, t + POLL_SECONDS);
    }
  }

  /** So after `n` rounds and one more turn `s` has run `n + 1` times. */
  lemma {:induction false} RunsSoOften(sc: Scene, start: int, m: nat, q: int, first: Option<Slot>, n: nat)
    requires sc.Fits() && LeadsUp(sc, start, m, q, first) && Alive(sc, q + RETRY_SECONDS * n)
    requires forall i :: 0 <= i < n ==> GoesOn(sc, q, i)
    ensures var polls := sc.Polls(start, m + 2 * n + 1);
      PacedRun(polls, sc.Plan(), sc.s) && Executions(STARTED, polls, sc.s) == n + 1
  {
    hide Tick, Executed, Ready, Front, Executions, Run, Alive, GoesOn, PacedRun;
    var blocker := Rounds(sc, start, m, q, first, n);
    OneMore(sc, start, m + 2 * n);
    var t := q + RETRY_SECONDS * n;
    OwnTurn(sc, Run(STARTED, sc.Polls(start, m + 2 * n)), t, blocker, Streak(sc, q, n));
    ScenesArePaced(sc, start, m + 2 * n + 1);
  }

  // ---- Such a run is a paced run ----

  lemma {:induction false} PutHas(blockers: seq<Blocker>, added: Blocker)
    ensures forall b :: b in PutBlocker(blockers, added) ==> b == added || b in blockers
  {
    if blockers != [] && blockers[0].signature != added.signature {
      PutHas(blockers[1..], added);
    }
  }

  ghost predicate UnderOneRevision(d: Daemon) { forall b :: b in d.blockers ==> b.revision == "r" }

  lemma {:induction false} KeepsOneRevision(d: Daemon, poll: Poll)
    requires UnderOneRevision(d) && poll.before == poll.after == RestartLaws.SameRevision
    ensures UnderOneRevision(Tick(d, poll))
  {
    hide Candidates, Select, Swept, PutBlocker, IsTransient, Affected, ErrorDomain, CompletedThrough, IdsIn;
    var candidates := Candidates(poll.slots, poll.now, d.completed);
    SweptAre(d.blockers, poll.before);
    BlockerLaws.SelectShrinks(Swept(d.blockers, poll.before), candidates, d.nextAttempt, poll.now, poll.before);
    var choice := Choice(d, poll);
    if choice.slot.Some? {
      var s, outcome := choice.slot.value, poll.execute(choice.slot.value);
      PutHas(choice.blockers, NewBlocker(s, outcome, EXHAUSTED + outcome.code, "r"));
      PutHas(choice.blockers, NewBlocker(s, outcome,
          if outcome.code == "" then "SCHEDULED_INCREMENTAL_FAILED" else outcome.code, "r"));
    }
  }

  lemma {:induction false} SceneIsQuiet(sc: Scene, start: int, n: nat)
    ensures UnderOneRevision(Run(STARTED, sc.Polls(start, n)))
  {
    hide Tick;
    if n > 0 {
      SceneIsQuiet(sc, start, n - 1);
      assert sc.Polls(start, n)[..n - 1] == sc.Polls(start, n - 1);
      KeepsOneRevision(Run(STARTED, sc.Polls(start, n - 1)), sc.Polls(start, n)[n - 1]);
    }
  }

  lemma {:induction false} ScenesArePaced(sc: Scene, start: int, n: nat)
    requires sc.Fits()
    ensures PacedRun(sc.Polls(start, n), sc.Plan(), sc.s)
  {
    hide Run, Distinct, Closed;
    var polls := sc.Polls(start, n);
    forall i | 0 <= i < n ensures polls[i] == sc.At(start + POLL_SECONDS * i) && Quiet(Before(STARTED, polls, i),
        polls[i], sc.s)
    {
      SceneIsQuiet(sc, start, i);
      assert polls[..i] == sc.Polls(start, i);
    }
    forall t ensures Shows(sc.Plan(), sc.At(t)) && Honest(sc.At(t)) {
    }
    assert Timeline(sc.Plan(), polls);
    if n > 0 { FreshIsClosed(sc.Plan(), polls[0].now); }
    assert OneInstrumentEach(sc.Plan()) by {
      var k :| sc.s.keys == {k};
      forall y | y in sc.Plan() ensures OneKey(y) {
        assert y.keys == {k};
      }
    }
  }
}
