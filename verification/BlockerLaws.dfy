/** What the stored blockers look like over whole runs, and exactly when one is dropped. */
module BlockerLaws {
  import opened Scheduler
  import opened SchedulerLaws
  import opened Types

  // ---- What a blocker holds back ----

  /**
   A blocker holds back the slots of its instruments while their revision is the one it was recorded under; one of a
   late publication or of the interface holds back its own slot alone.
   */
  lemma {:induction false} AppliesExactly(b: Blocker, s: Slot, revision: string)
    ensures StillApplies(b, s, revision) <==>
      && (b.status == "BLOCKED_OPERATOR_ACTION_REQUIRED" || b.status == "INSTRUMENT_DEGRADED_OPERATOR_ACTION_REQUIRED")
      && (exists k :: k in b.keys && k in s.keys) && b.revision == revision
      && (b.origin == s.id || !(b.code == "RETRY_EXHAUSTED:DATA_NOT_READY" || b.domain == "interface_auth"
          || b.domain == "interface_operational"))
  {
    assert "RETRY_EXHAUSTED:" + "DATA_NOT_READY" == "RETRY_EXHAUSTED:DATA_NOT_READY";
    if k :| k in b.keys && k in s.keys {
      assert k in b.keys * s.keys;
    }
  }

  // ---- At most one blocker an instrument ----

  /** A blocker as the daemon records it. */
  predicate Recorded(b: Blocker) { Signed(b) && b.keys != {} && b.status in ENFORCED }

  ghost predicate Apart(blockers: seq<Blocker>) {
    forall i, j :: 0 <= i < j < |blockers| ==> blockers[i].keys !! blockers[j].keys
  }

  /** Every blocker is as recorded, and no instrument has two. */
  ghost predicate OneAnInstrument(blockers: seq<Blocker>) {
    Apart(blockers) && forall b :: b in blockers ==> Recorded(b)
  }

  lemma {:induction false} TailIsApart(blockers: seq<Blocker>)
    requires OneAnInstrument(blockers) && blockers != []
    ensures OneAnInstrument(blockers[1..]) && Recorded(blockers[0])
    ensures forall b :: b in blockers[1..] ==> b.keys !! blockers[0].keys
    ensures blockers[0] !in blockers[1..]
  {
    assert blockers == [blockers[0]] + blockers[1..];
    assert blockers[0] in blockers;
    forall b | b in blockers[1..] ensures b.keys !! blockers[0].keys {
      var i :| 0 <= i < |blockers[1..]| && blockers[1..][i] == b;
      assert blockers[i + 1] == b;
    }
    forall i, j | 0 <= i < j < |blockers[1..]| ensures blockers[1..][i].keys !! blockers[1..][j].keys {
      assert blockers[i + 1].keys !! blockers[j + 1].keys;
    }
  }

  lemma {:induction false} ConsIsApart(b: Blocker, rest: seq<Blocker>)
    requires OneAnInstrument(rest) && Recorded(b) && forall x :: x in rest ==> x.keys !! b.keys
    ensures OneAnInstrument([b] + rest)
  {
    var all := [b] + rest;
    forall i, j | 0 <= i < j < |all| ensures all[i].keys !! all[j].keys {
      assert all[j] == rest[j - 1] && rest[j - 1] in rest;
      assert i > 0 ==> all[i] == rest[i - 1];
    }
  }

  lemma {:induction false} SweptIsApart(blockers: seq<Blocker>, revision: set<string> -> string)
    requires OneAnInstrument(blockers)
    ensures OneAnInstrument(Swept(blockers, revision))
  {
    if blockers != [] {
      hide OneAnInstrument, IsCurrent;
      TailIsApart(blockers);
      SweptIsApart(blockers[1..], revision);
      SweptAre(blockers[1..], revision);
      if IsCurrent(blockers[0], revision) {
        ConsIsApart(blockers[0], Swept(blockers[1..], revision));
      }
    }
  }

  lemma {:induction false} ExamineIsApart(blockers: seq<Blocker>, c: Slot, revision: set<string> -> string)
    requires OneAnInstrument(blockers)
    ensures OneAnInstrument(Examine(blockers, c, revision).blockers)
    ensures !Examine(blockers, c, revision).blocked ==>
      forall b :: b in Examine(blockers, c, revision).blockers ==> !Concerns(b, c)
  {
    if blockers != [] {
      hide OneAnInstrument, StillApplies;
      TailIsApart(blockers);
      ExamineIsApart(blockers[1..], c, revision);
      ExamineShrinks(blockers[1..], c, revision);
      if !Concerns(blockers[0], c) {
        ConsIsApart(blockers[0], Examine(blockers[1..], c, revision).blockers);
      }
    }
  }

  /** No blocker that is left concerns the slot selected. */
  lemma {:induction false} SelectIsApart(blockers: seq<Blocker>, candidates: seq<Slot>,
      nextAttempt: map<string, int>, now: int, revision: set<string> -> string)
    requires OneAnInstrument(blockers)
    ensures var r := Select(blockers, candidates, nextAttempt, now, revision);
      && OneAnInstrument(r.blockers)
      && (r.slot.Some? ==> forall b :: b in r.blockers ==> !Concerns(b, r.slot.value))
    decreases |candidates|
  {
    if candidates != [] {
      hide OneAnInstrument, Concerns;
      ExamineIsApart(blockers, candidates[0], revision);
      var seen := Examine(blockers, candidates[0], revision);
      SelectIsApart(seen.blockers, candidates[1..], nextAttempt, now, revision);
    }
  }

  lemma {:induction false} UnconcernedIsApart(blockers: seq<Blocker>, s: Slot)
    requires OneAnInstrument(blockers)
    ensures OneAnInstrument(Unconcerned(blockers, s))
  {
    if blockers != [] {
      hide OneAnInstrument, Concerns;
      TailIsApart(blockers);
      UnconcernedIsApart(blockers[1..], s);
      if !Concerns(blockers[0], s) {
        ConsIsApart(blockers[0], Unconcerned(blockers[1..], s));
      }
    }
  }

  lemma {:induction false} PutIsApart(blockers: seq<Blocker>, b: Blocker)
    requires OneAnInstrument(blockers) && Recorded(b) && forall x :: x in blockers ==> x.keys !! b.keys
    ensures OneAnInstrument(PutBlocker(blockers, b))
    ensures PutBlocker(blockers, b) == blockers + [b]
  {
    if blockers != [] {
      hide OneAnInstrument;
      TailIsApart(blockers);
      assert blockers[0].keys !! b.keys;
      PutIsApart(blockers[1..], b);
      ConsIsApart(blockers[0], PutBlocker(blockers[1..], b));
      assert blockers == [blockers[0]] + blockers[1..];
    } else {
      ConsIsApart(b, []);
    }
  }

  lemma {:induction false} NewIsRecorded(s: Slot, outcome: Outcome, code: string, revision: string)
    requires s.keys != {} && (outcome.failedKey.Some? ==> outcome.failedKey.value in s.keys)
    ensures Recorded(NewBlocker(s, outcome, code, revision)) && NewBlocker(s, outcome, code, revision).keys <= s.keys
  {
  }

  lemma {:induction false} RecordIsApart(blockers: seq<Blocker>, s: Slot, outcome: Outcome, code: string,
      revision: string)
    requires OneAnInstrument(blockers) && forall b :: b in blockers ==> !Concerns(b, s)
    requires s.keys != {} && (outcome.failedKey.Some? ==> outcome.failedKey.value in s.keys)
    ensures OneAnInstrument(PutBlocker(blockers, NewBlocker(s, outcome, code, revision)))
  {
    hide OneAnInstrument;
    NewIsRecorded(s, outcome, code, revision);
    var b := NewBlocker(s, outcome, code, revision);
    forall x | x in blockers ensures x.keys !! b.keys {
      assert !Concerns(x, s);
      assert x.keys * s.keys == {};
      assert forall k :: k in x.keys && k in b.keys ==> k in x.keys * s.keys;
    }
    PutIsApart(blockers, b);
  }

  /** The slots a poll shows are of some instrument. */
  ghost predicate OfInstruments(poll: Poll) { forall s :: s in poll.slots ==> s.keys != {} }

  lemma {:induction false} TickIsApart(d: Daemon, poll: Poll)
    requires OneAnInstrument(d.blockers) && Honest(poll) && OfInstruments(poll)
    ensures OneAnInstrument(Tick(d, poll).blockers)
  {
    hide OneAnInstrument, Candidates, Select, Swept, NewBlocker, PutBlocker, IsTransient, Unconcerned, Concerns;
    SweptIsApart(d.blockers, poll.before);
    SelectIsApart(Swept(d.blockers, poll.before), Candidates(poll.slots, poll.now, d.completed), d.nextAttempt,
      poll.now, poll.before);
    var choice := Choice(d, poll);
    if choice.slot.Some? {
      var s, outcome := choice.slot.value, poll.execute(choice.slot.value);
      ExecutedIsOffered(d, poll);
      var revision := poll.after(Affected(s, outcome));
      UnconcernedIsApart(choice.blockers, s);
      RecordIsApart(choice.blockers, s, outcome, EXHAUSTED + outcome.code, revision);
      RecordIsApart(choice.blockers, s, outcome,
        if outcome.code == "" then "SCHEDULED_INCREMENTAL_FAILED" else outcome.code, revision);
    }
  }

  /** Over any run from a fresh start every blocker carries its own signature, and no instrument has two. */
  lemma {:induction false} BlockersStayApart(polls: seq<Poll>)
    requires forall i :: 0 <= i < |polls| ==> Honest(polls[i]) && OfInstruments(polls[i])
    ensures OneAnInstrument(Run(STARTED, polls).blockers)
  {
    hide Tick;
    if polls != [] {
      var n := |polls| - 1;
      BlockersStayApart(polls[..n]);
      TickIsApart(Run(STARTED, polls[..n]), polls[n]);
    }
  }

  /** Blocker safety from a fresh start: what a first run recorded holds through a second one. */
  lemma {:induction false} RecordedBlockersHold(first: seq<Poll>, polls: seq<Poll>, b: Blocker, i: nat)
    requires forall j :: 0 <= j < |first| ==> Honest(first[j]) && OfInstruments(first[j])
    requires b in Run(STARTED, first).blockers && Persistent(b) && i < |polls|
    requires forall j :: 0 <= j <= i ==> Honest(polls[j]) && polls[j].before(b.keys) == b.revision
    ensures var d := Run(STARTED, first);
      && b in Before(d, polls, i + 1).blockers
      && (ExecutedAt(d, polls, i).Some? ==> !Concerns(b, ExecutedAt(d, polls, i).value))
  {
    hide Run, Executed, Persistent, Honest;
    BlockersStayApart(first);
    BlockerSafetyOverRuns(Run(STARTED, first), polls, b, i);
  }

  // ---- Exactly when a blocker of one slot is dropped ----

  /** A late publication or an interface fault: it applies only to the slot it was seen on. */
  predicate SlotBound(b: Blocker) { b.code == EXHAUSTED + NOT_READY || IsInterface(b) }

  /** For a slot of the same single instrument the walk over the blockers reaches `b`. */
  lemma {:induction false} ExamineReaches(blockers: seq<Blocker>, c: Slot, revision: set<string> -> string, b: Blocker)
    requires OneAnInstrument(blockers) && b in blockers && SlotBound(b) && revision(b.keys) == b.revision
    requires c.keys == b.keys
    ensures b in Examine(blockers, c, revision).blockers <==> c.id == b.origin
    ensures c.id == b.origin ==> Examine(blockers, c, revision).blocked
  {
    hide OneAnInstrument;
    TailIsApart(blockers);
    ExamineShrinks(blockers[1..], c, revision);
    if blockers[0] == b {
      assert Concerns(b, c);
    } else {
      assert b in blockers[1..];
      ExamineReaches(blockers[1..], c, revision, b);
    }
  }

  lemma {:induction false} ExamineLeavesOthers(blockers: seq<Blocker>, c: Slot, revision: set<string> -> string,
      b: Blocker)
    requires !Concerns(b, c) || b !in blockers
    ensures b in Examine(blockers, c, revision).blockers <==> b in blockers
  {
    ExamineShrinks(blockers, c, revision);
    if b in blockers {
      ExamineKeeps(blockers, c, revision, b);
    }
  }

  /** Candidate number `i` is looked at before anything is selected. */
  predicate Looked(candidates: seq<Slot>, slot: Option<Slot>, i: int) {
    0 <= i < |candidates| && forall j :: 0 <= j < i ==> Some(candidates[j]) != slot
  }

  /** No candidate looked at is another slot of the blocker's instrument. */
  ghost predicate NoRival(candidates: seq<Slot>, slot: Option<Slot>, b: Blocker) {
    forall i :: Looked(candidates, slot, i) && Concerns(b, candidates[i]) ==> candidates[i].id == b.origin
  }

  lemma {:induction false} NoRivalStep(candidates: seq<Slot>, slot: Option<Slot>, b: Blocker)
    requires candidates != [] && slot != Some(candidates[0])
    ensures NoRival(candidates, slot, b) <==>
      (Concerns(b, candidates[0]) ==> candidates[0].id == b.origin) && NoRival(candidates[1..], slot, b)
  {
    var rest := candidates[1..];
    assert Looked(candidates, slot, 0);
    forall i | 0 < i < |candidates| ensures Looked(candidates, slot, i) <==> Looked(rest, slot, i - 1) {
      LookedRest(candidates, slot, i);
    }
    if NoRival(candidates, slot, b) {
      forall i | Looked(rest, slot, i) && Concerns(b, rest[i]) ensures rest[i].id == b.origin {
        assert Looked(candidates, slot, i + 1) && candidates[i + 1] == rest[i];
      }
    }
    if (Concerns(b, candidates[0]) ==> candidates[0].id == b.origin) && NoRival(rest, slot, b) {
      forall i | Looked(candidates, slot, i) && Concerns(b, candidates[i]) ensures candidates[i].id == b.origin {
        assert i > 0 ==> Looked(rest, slot, i - 1) && rest[i - 1] == candidates[i];
      }
    }
  }

  lemma {:induction false} FirstIsSelected(candidates: seq<Slot>, b: Blocker)
    requires candidates != []
    ensures NoRival(candidates, Some(candidates[0]), b) <==>
        (Concerns(b, candidates[0]) ==> candidates[0].id == b.origin)
  {
    assert Looked(candidates, Some(candidates[0]), 0);
    assert forall i :: Looked(candidates, Some(candidates[0]), i) ==> i == 0;
  }

  lemma {:induction false} SelectShrinks(blockers: seq<Blocker>, candidates: seq<Slot>,
      nextAttempt: map<string, int>, now: int, revision: set<string> -> string)
    ensures forall b :: b in Select(blockers, candidates, nextAttempt, now, revision).blockers ==> b in blockers
    decreases |candidates|
  {
    if candidates != [] {
      ExamineShrinks(blockers, candidates[0], revision);
      SelectShrinks(Examine(blockers, candidates[0], revision).blockers, candidates[1..], nextAttempt, now, revision);
    }
  }

  lemma {:induction false} SelectSurvival(blockers: seq<Blocker>, candidates: seq<Slot>,
      nextAttempt: map<string, int>, now: int, revision: set<string> -> string, b: Blocker)
    requires OneAnInstrument(blockers) && b in blockers && SlotBound(b) && revision(b.keys) == b.revision
    requires OneALane(candidates) && forall c :: c in candidates && Concerns(b, c) ==> c.keys == b.keys
    ensures var r := Select(blockers, candidates, nextAttempt, now, revision);
      b in r.blockers <==> NoRival(candidates, r.slot, b)
    decreases |candidates|
  {
    if candidates != [] {
      hide OneAnInstrument, Concerns, OneALane, SlotBound, NoRival, MayAttempt;
      var c, rest := candidates[0], candidates[1..];
      var seen := Examine(blockers, c, revision);
      ExamineIsApart(blockers, c, revision);
      if Concerns(b, c) {
        ExamineReaches(blockers, c, revision, b);
      } else {
        ExamineLeavesOthers(blockers, c, revision, b);
      }
      FirstIsSelected(candidates, b);
      if seen.blocked || !MayAttempt(nextAttempt, c, now) {
        RestIsOneALane(candidates);
        SelectShrinks(seen.blockers, rest, nextAttempt, now, revision);
        SelectedIsCandidate(seen.blockers, rest, nextAttempt, now, revision);
        var slot := Select(seen.blockers, rest, nextAttempt, now, revision).slot;
        NoRivalStep(candidates, slot, b);
        if b in seen.blockers {
          SelectSurvival(seen.blockers, rest, nextAttempt, now, revision, b);
        }
      }
    } else {
      assert forall i :: !Looked(candidates, None, i);
    }
  }

  lemma {:induction false} RestIsOneALane(candidates: seq<Slot>)
    requires OneALane(candidates) && candidates != []
    ensures OneALane(candidates[1..]) && candidates[0] !in candidates[1..]
  {
    forall i | 0 <= i < |candidates[1..]| ensures candidates[1..][i] != candidates[0] {
      assert candidates[i + 1] == candidates[1..][i];
      assert !SameLane(candidates[0], candidates[i + 1]);
    }
  }

  /** All slots shown are of one instrument each, as the scheduler's scope makes them. */
  ghost predicate Narrow(poll: Poll) { forall s :: s in poll.slots ==> exists k :: s.keys == {k} }

  lemma {:induction false} ConcernedIsSame(poll: Poll, completed: set<string>, b: Blocker)
    requires Narrow(poll) && exists k :: b.keys == {k}
    ensures forall c :: c in Candidates(poll.slots, poll.now, completed) && Concerns(b, c) ==> c.keys == b.keys
  {
    hide Candidates;
    CandidatesLead(poll.slots, poll.now, completed);
    var candidates := Candidates(poll.slots, poll.now, completed);
    forall c | c in candidates && Concerns(b, c) ensures c.keys == b.keys {
      assert c in Offered(poll.slots, poll.now, completed);
      var k :| c.keys == {k};
      var l :| b.keys == {l};
      assert k in b.keys * c.keys;
    }
  }

  /** The same by what the poll turns out to execute. */
  lemma {:induction false} SurvivesUnlessLookedAt(d: Daemon, poll: Poll, b: Blocker)
    requires OneAnInstrument(d.blockers) && b in d.blockers && SlotBound(b)
    requires Narrow(poll) && exists k :: b.keys == {k}
    ensures b in Choice(d, poll).blockers <==>
      && poll.before(b.keys) == b.revision
      && NoRival(Candidates(poll.slots, poll.now, d.completed), Executed(d, poll), b)
  {
    hide Candidates, Select, Swept, OneAnInstrument, NoRival, SlotBound, Narrow, OneALane;
    var swept, candidates := Swept(d.blockers, poll.before), Candidates(poll.slots, poll.now, d.completed);
    SweptAre(d.blockers, poll.before);
    SweptIsApart(d.blockers, poll.before);
    ConcernedIsSame(poll, d.completed, b);
    OneCandidateALane(poll.slots, poll.now, d.completed);
    SelectShrinks(swept, candidates, d.nextAttempt, poll.now, poll.before);
    if poll.before(b.keys) == b.revision {
      SelectSurvival(swept, candidates, d.nextAttempt, poll.now, poll.before, b);
    }
  }

  // ---- Who is looked at, told before the poll ----

  ghost predicate OfOneKey(c: Slot) { exists k :: c.keys == {k} }

  /** For a slot of one instrument at most one blocker matters: the slot drops it unless it applies. */
  lemma {:induction false} ExaminedAre(blockers: seq<Blocker>, c: Slot, revision: set<string> -> string)
    requires OneAnInstrument(blockers) && OfOneKey(c)
    ensures var r := Examine(blockers, c, revision);
      && (forall b :: b in r.blockers <==> b in blockers && Passes(b, c, revision))
      && (r.blocked <==> exists b :: b in blockers && Stops(b, c, revision))
  {
    if blockers != [] {
      hide StillApplies, OneAnInstrument;
      var b, rest := blockers[0], blockers[1..];
      assert blockers == [b] + rest;
      TailIsApart(blockers);
      ExaminedAre(rest, c, revision);
      if Concerns(b, c) {
        forall x | x in rest ensures !Concerns(x, c) {
          OnlyOneConcerns(b, x, c);
        }
      }
      assert Stops(b, c, revision) || !(Concerns(b, c) && StillApplies(b, c, revision(b.keys)));
      if x :| x in rest && Stops(x, c, revision) {
        assert x in blockers;
      }
    }
  }

  lemma {:induction false} OnlyOneConcerns(b: Blocker, x: Blocker, c: Slot)
    requires OfOneKey(c) && Concerns(b, c) && x.keys !! b.keys
    ensures !Concerns(x, c)
  {
    var k :| c.keys == {k};
    assert k in b.keys * c.keys;
  }

  /** The blocker holds the slot back. */
  predicate Stops(b: Blocker, c: Slot, revision: set<string> -> string) {
    Concerns(b, c) && StillApplies(b, c, revision(b.keys))
  }

  /** The slot leaves the blocker in place. */
  predicate Passes(b: Blocker, c: Slot, revision: set<string> -> string) {
    Concerns(b, c) ==> StillApplies(b, c, revision(b.keys))
  }

  /** A blocker that no earlier candidate drops holds candidate `j` back. */
  ghost predicate Stopped(blockers: seq<Blocker>, candidates: seq<Slot>, revision: set<string> -> string, j: nat)
    requires j < |candidates|
  {
    exists b :: b in blockers && Stops(b, candidates[j], revision) && KeptUpTo(b, candidates, revision, j)
  }

  predicate KeptUpTo(b: Blocker, candidates: seq<Slot>, revision: set<string> -> string, j: nat)
    requires j <= |candidates|
  {
    forall i :: 0 <= i < j ==> Passes(b, candidates[i], revision)
  }

  /** What a selection starts from. */
  datatype Offer = Offer(blockers: seq<Blocker>, candidates: seq<Slot>, nextAttempt: map<string, int>, now: int,
      revision: set<string> -> string)
  {
    function Selected(): Option<Slot> { Select(blockers, candidates, nextAttempt, now, revision).slot }

    ghost predicate PassedOver(j: nat)
      requires j < |candidates|
    {
      !MayAttempt(nextAttempt, candidates[j], now) || Stopped(blockers, candidates, revision, j)
    }

    /** Every earlier candidate waits or is held back. */
    ghost predicate Reaches(i: int) { 0 <= i < |candidates| && forall j :: 0 <= j < i ==> PassedOver(j) }

    function Rest(): Offer
      requires candidates != []
    {
      this.(blockers := Examine(blockers, candidates[0], revision).blockers, candidates := candidates[1..])
    }
  }

  lemma {:induction false} KeptFromFirst(b: Blocker, candidates: seq<Slot>, revision: set<string> -> string, j: nat)
    requires 0 < j <= |candidates|
    ensures KeptUpTo(b, candidates, revision, j) <==>
      Passes(b, candidates[0], revision) && KeptUpTo(b, candidates[1..], revision, j - 1)
  {
    hide Passes;
    var rest := candidates[1..];
    assert forall i :: 0 < i < j ==> candidates[i] == rest[i - 1];
    if Passes(b, candidates[0], revision) && KeptUpTo(b, rest, revision, j - 1) {
      forall i | 0 <= i < j ensures Passes(b, candidates[i], revision) {
        assert i > 0 ==> Passes(b, rest[i - 1], revision);
      }
    }
    if KeptUpTo(b, candidates, revision, j) {
      forall i | 0 <= i < j - 1 ensures Passes(b, rest[i], revision) {
        assert Passes(b, candidates[i + 1], revision);
      }
    }
  }

  lemma {:induction false} PassedOverRest(o: Offer, j: nat)
    requires OneAnInstrument(o.blockers) && 0 < j < |o.candidates| && OfOneKey(o.candidates[0])
    ensures o.PassedOver(j) <==> o.Rest().PassedOver(j - 1)
  {
    hide Passes, Stops, OneAnInstrument, KeptUpTo, Examine, MayAttempt;
    var rest := o.Rest();
    ExaminedAre(o.blockers, o.candidates[0], o.revision);
    assert rest.candidates[j - 1] == o.candidates[j];
    forall b ensures b in o.blockers && KeptUpTo(b, o.candidates, o.revision, j) <==>
        b in rest.blockers && KeptUpTo(b, rest.candidates, o.revision, j - 1)
    {
      KeptFromFirst(b, o.candidates, o.revision, j);
    }
  }

  lemma {:induction false} LookedRest(candidates: seq<Slot>, slot: Option<Slot>, i: int)
    requires candidates != [] && slot != Some(candidates[0]) && 0 < i
    ensures Looked(candidates, slot, i) <==> Looked(candidates[1..], slot, i - 1)
  {
    var rest := candidates[1..];
    if Looked(rest, slot, i - 1) {
      forall j | 0 <= j < i ensures Some(candidates[j]) != slot {
        assert j > 0 ==> candidates[j] == rest[j - 1];
      }
    }
    if Looked(candidates, slot, i) {
      forall j | 0 <= j < i - 1 ensures Some(rest[j]) != slot {
        assert rest[j] == candidates[j + 1];
      }
    }
  }

  lemma {:induction false} ReachesRest(o: Offer, i: int)
    requires OneAnInstrument(o.blockers) && 0 < i && o.candidates != [] && OfOneKey(o.candidates[0])
    ensures o.Reaches(i) <==> i < |o.candidates| && o.PassedOver(0) && o.Rest().Reaches(i - 1)
  {
    hide OneAnInstrument, Examine, Offer.PassedOver;
    forall j | 0 < j < i < |o.candidates| ensures o.PassedOver(j) <==> o.Rest().PassedOver(j - 1) {
      PassedOverRest(o, j);
    }
    if i < |o.candidates| && o.Rest().Reaches(i - 1) && o.PassedOver(0) {
      forall j | 0 <= j < i ensures o.PassedOver(j) {
        assert j > 0 ==> o.Rest().PassedOver(j - 1);
      }
    }
    if o.Reaches(i) {
      forall j | 0 <= j < i - 1 ensures o.Rest().PassedOver(j) {
        assert o.PassedOver(j + 1);
      }
    }
  }

  /** The first candidate is passed over exactly when it is blocked or waits. */
  lemma {:induction false} FirstIsPassedOver(o: Offer)
    requires OneAnInstrument(o.blockers) && o.candidates != [] && OfOneKey(o.candidates[0])
    ensures o.PassedOver(0) <==>
      Examine(o.blockers, o.candidates[0], o.revision).blocked || !MayAttempt(o.nextAttempt, o.candidates[0], o.now)
  {
    hide OneAnInstrument, Stops, Examine;
    ExaminedAre(o.blockers, o.candidates[0], o.revision);
    assert forall b: Blocker :: KeptUpTo(b, o.candidates, o.revision, 0);
  }

  /** A candidate is looked at exactly when every earlier one waits or is held back. */
  lemma {:induction false} LookedIsReached(o: Offer, i: int)
    requires OneAnInstrument(o.blockers) && OneALane(o.candidates)
    requires forall c :: c in o.candidates ==> OfOneKey(c)
    ensures Looked(o.candidates, o.Selected(), i) <==> o.Reaches(i)
    decreases |o.candidates|
  {
    hide OneAnInstrument, OneALane, OfOneKey, Examine, MayAttempt, Looked, Offer.Reaches, Offer.PassedOver;
    if i <= 0 || o.candidates == [] {
      FirstIsReached(o, i);
    } else {
      var rest := o.Rest();
      FirstIsPassedOver(o);
      ReachesRest(o, i);
      if o.PassedOver(0) {
        ExamineIsApart(o.blockers, o.candidates[0], o.revision);
        RestIsOneALane(o.candidates);
        SelectedIsCandidate(rest.blockers, rest.candidates, o.nextAttempt, o.now, o.revision);
        LookedRest(o.candidates, rest.Selected(), i);
        LookedIsReached(rest, i - 1);
        ReachIsInside(rest, i - 1);
      } else {
        FirstEnds(o.candidates, i);
      }
    }
  }

  lemma {:induction false} FirstIsReached(o: Offer, i: int)
    requires i <= 0 || o.candidates == []
    ensures Looked(o.candidates, o.Selected(), i) <==> o.Reaches(i)
  {
  }

  lemma {:induction false} ReachIsInside(o: Offer, i: int)
    ensures o.Reaches(i) ==> i < |o.candidates|
  {
  }

  lemma {:induction false} FirstEnds(candidates: seq<Slot>, i: int)
    requires candidates != [] && 0 < i
    ensures !Looked(candidates, Some(candidates[0]), i)
  {
  }

  function OfferOf(d: Daemon, poll: Poll): Offer {
    Offer(Swept(d.blockers, poll.before), Candidates(poll.slots, poll.now, d.completed), d.nextAttempt, poll.now,
        poll.before)
  }

  /** No candidate that the selection reaches is another slot of the blocker's instrument. */
  ghost predicate NoRivalReached(o: Offer, b: Blocker) {
    forall i :: o.Reaches(i) && Concerns(b, o.candidates[i]) ==> o.candidates[i].id == b.origin
  }

  lemma {:induction false} RivalsLookedAt(d: Daemon, poll: Poll, b: Blocker)
    requires OneAnInstrument(d.blockers) && Narrow(poll)
    ensures NoRivalReached(OfferOf(d, poll), b) <==>
      NoRival(Candidates(poll.slots, poll.now, d.completed), Executed(d, poll), b)
  {
    hide Candidates, Select, Swept, OneAnInstrument, OneALane, Looked, Offer.Reaches, OfOneKey, Concerns;
    var o := OfferOf(d, poll);
    SweptIsApart(d.blockers, poll.before);
    OneCandidateALane(poll.slots, poll.now, d.completed);
    CandidatesAreNarrow(poll, d.completed);
    forall i ensures Looked(o.candidates, o.Selected(), i) <==> o.Reaches(i) {
      LookedIsReached(o, i);
    }
    ReachedEqualsLooked(o, b);
  }

  lemma {:induction false} ReachedEqualsLooked(o: Offer, b: Blocker)
    requires forall i :: Looked(o.candidates, o.Selected(), i) <==> o.Reaches(i)
    ensures NoRivalReached(o, b) <==> NoRival(o.candidates, o.Selected(), b)
  {
    hide Offer.Selected, Concerns;
  }

  lemma {:induction false} CandidatesAreNarrow(poll: Poll, completed: set<string>)
    requires Narrow(poll)
    ensures forall c :: c in Candidates(poll.slots, poll.now, completed) ==> OfOneKey(c)
  {
    hide Candidates;
    CandidatesLead(poll.slots, poll.now, completed);
    forall c | c in Candidates(poll.slots, poll.now, completed) ensures OfOneKey(c) {
      assert c in Offered(poll.slots, poll.now, completed);
    }
  }

  /**
   Exactly when the blocker of an exhausted or faulty slot outlives the selection of a poll: the revision of its
   instrument has not changed, and no other slot of that instrument is reached, all candidates before it waiting or
   held back. Everything the condition speaks of is there before the poll.
   */
  lemma {:induction false} SlotBoundSurvivesExactly(d: Daemon, poll: Poll, b: Blocker)
    requires OneAnInstrument(d.blockers) && b in d.blockers && SlotBound(b)
    requires Narrow(poll) && exists k :: b.keys == {k}
    ensures b in Choice(d, poll).blockers <==>
      poll.before(b.keys) == b.revision && NoRivalReached(OfferOf(d, poll), b)
  {
    hide Candidates, Select, Swept, OneAnInstrument, NoRival, NoRivalReached, SlotBound, Narrow;
    RivalsLookedAt(d, poll, b);
    SurvivesUnlessLookedAt(d, poll, b);
  }

  /** Its own slot runs again only if the revision changed or another slot of the instrument was looked at first. */
  lemma {:induction false} HeldSlotNeedsARival(d: Daemon, poll: Poll, b: Blocker, s: Slot)
    requires OneAnInstrument(d.blockers) && b in d.blockers && SlotBound(b)
    requires Narrow(poll) && (exists k :: b.keys == {k}) && b.origin == s.id && b.keys == s.keys
    requires Executed(d, poll) == Some(s)
    ensures poll.before(b.keys) == b.revision ==>
      !NoRival(Candidates(poll.slots, poll.now, d.completed), Some(s), b)
  {
    hide Candidates, Select, Swept, OneAnInstrument, NoRival, SlotBound, Narrow;
    SurvivesUnlessLookedAt(d, poll, b);
    SweptIsApart(d.blockers, poll.before);
    SelectIsApart(Swept(d.blockers, poll.before), Candidates(poll.slots, poll.now, d.completed), d.nextAttempt,
      poll.now, poll.before);
    var k :| b.keys == {k};
    assert k in b.keys * s.keys;
    assert Concerns(b, s);
  }
}
