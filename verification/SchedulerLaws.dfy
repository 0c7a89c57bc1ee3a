/** Laws of the scheduler over whole daemon runs. */
module SchedulerLaws {
  import opened Scheduler
  import opened Types

  // ---- Candidates ----

  /** One slot a lane, each the latest of its lane among those offered so far. */
  ghost predicate Leads(candidates: seq<Slot>, offered: set<Slot>) {
    && (forall c :: c in candidates ==> c in offered)
    && (forall x :: x in offered ==> Led(candidates, x))
    && (forall c, x :: c in candidates && x in offered && SameLane(c, x) ==> Leader(c, x))
  }

  ghost predicate Led(candidates: seq<Slot>, x: Slot) { exists c :: c in candidates && Leader(c, x) }

  predicate Leader(c: Slot, x: Slot) { SameLane(c, x) && x.due <= c.due }

  lemma {:induction false} PutLaneMembers(candidates: seq<Slot>, s: Slot)
    ensures forall c :: c in PutLane(candidates, s) ==> c in candidates || c == s
    ensures Led(PutLane(candidates, s), s)
    ensures forall c :: c in candidates ==> c in PutLane(candidates, s) || (SameLane(c, s) && c.due < s.due)
  {
    var r := PutLane(candidates, s);
    if candidates == [] {
      assert r[0] in r && Leader(r[0], s);
    } else {
      assert candidates == [candidates[0]] + candidates[1..];
      if SameLane(candidates[0], s) {
        assert r[0] in r && Leader(r[0], s);
      } else {
        PutLaneMembers(candidates[1..], s);
        var c :| c in PutLane(candidates[1..], s) && Leader(c, s);
        assert c in r;
      }
    }
  }

  lemma {:induction false} PutLaneKeepsOneALane(candidates: seq<Slot>, s: Slot)
    requires OneALane(candidates)
    ensures OneALane(PutLane(candidates, s))
  {
    if candidates != [] && !SameLane(candidates[0], s) {
      var rest := PutLane(candidates[1..], s);
      PutLaneKeepsOneALane(candidates[1..], s);
      PutLaneMembers(candidates[1..], s);
      assert PutLane(candidates, s) == [candidates[0]] + rest;
      forall j | 0 <= j < |rest| ensures !SameLane(candidates[0], rest[j]) {
        assert rest[j] in rest;
        if rest[j] in candidates[1..] {
          var k :| 0 <= k < |candidates[1..]| && candidates[1..][k] == rest[j];
          assert candidates[k + 1] == rest[j];
        }
      }
    }
  }

  ghost predicate OneALane(candidates: seq<Slot>) {
    forall i, j :: 0 <= i < j < |candidates| ==> !SameLane(candidates[i], candidates[j])
  }

  lemma {:induction false} SameSlot(candidates: seq<Slot>, a: Slot, b: Slot)
    requires OneALane(candidates) && a in candidates && b in candidates && SameLane(a, b)
    ensures a == b
  {
  }

  function Offered(slots: seq<Slot>, now: int, completed: set<string>): set<Slot> {
    set s | s in slots && Eligible(s, now, completed)
  }

  lemma {:induction false} OfferedGrows(slots: seq<Slot>, now: int, completed: set<string>)
    requires slots != []
    ensures var n := |slots| - 1;
      var more := if Eligible(slots[n], now, completed) then {slots[n]} else {};
      Offered(slots, now, completed) == Offered(slots[..n], now, completed) + more
  {
  }

  lemma {:induction false} LatestLeads(slots: seq<Slot>, now: int, completed: set<string>)
    ensures Leads(LatestPerLane(slots, now, completed), Offered(slots, now, completed))
    ensures OneALane(LatestPerLane(slots, now, completed))
  {
    if slots != [] {
      var n := |slots| - 1;
      LatestLeads(slots[..n], now, completed);
      assert slots == slots[..n] + [slots[n]];
      hide Leads, OneALane, PutLane;
      var earlier := LatestPerLane(slots[..n], now, completed);
      OfferedGrows(slots, now, completed);
      if Eligible(slots[n], now, completed) {
        PutLaneLeads(earlier, Offered(slots[..n], now, completed), slots[n]);
        PutLaneKeepsOneALane(earlier, slots[n]);
      }
    } else {
      assert Offered(slots, now, completed) == {};
    }
  }

  lemma {:induction false} PutLaneLeads(candidates: seq<Slot>, offered: set<Slot>, s: Slot)
    requires Leads(candidates, offered) && OneALane(candidates)
    ensures Leads(PutLane(candidates, s), offered + {s})
  {
    hide PutLane, OneALane, Led, Leader;
    var r := PutLane(candidates, s);
    PutLaneMembers(candidates, s);
    PutLaneKeepsOneALane(candidates, s);
    forall x | x in offered + {s} ensures Led(r, x) {
      if x in offered { LeaderRemains(candidates, s, x); }
    }
    forall c, x | c in r && x in offered + {s} && SameLane(c, x) ensures Leader(c, x) {
      LaneLeader(r, c, x);
    }
  }

  lemma {:induction false} LeaderRemains(candidates: seq<Slot>, s: Slot, x: Slot)
    requires Led(candidates, x)
    ensures Led(PutLane(candidates, s), x)
  {
    hide PutLane;
    PutLaneMembers(candidates, s);
    var top :| top in PutLane(candidates, s) && Leader(top, s);
    var c :| c in candidates && Leader(c, x);
    assert c in PutLane(candidates, s) || Leader(top, x);
  }

  lemma {:induction false} LaneLeader(candidates: seq<Slot>, c: Slot, x: Slot)
    requires OneALane(candidates) && c in candidates && Led(candidates, x) && SameLane(c, x)
    ensures Leader(c, x)
  {
    var l :| l in candidates && Leader(l, x);
    SameSlot(candidates, c, l);
  }

  /** What the candidates are, whatever their order. */
  lemma {:induction false} CandidatesLead(slots: seq<Slot>, now: int, completed: set<string>)
    ensures Leads(Candidates(slots, now, completed), Offered(slots, now, completed))
  {
    hide ByDue, LatestPerLane;
    LatestLeads(slots, now, completed);
  }

  /** Shown, not completed, due, and no more than six hours late. */
  predicate MayRun(slots: seq<Slot>, now: int, completed: set<string>, s: Slot) {
    s in slots && s.id !in completed && s.due <= now <= s.due + 6 * 3600
  }

  /** The candidates: of every kind and set of instruments the latest slot that may run. */
  lemma {:induction false} CandidatesAre(slots: seq<Slot>, now: int, completed: set<string>)
    ensures forall c :: c in Candidates(slots, now, completed) ==> MayRun(slots, now, completed, c)
    ensures forall c, x :: c in Candidates(slots, now, completed) && MayRun(slots, now, completed, x) ==>
      x.kind != c.kind || x.keys != c.keys || x.due <= c.due
    ensures forall x :: MayRun(slots, now, completed, x) ==>
      exists c :: c in Candidates(slots, now, completed) && c.kind == x.kind && c.keys == x.keys
  {
    hide Candidates;
    CandidatesLead(slots, now, completed);
    var offered, candidates := Offered(slots, now, completed), Candidates(slots, now, completed);
    forall x ensures x in offered <==> MayRun(slots, now, completed, x) {
    }
    forall x | MayRun(slots, now, completed, x)
      ensures exists c :: c in candidates && c.kind == x.kind && c.keys == x.keys
    {
      assert Led(candidates, x);
      var c :| c in candidates && Leader(c, x);
    }
    forall c, x | c in candidates && MayRun(slots, now, completed, x) && x.kind == c.kind && x.keys == c.keys
      ensures x.due <= c.due
    {
      assert SameLane(c, x);
      assert Leader(c, x);
    }
  }

  ghost predicate SortedByDue(slots: seq<Slot>) {
    forall i, j :: 0 <= i < j < |slots| ==> slots[i].due <= slots[j].due
  }

  /** The slots due at `t`, in their order. */
  function DueAt(slots: seq<Slot>, t: int): seq<Slot> {
    if slots == [] then []
    else
      var n := |slots| - 1;
      DueAt(slots[..n], t) + if slots[n].due == t then [slots[n]] else []
  }

  lemma {:induction false} InsertKeepsOrder(sorted: seq<Slot>, s: Slot)
    requires SortedByDue(sorted)
    ensures SortedByDue(InsertByDue(sorted, s))
  {
    if sorted != [] {
      var n := |sorted| - 1;
      if s.due < sorted[n].due {
        InsertKeepsOrder(sorted[..n], s);
        var r := InsertByDue(sorted[..n], s);
        forall i | 0 <= i < |r| ensures r[i].due <= sorted[n].due {
          assert r[i] in r;
        }
      }
    }
  }

  lemma {:induction false} ByDueIsSorted(slots: seq<Slot>)
    ensures SortedByDue(ByDue(slots))
  {
    if slots != [] {
      ByDueIsSorted(slots[..|slots| - 1]);
      InsertKeepsOrder(ByDue(slots[..|slots| - 1]), slots[|slots| - 1]);
    }
  }


  lemma {:induction false} DueAtOfAppend(slots: seq<Slot>, s: Slot, t: int)
    ensures DueAt(slots + [s], t) == DueAt(slots, t) + if s.due == t then [s] else []
  {
    assert (slots + [s])[..|slots|] == slots;
  }

  lemma {:induction false} InsertIsStable(sorted: seq<Slot>, s: Slot, t: int)
    ensures DueAt(InsertByDue(sorted, s), t) == DueAt(sorted, t) + if s.due == t then [s] else []
  {
    DueAtOfAppend(sorted, s, t);
    if sorted != [] {
      var n := |sorted| - 1;
      if s.due < sorted[n].due {
        InsertIsStable(sorted[..n], s, t);
        DueAtOfAppend(InsertByDue(sorted[..n], s), sorted[n], t);
      }
    } else {
      assert [] + [s] == [s];
    }
  }

  /** A stable sort: in order of due time, and slots due at one time stay in the order they came in. */
  lemma {:induction false} ByDueIsStable(slots: seq<Slot>, t: int)
    ensures DueAt(ByDue(slots), t) == DueAt(slots, t)
  {
    if slots != [] {
      ByDueIsStable(slots[..|slots| - 1], t);
      InsertIsStable(ByDue(slots[..|slots| - 1]), slots[|slots| - 1], t);
    }
  }

  lemma {:induction false} InsertKeepsOneALane(sorted: seq<Slot>, s: Slot)
    requires OneALane(sorted) && forall x :: x in sorted ==> !SameLane(x, s)
    ensures OneALane(InsertByDue(sorted, s))
  {
    if sorted != [] {
      var n := |sorted| - 1;
      assert sorted == sorted[..n] + [sorted[n]];
      if s.due < sorted[n].due {
        InsertKeepsOneALane(sorted[..n], s);
        var r := InsertByDue(sorted[..n], s);
        forall i | 0 <= i < |r| ensures !SameLane(r[i], sorted[n]) {
          assert r[i] in r && sorted[n] in sorted;
        }
      }
    }
  }

  lemma {:induction false} SortKeepsOneALane(slots: seq<Slot>)
    requires OneALane(slots)
    ensures OneALane(ByDue(slots))
  {
    if slots != [] {
      var n := |slots| - 1;
      SortKeepsOneALane(slots[..n]);
      InsertKeepsOneALane(ByDue(slots[..n]), slots[n]);
    }
  }

  lemma {:induction false} OneCandidateALane(slots: seq<Slot>, now: int, completed: set<string>)
    ensures OneALane(Candidates(slots, now, completed))
  {
    hide OneALane, ByDue, LatestPerLane;
    LatestLeads(slots, now, completed);
    SortKeepsOneALane(LatestPerLane(slots, now, completed));
  }

  // ---- Selection ----

  lemma {:induction false} SelectedIsCandidate(blockers: seq<Blocker>, candidates: seq<Slot>,
      nextAttempt: map<string, int>,
      now: int, revision: set<string> -> string)
    ensures var r := Select(blockers, candidates, nextAttempt, now, revision);
      r.slot.Some? ==> r.slot.value in candidates && MayAttempt(nextAttempt, r.slot.value, now)
    decreases |candidates|
  {
    if candidates != [] {
      SelectedIsCandidate(Examine(blockers, candidates[0], revision).blockers, candidates[1..], nextAttempt, now,
          revision);
    }
  }

  /** The executed slot is offered: due, inside the catch-up age, not completed, and the latest of its lane. */
  lemma {:induction false} ExecutedIsOffered(d: Daemon, poll: Poll)
    requires Executed(d, poll).Some?
    ensures var s := Executed(d, poll).value;
      && s in poll.slots && Eligible(s, poll.now, d.completed) && MayAttempt(d.nextAttempt, s, poll.now)
      && forall x :: x in poll.slots && Eligible(x, poll.now, d.completed) && SameLane(s, x) ==> x.due <= s.due
  {
    hide Select, Candidates, Swept;
    var candidates := Candidates(poll.slots, poll.now, d.completed);
    SelectedIsCandidate(Swept(d.blockers, poll.before), candidates, d.nextAttempt, poll.now, poll.before);
    CandidatesLead(poll.slots, poll.now, d.completed);
    var s := Executed(d, poll).value;
    assert s in Offered(poll.slots, poll.now, d.completed);
    forall x | x in poll.slots && Eligible(x, poll.now, d.completed) && SameLane(s, x) ensures x.due <= s.due {
      assert x in Offered(poll.slots, poll.now, d.completed);
      assert Leader(s, x);
    }
  }

  // ---- The schedule ----

  /** Ids identify slots, and a lane has one slot a due time. */
  ghost predicate Distinct(schedule: set<Slot>) {
    && (forall a, b :: a in schedule && b in schedule && a.id == b.id ==> a == b)
    && (forall a, b :: a in schedule && b in schedule && SameLane(a, b) && a.due == b.due ==> a == b)
  }

  predicate InCatchUp(s: Slot, now: int) { s.due <= now && now - s.due <= MAX_CATCHUP_AGE }

  /** A poll sees slots of the schedule, and at least those due within the catch-up age. */
  ghost predicate Shows(schedule: set<Slot>, poll: Poll) {
    && (forall s :: s in poll.slots ==> s in schedule)
    && (forall s :: s in schedule && InCatchUp(s, poll.now) ==> s in poll.slots)
  }

  ghost predicate Timeline(schedule: set<Slot>, polls: seq<Poll>) {
    && (forall i :: 0 <= i < |polls| ==> Shows(schedule, polls[i]))
    && (forall i, j :: 0 <= i < j < |polls| ==> polls[i].now <= polls[j].now)
  }

  /** Within the catch-up age, a completed slot has every earlier slot of its lane completed too. */
  ghost predicate Closed(completed: set<string>, schedule: set<Slot>, now: int) {
    forall a, b :: a in schedule && b in schedule && SupersededBy(b, a) && a.id in completed ==>
      now - b.due > MAX_CATCHUP_AGE || b.id in completed
  }

  /** What one poll does to the completed ids. */
  lemma {:induction false} CompletedAfter(d: Daemon, poll: Poll)
    ensures Tick(d, poll).completed == d.completed +
      if Executed(d, poll).Some? && poll.execute(Executed(d, poll).value).passed
      then CompletedThrough(poll.slots, Executed(d, poll).value) else {}
  {
  }

  lemma {:induction false} TickKeepsClosed(d: Daemon, poll: Poll, schedule: set<Slot>, earlier: int)
    requires Distinct(schedule) && Shows(schedule, poll) && earlier <= poll.now
        && Closed(d.completed, schedule, earlier)
    ensures Closed(Tick(d, poll).completed, schedule, poll.now)
  {
    hide Tick, Executed;
    CompletedAfter(d, poll);
    var after := Tick(d, poll).completed;
    forall a, b | a in schedule && b in schedule && SupersededBy(b, a) && a.id in after
        && poll.now - b.due <= MAX_CATCHUP_AGE
      ensures b.id in after
    {
      if a.id !in d.completed {
        var s := Executed(d, poll).value;
        ExecutedIsOffered(d, poll);
        var z :| z in poll.slots && SupersededBy(z, s) && z.id == a.id;
        assert z == a;
        assert InCatchUp(b, poll.now);
        assert SupersededBy(b, s);
      }
    }
  }

  lemma {:induction false} RunKeepsClosed(schedule: set<Slot>, d: Daemon, polls: seq<Poll>)
    requires Distinct(schedule) && Timeline(schedule, polls) && polls != []
    requires Closed(d.completed, schedule, polls[0].now)
    ensures Closed(Run(d, polls).completed, schedule, polls[|polls| - 1].now)
  {
    hide Tick, Closed;
    var n := |polls| - 1;
    if n == 0 {
      assert polls[..n] == [];
      TickKeepsClosed(d, polls[0], schedule, polls[0].now);
    } else {
      RunKeepsClosed(schedule, d, polls[..n]);
      TickKeepsClosed(Run(d, polls[..n]), polls[n], schedule, polls[n - 1].now);
    }
  }

  /** The state poll `i` of a run meets, and what it executes. */
  function Before(d: Daemon, polls: seq<Poll>, i: nat): Daemon
    requires i <= |polls|
  {
    Run(d, polls[..i])
  }

  function ExecutedAt(d: Daemon, polls: seq<Poll>, i: nat): Option<Slot>
    requires i < |polls|
  {
    Executed(Before(d, polls, i), polls[i])
  }

  predicate PassedAt(d: Daemon, polls: seq<Poll>, i: nat)
    requires i < |polls| && ExecutedAt(d, polls, i).Some?
  {
    polls[i].execute(ExecutedAt(d, polls, i).value).passed
  }

  lemma {:induction false} ClosedBefore(schedule: set<Slot>, d: Daemon, polls: seq<Poll>, i: nat)
    requires Distinct(schedule) && Timeline(schedule, polls) && i < |polls|
    requires Closed(d.completed, schedule, polls[0].now)
    ensures Closed(Before(d, polls, i).completed, schedule, polls[i].now)
  {
    hide Tick;
    if i == 0 {
      assert polls[..0] == [];
    } else {
      hide Closed;
      RunKeepsClosed(schedule, d, polls[..i]);
      ClosedLater(Before(d, polls, i).completed, schedule, polls[i - 1].now, polls[i].now);
    }
  }

  lemma {:induction false} ClosedLater(completed: set<string>, schedule: set<Slot>, now: int, later: int)
    requires Closed(completed, schedule, now) && now <= later
    ensures Closed(completed, schedule, later)
  {
  }

  /** What runs is always the latest slot of its lane that is due at all, completed or not. */
  lemma {:induction false} ExecutedIsLatest(schedule: set<Slot>, d: Daemon, poll: Poll, x: Slot)
    requires Distinct(schedule) && Shows(schedule, poll) && Closed(d.completed, schedule, poll.now)
    requires Executed(d, poll).Some? && x in schedule && SameLane(Executed(d, poll).value, x) && x.due <= poll.now
    ensures x.due <= Executed(d, poll).value.due
  {
    hide Executed;
    ExecutedIsOffered(d, poll);
    var s := Executed(d, poll).value;
    assert s.due <= x.due ==> SupersededBy(s, x) && InCatchUp(x, poll.now);
  }

  lemma {:induction false} CompletedGrows(d: Daemon, polls: seq<Poll>, i: nat, j: nat)
    requires i <= j <= |polls|
    ensures Before(d, polls, i).completed <= Before(d, polls, j).completed
    decreases j
  {
    hide Tick;
    if i < j {
      CompletedGrows(d, polls, i, j - 1);
      assert polls[..j][..j - 1] == polls[..j - 1];
      CompletedAfter(Before(d, polls, j - 1), polls[j - 1]);
    }
  }

  lemma {:induction false} PassCompletes(d: Daemon, polls: seq<Poll>, i: nat)
    requires i < |polls| && ExecutedAt(d, polls, i).Some? && PassedAt(d, polls, i)
    ensures forall x :: x in polls[i].slots && SupersededBy(x, ExecutedAt(d, polls, i).value) ==>
      x.id in Before(d, polls, i + 1).completed
    ensures ExecutedAt(d, polls, i).value.id in Before(d, polls, i + 1).completed
  {
    hide Tick, Executed;
    assert polls[..i + 1][..i] == polls[..i];
    CompletedAfter(Before(d, polls, i), polls[i]);
    ExecutedIsOffered(Before(d, polls, i), polls[i]);
  }

  /**
   Lane progress. With a clock that does not run backwards and a fixed schedule, a lane never goes back to an
   earlier slot; after a PASS it only moves on, so no slot passes twice and no superseded slot runs later.
   */
  lemma {:induction false} LaneProgress(schedule: set<Slot>, d: Daemon, polls: seq<Poll>, i: nat, j: nat)
    requires Distinct(schedule) && Timeline(schedule, polls) && i < j < |polls|
    requires Closed(d.completed, schedule, polls[0].now)
    requires ExecutedAt(d, polls, i).Some? && ExecutedAt(d, polls, j).Some?
    requires SameLane(ExecutedAt(d, polls, i).value, ExecutedAt(d, polls, j).value)
    ensures ExecutedAt(d, polls, i).value.due <= ExecutedAt(d, polls, j).value.due
    ensures PassedAt(d, polls, i) ==> ExecutedAt(d, polls, i).value.due < ExecutedAt(d, polls, j).value.due
  {
    hide Executed, Run, Closed;
    var s, x := ExecutedAt(d, polls, i).value, ExecutedAt(d, polls, j).value;
    ExecutedIsOffered(Before(d, polls, i), polls[i]);
    ExecutedIsOffered(Before(d, polls, j), polls[j]);
    ClosedBefore(schedule, d, polls, j);
    ExecutedIsLatest(schedule, Before(d, polls, j), polls[j], s);
    if PassedAt(d, polls, i) {
      PassCompletes(d, polls, i);
      CompletedGrows(d, polls, i + 1, j);
    }
  }

  /** A fresh daemon has completed nothing, so the hypothesis of the laws holds. */
  lemma {:induction false} FreshIsClosed(schedule: set<Slot>, now: int)
    ensures Closed(STARTED.completed, schedule, now)
  {
  }

  // ---- Blockers ----

  /** A fault of the instruments themselves: it neither belongs to one slot nor to the interface. */
  predicate Persistent(b: Blocker) {
    b.code != EXHAUSTED + NOT_READY && !IsInterface(b) && b.status in ENFORCED && b.keys != {}
  }

  /** The executor reports only instruments of the slot it ran. */
  ghost predicate Honest(poll: Poll) {
    forall s: Slot :: poll.execute(s).failedKey.Some? ==> poll.execute(s).failedKey.value in s.keys
  }

  /** The sweep drops exactly the blockers of no instrument and those whose revision moved. */
  lemma {:induction false} SweptAre(blockers: seq<Blocker>, revision: set<string> -> string)
    ensures forall b :: b in Swept(blockers, revision) <==> b in blockers && IsCurrent(b, revision)
  {
    if blockers != [] {
      SweptAre(blockers[1..], revision);
      assert blockers == [blockers[0]] + blockers[1..];
      var head := if IsCurrent(blockers[0], revision) then [blockers[0]] else [];
      assert Swept(blockers, revision) == head + Swept(blockers[1..], revision);
      assert forall b :: b in head <==> b == blockers[0] && IsCurrent(b, revision);
    }
  }

  lemma {:induction false} ExamineKeeps(blockers: seq<Blocker>, c: Slot, revision: set<string> -> string, b: Blocker)
    requires b in blockers && (Concerns(b, c) ==> StillApplies(b, c, revision(b.keys)))
    ensures b in Examine(blockers, c, revision).blockers
    ensures Concerns(b, c) ==> Examine(blockers, c, revision).blocked
  {
    if blockers[0] != b {
      assert b in blockers[1..];
      ExamineKeeps(blockers[1..], c, revision, b);
    }
  }

  lemma {:induction false} SelectKeeps(blockers: seq<Blocker>, candidates: seq<Slot>, nextAttempt: map<string,
      int>, now: int,
      revision: set<string> -> string, b: Blocker)
    requires b in blockers
    requires forall c :: c in candidates && Concerns(b, c) ==> StillApplies(b, c, revision(b.keys))
    ensures var r := Select(blockers, candidates, nextAttempt, now, revision);
      b in r.blockers && (r.slot.Some? ==> !Concerns(b, r.slot.value))
    decreases |candidates|
  {
    if candidates != [] {
      ExamineKeeps(blockers, candidates[0], revision, b);
      var seen := Examine(blockers, candidates[0], revision);
      if !(!seen.blocked && MayAttempt(nextAttempt, candidates[0], now)) {
        SelectKeeps(seen.blockers, candidates[1..], nextAttempt, now, revision, b);
      }
    }
  }

  lemma {:induction false} PutKeeps(blockers: seq<Blocker>, added: Blocker, b: Blocker)
    requires b in blockers && b.signature != added.signature
    ensures b in PutBlocker(blockers, added)
  {
    if blockers[0] != b {
      assert b in blockers[1..];
      PutKeeps(blockers[1..], added, b);
    }
  }

  lemma {:induction false} PutPuts(blockers: seq<Blocker>, added: Blocker)
    ensures added in PutBlocker(blockers, added)
  {
    if blockers != [] && blockers[0].signature != added.signature {
      PutPuts(blockers[1..], added);
    }
  }

  /** A stored blocker carries the signature of its own fields. */
  predicate Signed(b: Blocker) { b.signature == Signature(b.keys, b.code, b.revision) }

  /** If no candidate can shake a blocker off, the poll keeps it and runs none of its instruments. */
  lemma {:induction false} HeldBlockerSurvives(d: Daemon, poll: Poll, b: Blocker)
    requires b in d.blockers && b.keys != {} && Signed(b) && poll.before(b.keys) == b.revision && Honest(poll)
    requires forall c :: c in Candidates(poll.slots, poll.now, d.completed) && Concerns(b, c) ==>
        StillApplies(b, c, b.revision)
    ensures b in Tick(d, poll).blockers
    ensures Executed(d, poll).Some? ==> !Concerns(b, Executed(d, poll).value)
  {
    hide Candidates, Select, Swept, StillApplies, Tick;
    var swept := Swept(d.blockers, poll.before);
    SweptAre(d.blockers, poll.before);
    SelectKeeps(swept, Candidates(poll.slots, poll.now, d.completed), d.nextAttempt, poll.now, poll.before, b);
    ExecutionKeeps(d, poll, b);
  }

  /** What the selection kept, the execution of a slot of other instruments keeps too. */
  lemma {:induction false} ExecutionKeeps(d: Daemon, poll: Poll, b: Blocker)
    requires b in Choice(d, poll).blockers && b.keys != {} && Signed(b) && Honest(poll)
    requires Executed(d, poll).Some? ==> !Concerns(b, Executed(d, poll).value)
    ensures b in Tick(d, poll).blockers
  {
    hide Choice, StillApplies, CompletedThrough, IdsIn, IsTransient, ErrorDomain, NewBlocker, PutBlocker;
    var choice := Choice(d, poll);
    if choice.slot.Some? {
      var s := choice.slot.value;
      var outcome := poll.execute(s);
      if !outcome.passed {
        OutsideAffected(b, s, outcome);
        var revision := poll.after(Affected(s, outcome));
        PutKeepsOutside(choice.blockers, b, s, outcome, EXHAUSTED + outcome.code, revision);
        PutKeepsOutside(choice.blockers, b, s, outcome,
          if outcome.code == "" then "SCHEDULED_INCREMENTAL_FAILED" else outcome.code, revision);
      }
    }
  }

  lemma {:induction false} OutsideAffected(b: Blocker, s: Slot, outcome: Outcome)
    requires b.keys != {} && !Concerns(b, s) && (outcome.failedKey.Some? ==> outcome.failedKey.value in s.keys)
    ensures Affected(s, outcome) != b.keys
  {
  }

  lemma {:induction false} PutKeepsOutside(blockers: seq<Blocker>, b: Blocker, s: Slot, outcome: Outcome,
      code: string, revision: string)
    requires b in blockers && Signed(b) && Affected(s, outcome) != b.keys
    ensures b in PutBlocker(blockers, NewBlocker(s, outcome, code, revision))
  {
    hide ErrorDomain, Affected;
    PutKeeps(blockers, NewBlocker(s, outcome, code, revision), b);
  }

  /**
   Blocker safety: while the revision of its instruments does not change, a persistent blocker survives the poll
   and no slot that touches its instruments runs.
   */
  lemma {:induction false} BlockerSafety(d: Daemon, poll: Poll, b: Blocker)
    requires b in d.blockers && Signed(b) && Persistent(b) && poll.before(b.keys) == b.revision && Honest(poll)
    ensures b in Tick(d, poll).blockers
    ensures Executed(d, poll).Some? ==> !Concerns(b, Executed(d, poll).value)
  {
    hide Tick, Executed, Candidates;
    HeldBlockerSurvives(d, poll, b);
  }

  /** Over a whole run. */
  lemma {:induction false} BlockerSafetyOverRuns(d: Daemon, polls: seq<Poll>, b: Blocker, i: nat)
    requires b in d.blockers && Signed(b) && Persistent(b) && i < |polls|
    requires forall j :: 0 <= j <= i ==> Honest(polls[j]) && polls[j].before(b.keys) == b.revision
    ensures b in Before(d, polls, i + 1).blockers
    ensures ExecutedAt(d, polls, i).Some? ==> !Concerns(b, ExecutedAt(d, polls, i).value)
  {
    hide Tick, Executed, Persistent;
    if i > 0 {
      BlockerSafetyOverRuns(d, polls, b, i - 1);
    } else {
      assert polls[..0] == [];
    }
    assert polls[..i + 1][..i] == polls[..i];
    BlockerSafety(Before(d, polls, i), polls[i], b);
  }

  lemma {:induction false} ExamineShrinks(blockers: seq<Blocker>, c: Slot, revision: set<string> -> string)
    ensures forall b :: b in Examine(blockers, c, revision).blockers ==> b in blockers
    ensures Examine(blockers, c, revision).blocked ==>
      exists b :: b in blockers && Concerns(b, c) && StillApplies(b, c, revision(b.keys))
  {
    if blockers != [] {
      assert blockers == [blockers[0]] + blockers[1..];
      ExamineShrinks(blockers[1..], c, revision);
    }
  }

  /** From a list in due order a free candidate is served, unless one that is due no later is. */
  lemma {:induction false} SelectFinds(blockers: seq<Blocker>, candidates: seq<Slot>, nextAttempt: map<string, int>,
      now: int, revision: set<string> -> string, c: Slot)
    requires c in candidates && MayAttempt(nextAttempt, c, now) && SortedByDue(candidates)
    requires forall b :: b in blockers && Concerns(b, c) ==> !StillApplies(b, c, revision(b.keys))
    ensures var slot := Select(blockers, candidates, nextAttempt, now, revision).slot;
      slot.Some? && slot.value.due <= c.due
    decreases |candidates|
  {
    var seen := Examine(blockers, candidates[0], revision);
    ExamineShrinks(blockers, candidates[0], revision);
    if candidates[0] != c {
      assert c in candidates[1..];
      SelectFinds(seen.blockers, candidates[1..], nextAttempt, now, revision, c);
    }
  }

  /**
   Isolation: whatever blockers and waiting times hold back other lanes, a candidate that no blocker applies to and
   that is not waiting is executed by the poll, unless one due no later is.
   */
  lemma {:induction false} FreeCandidateIsServed(d: Daemon, poll: Poll, c: Slot)
    requires c in Candidates(poll.slots, poll.now, d.completed) && MayAttempt(d.nextAttempt, c, poll.now)
    requires forall b :: b in d.blockers && Concerns(b, c) ==> !StillApplies(b, c, poll.before(b.keys))
    ensures Executed(d, poll).Some? && Executed(d, poll).value.due <= c.due
  {
    hide ByDue, LatestPerLane, Select, Swept, StillApplies;
    SweptAre(d.blockers, poll.before);
    ByDueIsSorted(LatestPerLane(poll.slots, poll.now, d.completed));
    SelectFinds(Swept(d.blockers, poll.before), Candidates(poll.slots, poll.now, d.completed), d.nextAttempt,
      poll.now, poll.before, c);
  }
}
