/** The daemon as the code runs it: one object whose fields every poll updates. */
module SchedulerDaemons {
  import opened CompletedHistory
  import opened Scheduler
  import opened Types
  import SchedulerLaws

  lemma {:induction false} PutLaneSkips(candidates: seq<Slot>, s: Slot, k: nat)
    requires k < |candidates| && !SameLane(candidates[k], s)
    ensures candidates[..k] + PutLane(candidates[k..], s) == candidates[..k + 1] + PutLane(candidates[k + 1..], s)
  {
    hide SameLane;
    assert candidates[k..][1..] == candidates[k + 1..];
    var rest := PutLane(candidates[k + 1..], s);
    assert PutLane(candidates[k..], s) == [candidates[k]] + rest;
    assert candidates[..k] + ([candidates[k]] + rest) == candidates[..k + 1] + rest;
  }

  lemma {:induction false} PutLaneStops(candidates: seq<Slot>, s: Slot, k: nat)
    requires k <= |candidates| && (k < |candidates| ==> SameLane(candidates[k], s))
    ensures candidates[..k] + PutLane(candidates[k..], s)
      == if k == |candidates| then candidates + [s]
         else if s.due > candidates[k].due then candidates[k := s] else candidates
  {
    hide SameLane;
    if k < |candidates| {
      assert candidates[k..][1..] == candidates[k + 1..];
      assert candidates[k..][0] == candidates[k];
    }
  }

  method PutLaneInPlace(candidates: seq<Slot>, s: Slot) returns (r: seq<Slot>)
    ensures r == PutLane(candidates, s)
  {
    hide SameLane, PutLane;
    var k := 0;
    assert candidates[..0] + PutLane(candidates[0..], s)
        == PutLane(candidates, s) by { assert candidates[0..] == candidates; }
    while k < |candidates| && !SameLane(candidates[k], s)
      invariant 0 <= k <= |candidates|
      invariant PutLane(candidates, s) == candidates[..k] + PutLane(candidates[k..], s)
    {
      PutLaneSkips(candidates, s, k);
      k := k + 1;
    }
    PutLaneStops(candidates, s, k);
    if k == |candidates| {
      r := candidates + [s];
    } else if s.due > candidates[k].due {
      r := candidates[k := s];
    } else {
      r := candidates;
    }
  }

  /** The latest eligible slot of every lane, oldest first; slots due together keep the order of their lanes. */
  method LatestDuePerKind(slots: seq<Slot>, now: int, completed: set<string>) returns (r: seq<Slot>)
    ensures r == Candidates(slots, now, completed)
    ensures SchedulerLaws.SortedByDue(r) && SchedulerLaws.OneALane(r)
    ensures SchedulerLaws.Leads(r, SchedulerLaws.Offered(slots, now, completed))
    ensures forall t :: SchedulerLaws.DueAt(r, t) == SchedulerLaws.DueAt(LatestPerLane(slots, now, completed), t)
  {
    hide PutLane, ByDue;
    var latest: seq<Slot> := [];
    for i := 0 to |slots|
      invariant latest == LatestPerLane(slots[..i], now, completed)
    {
      assert slots[..i + 1][..i] == slots[..i];
      if Eligible(slots[i], now, completed) {
        latest := PutLaneInPlace(latest, slots[i]);
      }
    }
    assert slots[..|slots|] == slots;
    r := ByDue(latest);
    SchedulerLaws.ByDueIsSorted(latest);
    SchedulerLaws.CandidatesLead(slots, now, completed);
    SchedulerLaws.OneCandidateALane(slots, now, completed);
    forall t ensures SchedulerLaws.DueAt(r, t) == SchedulerLaws.DueAt(latest, t) {
      SchedulerLaws.ByDueIsStable(latest, t);
    }
  }

  method PutBlockerInPlace(blockers: seq<Blocker>, b: Blocker) returns (r: seq<Blocker>)
    ensures r == PutBlocker(blockers, b)
  {
    var k := 0;
    assert blockers[0..] == blockers;
    while k < |blockers| && blockers[k].signature != b.signature
      invariant 0 <= k <= |blockers|
      invariant PutBlocker(blockers, b) == blockers[..k] + PutBlocker(blockers[k..], b)
    {
      assert blockers[k..][1..] == blockers[k + 1..];
      assert blockers[..k + 1] == blockers[..k] + [blockers[k]];
      k := k + 1;
    }
    if k == |blockers| {
      r := blockers + [b];
    } else {
      assert blockers[k..][1..] == blockers[k + 1..];
      r := blockers[k := b];
    }
  }

  class SchedulerDaemon {
    var completed: set<string>
    var order: seq<string>
    var nextAttempt: map<string, int>
    var blockers: seq<Blocker>
    var attempts: map<string, int>

    function State(): Daemon
      reads this
    {
      Daemon(completed, order, nextAttempt, blockers, attempts)
    }

    constructor ()
      ensures State() == STARTED
    {
      completed, order, nextAttempt, blockers, attempts := {}, [], map[], [], map[];
    }

    /** A restart from the stored state: the bounded history, blockers under fresh domains, and the attempts. */
    constructor FromStored(stored: Daemon)
      ensures State() == Restarted(stored)
    {
      completed, order, nextAttempt := Elements(stored.order), Keep(stored.order), map[];
      blockers, attempts := Reclassified(stored.blockers), stored.attempts;
    }

    method Sweep(revision: set<string> -> string)
      modifies this`blockers
      ensures blockers == Swept(old(blockers), revision)
    {
      hide IsCurrent;
      var kept: seq<Blocker> := [];
      var stored := blockers;
      assert stored[0..] == stored;
      for i := 0 to |stored|
        invariant blockers == old(blockers) == stored
        invariant Swept(stored, revision) == kept + Swept(stored[i..], revision)
      {
        assert stored[i..][1..] == stored[i + 1..];
        var b := stored[i];
        if IsCurrent(b, revision) {
          kept := kept + [b];
        }
      }
      blockers := kept;
    }

    /** Walk the blockers for one candidate; those of its instruments that no longer apply are dropped on the way. */
    method ExamineFor(c: Slot, revision: set<string> -> string) returns (blocked: bool)
      modifies this`blockers
      ensures blockers == Examine(old(blockers), c, revision).blockers
      ensures blocked == Examine(old(blockers), c, revision).blocked
    {
      hide StillApplies, Concerns;
      var kept: seq<Blocker> := [];
      var stored := blockers;
      blocked := false;
      var i := 0;
      assert stored[0..] == stored;
      while i < |stored|
        invariant 0 <= i <= |stored| && !blocked
        invariant blockers == old(blockers) == stored
        invariant Examine(stored, c, revision).blockers == kept + Examine(stored[i..], c, revision).blockers
        invariant Examine(stored, c, revision).blocked == Examine(stored[i..], c, revision).blocked
      {
        assert stored[i..][1..] == stored[i + 1..];
        var b := stored[i];
        if !Concerns(b, c) {
          kept := kept + [b];
        } else if StillApplies(b, c, revision(b.keys)) {
          blocked := true;
          kept := kept + stored[i..];
          break;
        }
        i := i + 1;
      }
      blockers := kept;
    }

    /** The first candidate that nothing holds back. */
    method Choose(candidates: seq<Slot>, now: int, revision: set<string> -> string) returns (selected: Option<Slot>)
      modifies this`blockers
      ensures Selection(blockers, selected) == Select(old(blockers), candidates, nextAttempt, now, revision)
    {
      hide Examine;
      var i := 0;
      selected := None;
      assert candidates[0..] == candidates;
      while i < |candidates|
        invariant 0 <= i <= |candidates| && selected.None?
        invariant Select(old(blockers), candidates, nextAttempt, now, revision)
            == Select(blockers, candidates[i..], nextAttempt, now, revision)
      {
        assert candidates[i..][1..] == candidates[i + 1..];
        var blocked := ExamineFor(candidates[i], revision);
        if !blocked && (candidates[i].id !in nextAttempt || nextAttempt[candidates[i].id] <= now) {
          selected := Some(candidates[i]);
          break;
        }
        i := i + 1;
      }
    }

    method RecordPass(slots: seq<Slot>, s: Slot)
      modifies this
      ensures State() == Scheduler.Passed(old(State()), slots, s)
    {
      hide Keep, IdsIn, CompletedThrough, Unconcerned;
      var ids := CompletedThrough(slots, s);
      completed := completed + ids;
      order := AppendCompletedSlots(order, IdsIn(slots, ids));
      nextAttempt := nextAttempt - {s.id};
      attempts := attempts - {s.id};
      blockers := Unconcerned(blockers, s);
    }

    method RecordFailure(poll: Poll, s: Slot, outcome: Outcome)
      modifies this`nextAttempt, this`attempts, this`blockers
      ensures State() == Scheduler.Failed(old(State()), poll, s, outcome)
    {
      hide NewBlocker, PutBlocker, IsTransient, Affected;
      var revision := poll.after(Affected(s, outcome));
      if IsTransient(outcome.code) {
        var n := (if s.id in attempts then attempts[s.id] else 0) + 1;
        attempts := attempts[s.id := n];
        if n < MAX_TRANSIENT_SLOT_ATTEMPTS {
          nextAttempt := nextAttempt[s.id := poll.now + RETRY_SECONDS];
        } else {
          blockers := PutBlockerInPlace(blockers, NewBlocker(s, outcome, EXHAUSTED + outcome.code, revision));
        }
      } else {
        nextAttempt := nextAttempt - {s.id};
        attempts := attempts - {s.id};
        var code := if outcome.code == "" then "SCHEDULED_INCREMENTAL_FAILED" else outcome.code;
        blockers := PutBlockerInPlace(blockers, NewBlocker(s, outcome, code, revision));
      }
    }

    /** One iteration of the loop; returns the slot it executed. */
    method Iterate(poll: Poll) returns (executed: Option<Slot>)
      modifies this
      ensures State() == Tick(old(State()), poll)
      ensures executed == Executed(old(State()), poll)
    {
      hide Swept, Candidates, Select, Scheduler.Passed, Scheduler.Failed;
      Sweep(poll.before);
      var candidates := LatestDuePerKind(poll.slots, poll.now, completed);
      executed := Choose(candidates, poll.now, poll.before);
      if executed.Some? {
        var outcome := poll.execute(executed.value);
        if outcome.passed {
          RecordPass(poll.slots, executed.value);
        } else {
          RecordFailure(poll, executed.value, outcome);
        }
      }
    }

    /** The daemon loop. */
    method Serve(polls: seq<Poll>)
      modifies this
      ensures State() == Run(old(State()), polls)
    {
      hide Tick;
      for i := 0 to |polls|
        invariant State() == Run(old(State()), polls[..i])
      {
        assert polls[..i + 1][..i] == polls[..i];
        var _ := Iterate(polls[i]);
      }
      assert polls[..|polls|] == polls;
    }
  }
}
