/** The lanes of the schedule as it is built: one for an FX instrument, two for an exchange instrument. */
module PlannedLanes {
  import opened ContentionBounds
  import opened RetryLaws
  import opened Schedule
  import opened Scheduler

  // ---- The FX instruments have one lane each ----

  /** The FX keys are six letters long and differ in the first or the fourth; the exchange keys are three letters. */
  lemma {:induction false} FxKeyKinds(job: Job, key: string, starts: seq<int>,
      sessions: seq<Session>, naming: Naming)
    requires Offers(starts, sessions, naming, job) && key in job.keys
    ensures key in FX_KEYS ==> job.kind == "fx_hourly"
    ensures key in CANDIDATE_KEYS ==> job.kind == "fx_research_candidates_hourly"
  {
    hide FxJobs, SessionJobs;
    KeysAreTold(key);
    if start :| start in starts && job in FxJobs(start, naming) {
      FxJobKinds(start, naming, job);
    } else {
      var session :| session in sessions && job in SessionJobs(session, naming);
      ExchangeJobKeys(session, naming, job);
    }
  }

  predicate ExchangeKey(key: string) {
    key in EQUITY_REIT_KEYS + BOND_CREDIT_KEYS + GOLD_KEYS
  }

  lemma {:induction false} KeysAreTold(key: string)
    ensures key in FX_KEYS ==> |key| == 6 && (key[0] == 'e' || (key[0] == 'u' && key[3] == 'j'))
    ensures key in CANDIDATE_KEYS ==> |key| == 6 && (key[0] == 'a' || (key[0] == 'u' && key[3] == 'c'))
    ensures ExchangeKey(key) ==> |key| == 3
  {
  }

  lemma {:induction false} FxJobKinds(start: int, naming: Naming, job: Job)
    requires job in FxJobs(start, naming)
    ensures (job.kind == "fx_hourly" && job.keys == FX_KEYS)
      || (job.kind == "fx_research_candidates_hourly" && forall key :: key in job.keys ==>
          key in CANDIDATE_KEYS)
  {
    if job in CandidateJobs(start, CANDIDATE_KEYS, naming) {
      CandidateJobKeys(start, CANDIDATE_KEYS, naming, job);
    }
  }

  lemma {:induction false} CandidateJobKeys(start: int, keys: seq<string>, naming: Naming, job: Job)
    requires job in CandidateJobs(start, keys, naming)
    ensures job.kind == "fx_research_candidates_hourly" && forall key :: key in job.keys ==> key in keys
  {
    if job in CandidateJobs(start, keys[1..], naming) {
      CandidateJobKeys(start, keys[1..], naming, job);
    }
  }

  lemma {:induction false} HourJobKeys(session: Session, start: int, naming: Naming,
      job: Job)
    requires job in HoursFrom(session, start, naming)
    ensures forall key :: key in job.keys ==> ExchangeKey(key)
    decreases session.closing - start
  {
    if job !in HourlyJobs(session, start, naming) {
      HourJobKeys(session, start + HOUR_SECONDS, naming, job);
    }
  }

  lemma {:induction false} ExchangeJobKeys(session: Session, naming: Naming, job: Job)
    requires job in SessionJobs(session, naming)
    ensures forall key :: key in job.keys ==> ExchangeKey(key)
  {
    if job in HoursFrom(session, session.opening, naming) {
      HourJobKeys(session, session.opening, naming, job);
    }
  }

  /** Whatever bars and sessions are planned, no other lane contends with a slot of an FX instrument. */
  lemma {:induction false} FxSlotsAreUncontended(starts: seq<int>, sessions: seq<Session>,
      naming: Naming, profile: Profile, schedule: set<Slot>, s: Slot, key: string)
    requires forall x :: x in schedule ==> Planned(starts, sessions, naming, profile, x)
    requires s in schedule && s.keys == {key} && key in FX_KEYS + CANDIDATE_KEYS
    ensures Uncontended(schedule, s)
  {
    hide Offers, Selects, SlotOf, Contended;
    forall x | x in schedule && x.keys * s.keys != {} ensures SameLane(x, s) {
      LaneOfKey(starts, sessions, naming, profile, x, key);
      LaneOfKey(starts, sessions, naming, profile, s, key);
    }
    SoleLaneIsUncontended(schedule, s);
  }

  lemma {:induction false} LaneOfKey(starts: seq<int>, sessions: seq<Session>, naming: Naming,
      profile: Profile, x: Slot, key: string)
    requires Planned(starts, sessions, naming, profile, x) && key in x.keys
    ensures x.keys == {key}
    ensures key in FX_KEYS ==> x.kind == "fx_hourly"
    ensures key in CANDIDATE_KEYS ==> x.kind == "fx_research_candidates_hourly"
  {
    hide Offers;
    var job, k :| Selects(profile, job, k) && x == SlotOf(job, k)
      && Offers(starts, sessions, naming, job);
    FxKeyKinds(job, k, starts, sessions, naming);
  }

  // ---- The exchange instruments have two lanes each ----

  const CLOSE_KIND := "etf_daily_close"

  function HourKind(key: string): string {
    if key in EQUITY_REIT_KEYS then "equity_regular_1h"
    else if key in BOND_CREDIT_KEYS then "bond_credit_regular_1h"
    else "gold_regular_1h"
  }

  lemma {:induction false} KindsDiffer(key: string)
    ensures HourKind(key) != CLOSE_KIND
  {
    assert |"equity_regular_1h"| == 17 && |"bond_credit_regular_1h"| == 22 && |CLOSE_KIND| == 15;
    assert "gold_regular_1h"[0] == 'g' && CLOSE_KIND[0] == 'e';
  }

  /** No key of one list is in another. */
  lemma {:induction false} KeysAreApart(key: string)
    ensures key in GOLD_KEYS || key in BOND_CREDIT_KEYS ==> key !in EQUITY_REIT_KEYS
    ensures key in GOLD_KEYS ==> key !in BOND_CREDIT_KEYS
  {
    if key in EQUITY_REIT_KEYS {
      assert (key[0], key[1]) in {('s', 'p'), ('i', 'w'), ('e', 'f'), ('e', 'e'), ('v', 'n')};
    }
    if key in BOND_CREDIT_KEYS {
      assert (key[0], key[1]) in {('s', 'h'), ('i', 'e'), ('t', 'l'), ('t', 'i'), ('l', 'q')};
    }
    if key in GOLD_KEYS {
      assert (key[0], key[1]) == ('g', 'l');
    }
  }

  // ---- When the slots of an exchange instrument are due ----

  ghost predicate HourDue(sessions: seq<Session>, t: int) {
    exists s, start :: s in sessions && HourStarts(s, start) && t == start + FIRST_PUBLISH_OFFSET
  }

  predicate HourStarts(s: Session, start: int) {
    s.opening <= start && start + HOUR_SECONDS <= s.closing && (start - s.opening) % HOUR_SECONDS == 0
  }

  ghost predicate CloseDue(sessions: seq<Session>, t: int) {
    exists s :: s in sessions && t == s.closing + ETF_DAILY_CLOSE_PUBLISH_OFFSET
  }

  lemma {:induction false} HoursApart(sessions: seq<Session>, t: int, u: int)
    requires Disjoint(sessions) && HourDue(sessions, t) && HourDue(sessions, u) && t < u
    ensures t + HOUR_SECONDS <= u
  {
    var s, start :| s in sessions && HourStarts(s, start) && t == start + FIRST_PUBLISH_OFFSET;
    var r, hour :| r in sessions && HourStarts(r, hour) && u == hour + FIRST_PUBLISH_OFFSET;
    if s == r {
      var i, j := (start - s.opening) / HOUR_SECONDS, (hour - s.opening) / HOUR_SECONDS;
      assert start - s.opening == HOUR_SECONDS * i && hour - s.opening == HOUR_SECONDS * j;
    }
  }

  /** No session is shorter than the four minutes the exact bound asks for. */
  ghost predicate LongEnough(sessions: seq<Session>) {
    forall s :: s in sessions ==> s.opening + 4 * MINUTES <= s.closing
  }

  lemma {:induction false} ClosesApart(sessions: seq<Session>, t: int, u: int)
    requires Disjoint(sessions) && LongEnough(sessions) && CloseDue(sessions, t) && CloseDue(sessions, u) && t < u
    ensures t + 4 * MINUTES <= u
  {
    var s :| s in sessions && t == s.closing + ETF_DAILY_CLOSE_PUBLISH_OFFSET;
    var r :| r in sessions && u == r.closing + ETF_DAILY_CLOSE_PUBLISH_OFFSET;
    assert s.opening < s.closing;
  }

  lemma {:induction false} HourlyJob(s: Session, start: int, naming: Naming, job: Job, key: string)
    requires job in HourlyJobs(s, start, naming) && key in job.keys
    ensures job.kind == HourKind(key) && job.due == start + FIRST_PUBLISH_OFFSET
  {
    KeysAreApart(key);
  }

  lemma {:induction false} ExchangeJob(starts: seq<int>, sessions: seq<Session>, naming: Naming, job: Job, key: string)
    requires Offers(starts, sessions, naming, job) && key in job.keys && ExchangeKey(key)
    ensures (job.kind == HourKind(key) && HourDue(sessions, job.due))
      || (job.kind == CLOSE_KIND && CloseDue(sessions, job.due))
  {
    hide FxJobs, HoursFrom, HourKind, ExchangeKey;
    KeysAreTold(key);
    if start :| start in starts && job in FxJobs(start, naming) {
      FxJobKinds(start, naming, job);
    } else {
      var s :| s in sessions && job in SessionJobs(s, naming);
      if job in HoursFrom(s, s.opening, naming) {
        HourForm(s, s.opening, naming, job);
        var start :| SessionHour(job, s, start, naming);
        HourlyJob(s, start, naming, job, key);
        assert HourStarts(s, start);
      }
    }
  }

  lemma {:induction false} ExchangeSlot(starts: seq<int>, sessions: seq<Session>, naming: Naming, profile: Profile,
      y: Slot, key: string)
    requires Planned(starts, sessions, naming, profile, y) && key in y.keys && ExchangeKey(key)
    ensures y.keys == {key}
    ensures (y.kind == HourKind(key) && HourDue(sessions, y.due)) || (y.kind == CLOSE_KIND && CloseDue(sessions, y.due))
  {
    hide Offers, HourKind, ExchangeKey, HourDue, CloseDue;
    var job, k :| Selects(profile, job, k) && y == SlotOf(job, k) && Offers(starts, sessions, naming, job);
    ExchangeJob(starts, sessions, naming, job, key);
  }

  /** The slots of the schedule for one instrument. */
  function PlanOf(schedule: set<Slot>, s: Slot): set<Slot> { set y | y in schedule && y.keys == s.keys }

  /**
   Whatever bars and sessions are planned, the slots of an exchange instrument make a plan of two sparse lanes: one
   of its hours, and one of the closes.
   */
  lemma {:induction false} ExchangePlanHasTwoLanes(starts: seq<int>, sessions: seq<Session>, naming: Naming,
      profile: Profile, schedule: set<Slot>, s: Slot, key: string)
    requires Disjoint(sessions) && LongEnough(sessions)
    requires forall y :: y in schedule <==> Planned(starts, sessions, naming, profile, y)
    requires forall a, b :: a in schedule && b in schedule && a.id == b.id ==> a == b
    requires s in schedule && key in s.keys && ExchangeKey(key)
    ensures Plans(schedule, PlanOf(schedule, s), s) && Sparse(PlanOf(schedule, s), s)
    ensures TwoLanes(PlanOf(schedule, s), s, if s.kind == CLOSE_KIND then HourKind(key) else CLOSE_KIND)
  {
    hide Planned, HourKind, ExchangeKey, HourDue, CloseDue, Disjoint, LongEnough;
    PlannedIsDistinct(starts, sessions, naming, profile, schedule);
    KindsDiffer(key);
    forall y | y in PlanOf(schedule, s)
      ensures y.keys == {key}
      ensures (y.kind == HourKind(key) && HourDue(sessions, y.due))
        || (y.kind == CLOSE_KIND && CloseDue(sessions, y.due))
    {
      ExchangeSlot(starts, sessions, naming, profile, y, key);
    }
    forall y | y in PlanOf(schedule, s) && SameLane(y, s) && y != s
      ensures y.due + 4 * MINUTES <= s.due || s.due + 4 * MINUTES <= y.due
    {
      assert y.due != s.due;
      DuesApart(sessions, key, if y.due < s.due then y else s, if y.due < s.due then s else y);
    }
  }

  lemma {:induction false} DuesApart(sessions: seq<Session>, key: string, y: Slot, z: Slot)
    requires Disjoint(sessions) && LongEnough(sessions) && y.kind == z.kind && y.due < z.due
    requires (y.kind == HourKind(key) && HourDue(sessions, y.due))
        || (y.kind == CLOSE_KIND && CloseDue(sessions, y.due))
    requires (z.kind == HourKind(key) && HourDue(sessions, z.due))
        || (z.kind == CLOSE_KIND && CloseDue(sessions, z.due))
    ensures y.due + 4 * MINUTES <= z.due
  {
    hide Disjoint, LongEnough, HourDue, CloseDue, HourKind;
    KindsDiffer(key);
    if y.kind == CLOSE_KIND {
      ClosesApart(sessions, y.due, z.due);
    } else {
      HoursApart(sessions, y.due, z.due);
    }
  }
}
