/** The slots a poll is shown: FX and equity publication times around the clock, one instrument a slot. */
module Schedule {
  import opened Scheduler
  import opened SchedulerLaws

  const SCHEDULE_LOOK_BACK := 7 * 3600
  const SCHEDULE_LOOK_AHEAD := 4 * 3600
  const HOUR_SECONDS := 3600
  const FX_PUBLISH := 3600 + 3 * 60
  const CANDIDATE_FX_PUBLISH := 3600 + 6 * 60
  const FIRST_PUBLISH_OFFSET := 3600 + 15
  const ETF_DAILY_CLOSE_PUBLISH_OFFSET := 45 * 60

  const FX_KEYS := ["eurusd", "usdjpy"]
  const CANDIDATE_KEYS := ["audusd", "usdcad", "usdchf"]
  const EQUITY_REIT_KEYS := ["spy", "iwm", "efa", "eem", "vnq"]
  const BOND_CREDIT_KEYS := ["shy", "ief", "tlt", "tip", "lqd"]
  const GOLD_KEYS := ["gld"]

  /** A publication of several instruments, before it is split by instrument. */
  datatype Job = Job(id: string, kind: string, due: int, keys: seq<string>)

  /** A regular session of the exchange; the date is a day number. */
  datatype Session = Session(date: int, opening: int, closing: int, held: bool)

  /** How times and dates are written into slot ids. */
  datatype Naming = Naming(time: int -> string, date: int -> string)

  // ---- Building the jobs ----

  function CandidateJobs(start: int, keys: seq<string>, naming: Naming): seq<Job> {
    if keys == [] then []
    else
      var due := start + CANDIDATE_FX_PUBLISH;
      [Job("fx-research-" + keys[0] + "-" + naming.time(due), "fx_research_candidates_hourly", due, [keys[0]])]
        + CandidateJobs(start, keys[1..], naming)
  }

  function FxJobs(start: int, naming: Naming): seq<Job> {
    [Job("fx-" + naming.time(start + FX_PUBLISH), "fx_hourly", start + FX_PUBLISH, FX_KEYS)]
      + CandidateJobs(start, CANDIDATE_KEYS, naming)
  }

  predicate FxShown(publication: int, now: int) {
    now - SCHEDULE_LOOK_BACK <= publication <= now + SCHEDULE_LOOK_AHEAD
  }

  /** Only bars published between seven hours ago and four hours ahead. */
  function FxPart(starts: seq<int>, now: int, naming: Naming): seq<Job> {
    if starts == [] then []
    else
      var shown := if FxShown(starts[0] + FX_PUBLISH, now) then FxJobs(starts[0], naming) else [];
      shown + FxPart(starts[1..], now, naming)
  }

  function HourlyJobs(s: Session, start: int, naming: Naming): seq<Job> {
    var due := start + FIRST_PUBLISH_OFFSET;
    var stamp := naming.date(s.date) + "-" + naming.time(start);
    [Job("equity-" + stamp, "equity_regular_1h", due, EQUITY_REIT_KEYS),
     Job("bond-credit-" + stamp, "bond_credit_regular_1h", due, BOND_CREDIT_KEYS),
     Job("gold-" + stamp, "gold_regular_1h", due, GOLD_KEYS)]
  }

  function HoursFrom(s: Session, start: int, naming: Naming): seq<Job>
    decreases s.closing - start
  {
    if start + HOUR_SECONDS > s.closing then []
    else HourlyJobs(s, start, naming) + HoursFrom(s, start + HOUR_SECONDS, naming)
  }

  function SessionJobs(s: Session, naming: Naming): seq<Job> {
    if !s.held then []
    else
      HoursFrom(s, s.opening, naming) + [Job("etf-daily-close-" + naming.date(s.date), "etf_daily_close",
        s.closing + ETF_DAILY_CLOSE_PUBLISH_OFFSET, EQUITY_REIT_KEYS + BOND_CREDIT_KEYS + GOLD_KEYS)]
  }

  /** Sessions are loaded by date, from two days back to three days ahead. */
  predicate SessionShown(s: Session, now: int) { now / 86400 - 2 <= s.date <= now / 86400 + 3 }

  function EquityPart(sessions: seq<Session>, now: int, naming: Naming): seq<Job> {
    if sessions == [] then []
    else
      var shown := if SessionShown(sessions[0], now) then SessionJobs(sessions[0], naming) else [];
      shown + EquityPart(sessions[1..], now, naming)
  }

  // ---- One slot an instrument ----

  datatype Profile = Profile(included: set<string>, kinds: set<string>)

  function SlotOf(job: Job, key: string): Slot { Slot(job.id + "-" + key, job.kind, job.due, {key}) }

  function SlotsOf(job: Job, keys: seq<string>, profile: Profile): seq<Slot> {
    if keys == [] then []
    else
      var n := |keys| - 1;
      SlotsOf(job, keys[..n], profile) + if keys[n] in profile.included then [SlotOf(job, keys[n])] else []
  }

  function Scoped(jobs: seq<Job>, profile: Profile): seq<Slot> {
    if jobs == [] then []
    else
      var job := jobs[|jobs| - 1];
      Scoped(jobs[..|jobs| - 1], profile) + if job.kind in profile.kinds then SlotsOf(job, job.keys, profile) else []
  }

  method ApplySchedulerScope(jobs: seq<Job>, profile: Profile) returns (slots: seq<Slot>)
    ensures slots == Scoped(jobs, profile)
  {
    slots := [];
    for i := 0 to |jobs|
      invariant slots == Scoped(jobs[..i], profile)
    {
      var job := jobs[i];
      assert jobs[..i + 1][..i] == jobs[..i];
      if job.kind in profile.kinds {
        ghost var before := slots;
        for j := 0 to |job.keys|
          invariant slots == before + SlotsOf(job, job.keys[..j], profile)
        {
          assert job.keys[..j + 1][..j] == job.keys[..j];
          if job.keys[j] in profile.included {
            slots := slots + [SlotOf(job, job.keys[j])];
          }
        }
        assert job.keys[..|job.keys|] == job.keys;
      }
    }
    assert jobs[..|jobs|] == jobs;
  }

  predicate Selects(profile: Profile, job: Job, key: string) {
    job.kind in profile.kinds && key in job.keys && key in profile.included
  }

  lemma {:induction false} SlotsOfAre(job: Job, keys: seq<string>, profile: Profile, s: Slot)
    ensures s in SlotsOf(job, keys, profile) <==>
        exists key :: key in keys && key in profile.included && s == SlotOf(job, key)
  {
    if keys != [] {
      var n := |keys| - 1;
      SlotsOfAre(job, keys[..n], profile, s);
      assert keys == keys[..n] + [keys[n]];
      var tail := if keys[n] in profile.included then [SlotOf(job, keys[n])] else [];
      assert SlotsOf(job, keys, profile) == SlotsOf(job, keys[..n], profile) + tail;
    }
  }

  /** A slot is a job of an allowed kind narrowed to one of its included instruments; every such pair has its slot. */
  lemma {:induction false} ScopedSlotsAre(jobs: seq<Job>, profile: Profile, s: Slot)
    ensures s in Scoped(jobs, profile) <==>
        exists job, key :: job in jobs && Selects(profile, job, key) && s == SlotOf(job, key)
  {
    if jobs != [] {
      hide SlotsOf, SlotOf;
      var n := |jobs| - 1;
      ScopedSlotsAre(jobs[..n], profile, s);
      SlotsOfAre(jobs[n], jobs[n].keys, profile, s);
      assert jobs == jobs[..n] + [jobs[n]];
      assert forall job :: job in jobs <==> job in jobs[..n] || job == jobs[n];
      var tail := if jobs[n].kind in profile.kinds then SlotsOf(jobs[n], jobs[n].keys, profile) else [];
      assert Scoped(jobs, profile) == Scoped(jobs[..n], profile) + tail;
      if s in tail {
        var key :| key in jobs[n].keys && key in profile.included && s == SlotOf(jobs[n], key);
        assert Selects(profile, jobs[n], key);
      }
    }
  }

  // ---- What is shown covers the catch-up age ----

  lemma {:induction false} FxPartHas(starts: seq<int>, now: int, naming: Naming, job: Job)
    ensures job in FxPart(starts, now, naming) <==> exists start :: start in starts && ShownFx(start, now, naming, job)
  {
    if starts != [] {
      hide FxJobs;
      FxPartHas(starts[1..], now, naming, job);
      assert starts == [starts[0]] + starts[1..];
      assert forall start :: start in starts <==> start == starts[0] || start in starts[1..];
      var head := if FxShown(starts[0] + FX_PUBLISH, now) then FxJobs(starts[0], naming) else [];
      assert FxPart(starts, now, naming) == head + FxPart(starts[1..], now, naming);
      assert job in head <==> ShownFx(starts[0], now, naming, job);
    }
  }

  predicate ShownFx(start: int, now: int, naming: Naming, job: Job) {
    FxShown(start + FX_PUBLISH, now) && job in FxJobs(start, naming)
  }

  predicate ShownSession(s: Session, now: int, naming: Naming, job: Job) {
    SessionShown(s, now) && job in SessionJobs(s, naming)
  }

  lemma {:induction false} EquityPartHas(sessions: seq<Session>, now: int, naming: Naming, job: Job)
    ensures job in EquityPart(sessions, now, naming) <==> exists s :: s in sessions && ShownSession(s, now, naming, job)
  {
    if sessions != [] {
      hide SessionJobs, SessionShown;
      EquityPartHas(sessions[1..], now, naming, job);
      assert sessions == [sessions[0]] + sessions[1..];
      assert forall s :: s in sessions <==> s == sessions[0] || s in sessions[1..];
      var head := if SessionShown(sessions[0], now) then SessionJobs(sessions[0], naming) else [];
      assert EquityPart(sessions, now, naming) == head + EquityPart(sessions[1..], now, naming);
      assert job in head <==> ShownSession(sessions[0], now, naming, job);
    }
  }

  /** A UTC trading session opens on its date and closes on that date or the next. */
  predicate OnItsDate(s: Session) {
    s.date * 86400 <= s.opening < s.closing <= (s.date + 2) * 86400
  }

  lemma {:induction false} HoursAreInSession(s: Session, start: int, naming: Naming, job: Job)
    requires job in HoursFrom(s, start, naming)
    ensures start < job.due <= s.closing + FIRST_PUBLISH_OFFSET - HOUR_SECONDS
    decreases s.closing - start
  {
    if job !in HourlyJobs(s, start, naming) {
      HoursAreInSession(s, start + HOUR_SECONDS, naming, job);
    }
  }

  lemma {:induction false} SessionJobsAreNear(s: Session, naming: Naming, job: Job)
    requires job in SessionJobs(s, naming) && s.opening < s.closing
    ensures s.opening < job.due <= s.closing + ETF_DAILY_CLOSE_PUBLISH_OFFSET
  {
    if job in HoursFrom(s, s.opening, naming) {
      HoursAreInSession(s, s.opening, naming, job);
    }
  }

  /** The two-day and three-day margins of the session query are wide enough for the catch-up age. */
  lemma {:induction false} CatchUpSessionIsShown(s: Session, naming: Naming, job: Job, now: int)
    requires OnItsDate(s) && job in SessionJobs(s, naming)
    requires job.due <= now && now - job.due <= MAX_CATCHUP_AGE
    ensures SessionShown(s, now)
  {
    hide SessionJobs;
    SessionJobsAreNear(s, naming, job);
    DayBounds(now);
  }

  lemma {:induction false} DayBounds(t: int)
    ensures (t / 86400) * 86400 <= t < (t / 86400 + 1) * 86400
  {
  }

  lemma {:induction false} CandidateJobsAreLater(start: int, keys: seq<string>, naming: Naming, job: Job)
    requires job in CandidateJobs(start, keys, naming)
    ensures job.due == start + CANDIDATE_FX_PUBLISH
  {
    if job in CandidateJobs(start, keys[1..], naming) {
      CandidateJobsAreLater(start, keys[1..], naming, job);
    }
  }

  /** The FX look-back is one hour wider than the catch-up age, more than the three minutes candidates lag behind. */
  lemma {:induction false} CatchUpFxIsShown(start: int, naming: Naming, job: Job, now: int)
    requires job in FxJobs(start, naming)
    requires job.due <= now && now - job.due <= MAX_CATCHUP_AGE
    ensures FxShown(start + FX_PUBLISH, now)
  {
    if job in CandidateJobs(start, CANDIDATE_KEYS, naming) {
      CandidateJobsAreLater(start, CANDIDATE_KEYS, naming, job);
    }
  }

  /** Every slot there is, whenever it is due. */
  ghost predicate Planned(starts: seq<int>, sessions: seq<Session>, naming: Naming, profile: Profile, s: Slot) {
    exists job, key :: Selects(profile, job, key) && s == SlotOf(job, key) && Offers(starts, sessions, naming, job)
  }

  ghost predicate Offers(starts: seq<int>, sessions: seq<Session>, naming: Naming, job: Job) {
    || (exists start :: start in starts && job in FxJobs(start, naming))
    || (exists s :: s in sessions && job in SessionJobs(s, naming))
  }

  function VisibleJobs(starts: seq<int>, sessions: seq<Session>, now: int, naming: Naming): seq<Job> {
    FxPart(starts, now, naming) + EquityPart(sessions, now, naming)
  }

  lemma {:induction false} VisibleJobsAreOffered(starts: seq<int>, sessions: seq<Session>, now: int,
      naming: Naming, job: Job)
    requires forall s :: s in sessions ==> OnItsDate(s)
    ensures job in VisibleJobs(starts, sessions, now, naming) ==> Offers(starts, sessions, naming, job)
    ensures Offers(starts, sessions, naming, job) && job.due <= now && now - job.due <= MAX_CATCHUP_AGE ==>
      job in VisibleJobs(starts, sessions, now, naming)
  {
    hide FxJobs, SessionJobs, FxPart, EquityPart, FxShown, SessionShown, OnItsDate;
    FxPartHas(starts, now, naming, job);
    EquityPartHas(sessions, now, naming, job);
    if job.due <= now && now - job.due <= MAX_CATCHUP_AGE {
      if start :| start in starts && job in FxJobs(start, naming) {
        CatchUpFxIsShown(start, naming, job, now);
        assert ShownFx(start, now, naming, job);
      }
      if s :| s in sessions && job in SessionJobs(s, naming) {
        CatchUpSessionIsShown(s, naming, job, now);
        assert ShownSession(s, now, naming, job);
      }
    }
  }

  /**
   The schedule of a poll meets what the laws of the daemon ask: nothing but planned slots, and every planned slot
   due within the catch-up age.
   */
  lemma {:induction false} VisibleSlotsCoverCatchUp(starts: seq<int>, sessions: seq<Session>, naming: Naming,
      profile: Profile, now: int, s: Slot)
    requires forall s :: s in sessions ==> OnItsDate(s)
    ensures var visible := Scoped(VisibleJobs(starts, sessions, now, naming), profile);
      && (s in visible ==> Planned(starts, sessions, naming, profile, s))
      && (Planned(starts, sessions, naming, profile, s) && InCatchUp(s, now) ==> s in visible)
  {
    hide VisibleJobs, Offers, Scoped, Selects;
    var jobs := VisibleJobs(starts, sessions, now, naming);
    ScopedSlotsAre(jobs, profile, s);
    if s in Scoped(jobs, profile) {
      var job, key :| job in jobs && Selects(profile, job, key) && s == SlotOf(job, key);
      VisibleJobsAreOffered(starts, sessions, now, naming, job);
    }
    if Planned(starts, sessions, naming, profile, s) && InCatchUp(s, now) {
      var job, key :| Selects(profile, job, key) && s == SlotOf(job, key) && Offers(starts, sessions, naming, job);
      VisibleJobsAreOffered(starts, sessions, now, naming, job);
    }
  }

  /** So the polls of a daemon on the built schedule are polls of one fixed schedule. */
  lemma {:induction false} BuiltScheduleShows(starts: seq<int>, sessions: seq<Session>, naming: Naming,
      profile: Profile, schedule: set<Slot>, poll: Poll)
    requires forall s :: s in sessions ==> OnItsDate(s)
    requires forall s :: s in schedule <==> Planned(starts, sessions, naming, profile, s)
    requires forall s :: s in poll.slots <==> s in Scoped(VisibleJobs(starts, sessions, poll.now, naming), profile)
    ensures Shows(schedule, poll)
  {
    hide Planned, Scoped, VisibleJobs, OnItsDate, InCatchUp;
    forall s: Slot
      ensures (s in poll.slots ==> s in schedule) && (s in schedule && InCatchUp(s, poll.now) ==> s in poll.slots)
    {
      VisibleSlotsCoverCatchUp(starts, sessions, naming, profile, poll.now, s);
    }
  }

  // ---- A lane has one slot a due time ----

  /** The sessions of the exchange do not overlap. */
  ghost predicate Disjoint(sessions: seq<Session>) {
    && (forall s :: s in sessions ==> s.opening < s.closing)
    && (forall s, r :: s in sessions && r in sessions && s != r ==> s.closing <= r.opening || r.closing <= s.opening)
  }

  /** The six kinds of jobs, each with what its due time is counted from. */
  ghost predicate FxHour(job: Job, start: int, naming: Naming) { job == FxJobs(start, naming)[0] }

  ghost predicate Candidate(job: Job, start: int, key: string, naming: Naming) {
    job == Job("fx-research-" + key + "-" + naming.time(start + CANDIDATE_FX_PUBLISH),
      "fx_research_candidates_hourly", start + CANDIDATE_FX_PUBLISH, [key])
  }

  ghost predicate SessionHour(job: Job, s: Session, start: int, naming: Naming) {
    && s.opening <= start && start + HOUR_SECONDS <= s.closing && (start - s.opening) % HOUR_SECONDS == 0
    && job in HourlyJobs(s, start, naming)
  }

  ghost predicate SessionClose(job: Job, s: Session, naming: Naming) {
    job == Job("etf-daily-close-" + naming.date(s.date), "etf_daily_close", s.closing + ETF_DAILY_CLOSE_PUBLISH_OFFSET,
      EQUITY_REIT_KEYS + BOND_CREDIT_KEYS + GOLD_KEYS)
  }

  lemma {:induction false} CandidateForm(start: int, keys: seq<string>, naming: Naming, job: Job)
    requires job in CandidateJobs(start, keys, naming)
    ensures exists key :: key in keys && Candidate(job, start, key, naming)
  {
    if job in CandidateJobs(start, keys[1..], naming) {
      CandidateForm(start, keys[1..], naming, job);
      var key :| key in keys[1..] && Candidate(job, start, key, naming);
      assert key in keys;
    } else {
      assert Candidate(job, start, keys[0], naming);
    }
  }

  lemma {:induction false} HourForm(s: Session, start: int, naming: Naming, job: Job)
    requires job in HoursFrom(s, start, naming) && s.opening <= start && (start - s.opening) % HOUR_SECONDS == 0
    ensures exists hour :: SessionHour(job, s, hour, naming)
    decreases s.closing - start
  {
    if job in HourlyJobs(s, start, naming) {
      assert SessionHour(job, s, start, naming);
    } else {
      HourForm(s, start + HOUR_SECONDS, naming, job);
    }
  }

  ghost predicate SomeFx(job: Job, naming: Naming) { exists start :: FxHour(job, start, naming) }

  ghost predicate SomeCandidate(job: Job, naming: Naming) { exists start, key :: Candidate(job, start, key, naming) }

  ghost predicate SomeHour(job: Job, sessions: seq<Session>, naming: Naming) {
    exists s, start :: s in sessions && SessionHour(job, s, start, naming)
  }

  ghost predicate SomeClose(job: Job, sessions: seq<Session>, naming: Naming) {
    exists s :: s in sessions && SessionClose(job, s, naming)
  }

  lemma {:induction false} JobForms(starts: seq<int>, sessions: seq<Session>, naming: Naming, job: Job)
    requires Offers(starts, sessions, naming, job)
    ensures SomeFx(job, naming) || SomeCandidate(job, naming) || SomeHour(job, sessions, naming)
      || SomeClose(job, sessions, naming)
  {
    hide Candidate, SessionHour;
    if start :| start in starts && job in FxJobs(start, naming) {
      if job in CandidateJobs(start, CANDIDATE_KEYS, naming) {
        CandidateForm(start, CANDIDATE_KEYS, naming, job);
      } else {
        assert FxHour(job, start, naming);
      }
    } else {
      var s :| s in sessions && job in SessionJobs(s, naming);
      if job in HoursFrom(s, s.opening, naming) {
        HourForm(s, s.opening, naming, job);
      } else {
        assert SessionClose(job, s, naming);
      }
    }
  }

  /** A kind tells the form of its jobs. */
  lemma {:induction false} KindTellsForm(sessions: seq<Session>, naming: Naming, job: Job)
    ensures SomeFx(job, naming) ==> |job.kind| == 9
    ensures SomeCandidate(job, naming) ==> |job.kind| == 29
    ensures SomeHour(job, sessions, naming) ==>
      |job.kind| == 17 || |job.kind| == 22 || (|job.kind| == 15 && job.kind[0] == 'g')
    ensures SomeClose(job, sessions, naming) ==> |job.kind| == 15 && job.kind[0] == 'e'
  {
  }

  lemma {:induction false} OneFx(a: Job, b: Job, naming: Naming)
    requires SomeFx(a, naming) && SomeFx(b, naming) && a.due == b.due
    ensures a == b
  {
  }

  lemma {:induction false} OneCandidate(a: Job, b: Job, key: string, naming: Naming)
    requires SomeCandidate(a, naming) && SomeCandidate(b, naming) && a.due == b.due && key in a.keys && key in b.keys
    ensures a == b
  {
  }

  lemma {:induction false} OneHour(a: Job, b: Job, sessions: seq<Session>, naming: Naming)
    requires Disjoint(sessions) && SomeHour(a, sessions, naming) && SomeHour(b, sessions, naming)
    requires a.due == b.due && a.kind == b.kind
    ensures a == b
  {
    var s, start :| s in sessions && SessionHour(a, s, start, naming);
    var r, hour :| r in sessions && SessionHour(b, r, hour, naming);
    assert start == hour;
    assert s == r;
    HourOfKind(s, start, naming, a, b);
  }

  lemma {:induction false} HourOfKind(s: Session, start: int, naming: Naming, a: Job, b: Job)
    requires a in HourlyJobs(s, start, naming) && b in HourlyJobs(s, start, naming) && a.kind == b.kind
    ensures a == b
  {
    var jobs := HourlyJobs(s, start, naming);
    assert |jobs[0].kind| == 17 && |jobs[1].kind| == 22 && |jobs[2].kind| == 15;
  }

  lemma {:induction false} OneClose(a: Job, b: Job, sessions: seq<Session>, naming: Naming)
    requires Disjoint(sessions) && SomeClose(a, sessions, naming) && SomeClose(b, sessions, naming) && a.due == b.due
    ensures a == b
  {
    var s :| s in sessions && SessionClose(a, s, naming);
    var r :| r in sessions && SessionClose(b, r, naming);
    assert s == r;
  }

  lemma {:induction false} OneJob(starts: seq<int>, sessions: seq<Session>, naming: Naming, a: Job, b: Job, key: string)
    requires Disjoint(sessions) && Offers(starts, sessions, naming, a) && Offers(starts, sessions, naming, b)
    requires a.due == b.due && a.kind == b.kind && key in a.keys && key in b.keys
    ensures a == b
  {
    hide Offers, Disjoint, SomeFx, SomeCandidate, SomeHour, SomeClose;
    JobForms(starts, sessions, naming, a);
    JobForms(starts, sessions, naming, b);
    KindTellsForm(sessions, naming, a);
    KindTellsForm(sessions, naming, b);
    if SomeFx(a, naming) {
      OneFx(a, b, naming);
    } else if SomeCandidate(a, naming) {
      OneCandidate(a, b, key, naming);
    } else if SomeHour(a, sessions, naming) {
      OneHour(a, b, sessions, naming);
    } else {
      OneClose(a, b, sessions, naming);
    }
  }

  /** Where ids identify slots and sessions do not overlap, the planned slots form a schedule as the laws ask. */
  lemma {:induction false} PlannedIsDistinct(starts: seq<int>, sessions: seq<Session>, naming: Naming,
      profile: Profile, schedule: set<Slot>)
    requires Disjoint(sessions)
    requires forall s :: s in schedule <==> Planned(starts, sessions, naming, profile, s)
    requires forall a, b :: a in schedule && b in schedule && a.id == b.id ==> a == b
    ensures Distinct(schedule)
  {
    hide Offers, Disjoint;
    forall a, b | a in schedule && b in schedule && SameLane(a, b) && a.due == b.due ensures a == b {
      var job, key :| Selects(profile, job, key) && a == SlotOf(job, key) && Offers(starts, sessions, naming, job);
      var other, k :| Selects(profile, other, k) && b == SlotOf(other, k) && Offers(starts, sessions, naming, other);
      assert key in b.keys;
      OneJob(starts, sessions, naming, job, other, key);
    }
  }

  /** Every poll shows the slots built around its time, and the clock never runs back. */
  ghost predicate BuiltPolls(starts: seq<int>, sessions: seq<Session>, naming: Naming, profile: Profile,
      polls: seq<Poll>)
  {
    && (forall i, s :: 0 <= i < |polls| ==>
          (s in polls[i].slots <==> s in Scoped(VisibleJobs(starts, sessions, polls[i].now, naming), profile)))
    && (forall i, j :: 0 <= i < j < |polls| ==> polls[i].now <= polls[j].now)
  }

  /** So a daemon on the schedule as it is built makes progress in every lane. */
  lemma {:induction false} BuiltScheduleMakesProgress(starts: seq<int>, sessions: seq<Session>, naming: Naming,
      profile: Profile, schedule: set<Slot>, polls: seq<Poll>, i: nat, j: nat)
    requires Disjoint(sessions) && forall s :: s in sessions ==> OnItsDate(s)
    requires forall s :: s in schedule <==> Planned(starts, sessions, naming, profile, s)
    requires forall a, b :: a in schedule && b in schedule && a.id == b.id ==> a == b
    requires BuiltPolls(starts, sessions, naming, profile, polls) && i < j < |polls|
    requires ExecutedAt(STARTED, polls, i).Some? && ExecutedAt(STARTED, polls, j).Some?
    requires SameLane(ExecutedAt(STARTED, polls, i).value, ExecutedAt(STARTED, polls, j).value)
    ensures ExecutedAt(STARTED, polls, i).value.due <= ExecutedAt(STARTED, polls, j).value.due
    ensures PassedAt(STARTED, polls, i) ==>
      ExecutedAt(STARTED, polls, i).value.due < ExecutedAt(STARTED, polls, j).value.due
  {
    hide Planned, Scoped, VisibleJobs, Disjoint, OnItsDate, Executed, Run, Distinct, Shows, SameLane;
    PlannedIsDistinct(starts, sessions, naming, profile, schedule);
    forall k | 0 <= k < |polls| ensures Shows(schedule, polls[k]) {
      BuiltScheduleShows(starts, sessions, naming, profile, schedule, polls[k]);
    }
    FreshIsClosed(schedule, polls[0].now);
    LaneProgress(schedule, STARTED, polls, i, j);
  }
}
