/** The plan of the scheduler slot by slot: which slots there are, under which ids, and when each is due and shown. */
module PlannedSlots {
  import opened Schedule
  import opened Scheduler
  import Imputation

  const MINUTE := 60

  /** The slot of one instrument of a publication, where the profile takes the kind and the instrument. */
  predicate IsSlot(profile: Profile, id: string, kind: string, due: int, key: string, s: Slot) {
    kind in profile.kinds && key in profile.included && s == Slot(id + "-" + key, kind, due, {key})
  }

  predicate FxKey(key: string) { key == "eurusd" || key == "usdjpy" }

  predicate CandidateKey(key: string) { key == "audusd" || key == "usdcad" || key == "usdchf" }

  predicate EquityKey(key: string) {
    key == "spy" || key == "iwm" || key == "efa" || key == "eem" || key == "vnq"
  }

  predicate BondKey(key: string) { key == "shy" || key == "ief" || key == "tlt" || key == "tip" || key == "lqd" }

  predicate EtfKey(key: string) { EquityKey(key) || BondKey(key) || key == "gld" }

  lemma {:induction false} KeysOfKinds(key: string)
    ensures key in FX_KEYS <==> FxKey(key)
    ensures key in CANDIDATE_KEYS <==> CandidateKey(key)
    ensures key in EQUITY_REIT_KEYS <==> EquityKey(key)
    ensures key in BOND_CREDIT_KEYS <==> BondKey(key)
    ensures key in GOLD_KEYS <==> key == "gld"
    ensures key in EQUITY_REIT_KEYS + BOND_CREDIT_KEYS + GOLD_KEYS <==> EtfKey(key)
  {
  }

  /** The whole hour number `n` of a session: due fifteen seconds after its end. */
  predicate WholeHour(session: Session, n: nat) { session.held && session.opening + 3600 * (n + 1) <= session.closing }

  ghost predicate HourSlot(session: Session, n: nat, naming: Naming, profile: Profile, key: string, s: Slot) {
    var stamp, due :=
      naming.date(session.date) + "-" + naming.time(session.opening + 3600 * n), session.opening + 3600 * (n + 1) + 15;
    || (EquityKey(key) && IsSlot(profile, "equity-" + stamp, "equity_regular_1h", due, key, s))
    || (BondKey(key) && IsSlot(profile, "bond-credit-" + stamp, "bond_credit_regular_1h", due, key, s))
    || (key == "gld" && IsSlot(profile, "gold-" + stamp, "gold_regular_1h", due, key, s))
  }

  // ---- Jobs ----

  ghost predicate FxJob(start: int, naming: Naming, job: Job) {
    job == Job("fx-" + naming.time(start + 63 * MINUTE), "fx_hourly", start + 63 * MINUTE, FX_KEYS)
  }

  ghost predicate CandidateJob(start: int, key: string, naming: Naming, job: Job) {
    job == Job("fx-research-" + key + "-" + naming.time(start + 66 * MINUTE), "fx_research_candidates_hourly",
      start + 66 * MINUTE, [key])
  }

  lemma {:induction false} CandidateJobsAre(start: int, keys: seq<string>, naming: Naming, job: Job)
    ensures job in CandidateJobs(start, keys, naming) <==>
        exists key :: key in keys && CandidateJob(start, key, naming, job)
  {
    if keys != [] {
      CandidateJobsAre(start, keys[1..], naming, job);
      assert keys == [keys[0]] + keys[1..];
      assert forall key :: key in keys <==> key == keys[0] || key in keys[1..];
      assert CandidateJob(start, keys[0], naming, job) <==> job == CandidateJobs(start, keys, naming)[0];
    }
  }

  lemma {:induction false} FxJobsAre(start: int, naming: Naming, job: Job)
    ensures job in FxJobs(start, naming) <==>
        FxJob(start, naming, job) || exists key :: CandidateKey(key) && CandidateJob(start, key, naming, job)
  {
    CandidateJobsAre(start, CANDIDATE_KEYS, naming, job);
    forall key ensures key in CANDIDATE_KEYS <==> CandidateKey(key) {
      KeysOfKinds(key);
    }
  }

  ghost predicate InHour(session: Session, start: int, n: nat, naming: Naming, job: Job) {
    start + 3600 * (n + 1) <= session.closing && job in HourlyJobs(session, start + 3600 * n, naming)
  }

  ghost predicate InSomeHour(session: Session, start: int, naming: Naming, job: Job) {
    exists n: nat :: InHour(session, start, n, naming, job)
  }

  lemma {:induction false} HoursFromAre(session: Session, start: int, naming: Naming, job: Job)
    ensures job in HoursFrom(session, start, naming) <==> InSomeHour(session, start, naming, job)
    decreases session.closing - start
  {
    hide HourlyJobs;
    if start + 3600 <= session.closing {
      HoursFromAre(session, start + 3600, naming, job);
      HoursShift(session, start, start + 3600, naming, job);
    }
  }

  lemma {:induction false} HoursShift(session: Session, start: int, next: int, naming: Naming, job: Job)
    requires next == start + 3600 <= session.closing
    ensures InSomeHour(session, start, naming, job) <==>
      job in HourlyJobs(session, start, naming) || InSomeHour(session, next, naming, job)
  {
    hide HourlyJobs;
    if InSomeHour(session, next, naming, job) {
      var n: nat :| InHour(session, next, n, naming, job);
      assert InHour(session, start, n + 1, naming, job);
    }
    if InSomeHour(session, start, naming, job) {
      var n: nat :| InHour(session, start, n, naming, job);
      assert n > 0 ==> InHour(session, next, n - 1, naming, job);
    }
    assert job in HourlyJobs(session, start, naming) ==> InHour(session, start, 0, naming, job);
  }

  /** The slot of a job for one of its instruments. */
  predicate TakesFrom(profile: Profile, job: Job, key: string, s: Slot) {
    key in job.keys && IsSlot(profile, job.id, job.kind, job.due, key, s)
  }

  ghost predicate TakesOne(profile: Profile, jobs: seq<Job>, s: Slot) {
    exists job, key :: job in jobs && TakesFrom(profile, job, key, s)
  }

  ghost predicate SomeHourSlot(session: Session, n: nat, naming: Naming, profile: Profile, s: Slot) {
    exists key :: HourSlot(session, n, naming, profile, key, s)
  }

  lemma {:induction false} HourSlotIs(session: Session, n: nat, naming: Naming, profile: Profile, s: Slot)
    ensures TakesOne(profile, HourlyJobs(session, session.opening + 3600 * n, naming), s)
      <==> SomeHourSlot(session, n, naming, profile, s)
  {
    var jobs := HourlyJobs(session, session.opening + 3600 * n, naming);
    forall key ensures HourSlot(session, n, naming, profile, key, s) <==>
        TakesFrom(profile, jobs[0], key, s) || TakesFrom(profile, jobs[1], key, s)
            || TakesFrom(profile, jobs[2], key, s)
    {
      KeysOfKinds(key);
    }
    assert jobs[0] in jobs && jobs[1] in jobs && jobs[2] in jobs;
    assert forall job :: job in jobs <==> job == jobs[0] || job == jobs[1] || job == jobs[2];
  }

  function CloseJob(session: Session, naming: Naming): Job {
    Job("etf-daily-close-" + naming.date(session.date), "etf_daily_close", session.closing + 45 * MINUTE,
      EQUITY_REIT_KEYS + BOND_CREDIT_KEYS + GOLD_KEYS)
  }

  lemma {:induction false} SessionJobsAre(session: Session, naming: Naming, job: Job)
    ensures job in SessionJobs(session, naming) <==>
      session.held && (job == CloseJob(session, naming) || InSomeHour(session, session.opening, naming, job))
  {
    hide HoursFrom;
    HoursFromAre(session, session.opening, naming, job);
  }

  ghost predicate HourOf(session: Session, naming: Naming, profile: Profile, s: Slot) {
    exists n: nat :: WholeHour(session, n) && SomeHourSlot(session, n, naming, profile, s)
  }

  /** One slot of every exchange instrument, forty-five minutes after the close. */
  ghost predicate CloseOf(session: Session, naming: Naming, profile: Profile, s: Slot) {
    session.held && exists key :: EtfKey(key) && IsClose(session, naming, profile, key, s)
  }

  predicate IsClose(session: Session, naming: Naming, profile: Profile, key: string, s: Slot) {
    IsSlot(profile, "etf-daily-close-" + naming.date(session.date), "etf_daily_close", session.closing + 45 * MINUTE,
      key, s)
  }

  lemma {:induction false} CloseSlotsAre(session: Session, naming: Naming, profile: Profile, s: Slot)
    ensures session.held && (exists key :: TakesFrom(profile, CloseJob(session, naming), key, s))
      <==> CloseOf(session, naming, profile, s)
  {
    hide EtfKey, IsSlot;
    var close := CloseJob(session, naming);
    forall key ensures key in close.keys <==> EtfKey(key) {
      KeysOfKinds(key);
    }
    forall key ensures TakesFrom(profile, close, key, s) <==> EtfKey(key) && IsClose(session, naming, profile, key, s) {
    }
  }

  lemma {:induction false} SessionSlotsAre(session: Session, naming: Naming, profile: Profile, s: Slot)
    ensures TakesOne(profile, SessionJobs(session, naming), s) <==>
      HourOf(session, naming, profile, s) || CloseOf(session, naming, profile, s)
  {
    hide HourSlot, HourlyJobs, SessionJobs, TakesFrom, CloseJob, CloseOf, SomeHourSlot;
    CloseSlotsAre(session, naming, profile, s);
    var close := CloseJob(session, naming);
    if TakesOne(profile, SessionJobs(session, naming), s) {
      var job, key :| job in SessionJobs(session, naming) && TakesFrom(profile, job, key, s);
      SessionJobsAre(session, naming, job);
      if job != close {
        var n: nat :| InHour(session, session.opening, n, naming, job);
        HourSlotIs(session, n, naming, profile, s);
        assert WholeHour(session, n);
      }
    }
    if HourOf(session, naming, profile, s) {
      var n: nat :| WholeHour(session, n) && SomeHourSlot(session, n, naming, profile, s);
      HourSlotIs(session, n, naming, profile, s);
      var job, key :| job in HourlyJobs(session, session.opening + 3600 * n, naming) && TakesFrom(profile, job, key, s);
      assert InHour(session, session.opening, n, naming, job);
      SessionJobsAre(session, naming, job);
    }
    SessionJobsAre(session, naming, close);
  }

  /** An hour is published sixty-three minutes after its start, a candidate's sixty-six. */
  ghost predicate FxOf(start: int, naming: Naming, profile: Profile, s: Slot) {
    exists key :: FxKey(key) && IsFx(start, naming, profile, key, s)
  }

  predicate IsFx(start: int, naming: Naming, profile: Profile, key: string, s: Slot) {
    IsSlot(profile, "fx-" + naming.time(start + 63 * MINUTE), "fx_hourly", start + 63 * MINUTE, key, s)
  }

  ghost predicate CandidateOf(start: int, naming: Naming, profile: Profile, s: Slot) {
    exists key :: CandidateKey(key) && IsCandidate(start, naming, profile, key, s)
  }

  predicate IsCandidate(start: int, naming: Naming, profile: Profile, key: string, s: Slot) {
    IsSlot(profile, "fx-research-" + key + "-" + naming.time(start + 66 * MINUTE), "fx_research_candidates_hourly",
      start + 66 * MINUTE, key, s)
  }

  lemma {:induction false} FxSlotsAre(start: int, naming: Naming, profile: Profile, s: Slot)
    ensures TakesOne(profile, FxJobs(start, naming), s) <==>
      FxOf(start, naming, profile, s) || CandidateOf(start, naming, profile, s)
  {
    hide FxJobs, CandidateKey, FxKey, IsSlot;
    forall job ensures job in FxJobs(start, naming) <==>
        FxJob(start, naming, job) || exists key :: CandidateKey(key) && CandidateJob(start, key, naming, job)
    {
      FxJobsAre(start, naming, job);
    }
    forall key ensures key in FX_KEYS <==> FxKey(key) {
      KeysOfKinds(key);
    }
    var fx := Job("fx-" + naming.time(start + 63 * MINUTE), "fx_hourly", start + 63 * MINUTE, FX_KEYS);
    assert FxJob(start, naming, fx);
    if key :| FxKey(key) && IsFx(start, naming, profile, key, s) {
      assert TakesFrom(profile, fx, key, s);
    }
    if key :| CandidateKey(key) && IsCandidate(start, naming, profile, key, s) {
      var job := Job("fx-research-" + key + "-" + naming.time(start + 66 * MINUTE), "fx_research_candidates_hourly",
        start + 66 * MINUTE, [key]);
      assert CandidateJob(start, key, naming, job) && TakesFrom(profile, job, key, s);
    }
  }

  // ---- The plan ----

  lemma {:induction false} PlannedIsTaken(starts: seq<int>, sessions: seq<Session>, naming: Naming, profile: Profile,
      s: Slot)
    ensures Planned(starts, sessions, naming, profile, s) <==>
      || (exists start :: start in starts && TakesOne(profile, FxJobs(start, naming), s))
      || (exists session :: session in sessions && TakesOne(profile, SessionJobs(session, naming), s))
  {
    hide FxJobs, SessionJobs;
    if job, key :| Selects(profile, job, key) && s == SlotOf(job, key) && Offers(starts, sessions, naming, job) {
      assert TakesFrom(profile, job, key, s);
    }
    if start :| start in starts && TakesOne(profile, FxJobs(start, naming), s) {
      var job, key :| job in FxJobs(start, naming) && TakesFrom(profile, job, key, s);
      assert Selects(profile, job, key) && s == SlotOf(job, key) && Offers(starts, sessions, naming, job);
    }
    if session :| session in sessions && TakesOne(profile, SessionJobs(session, naming), s) {
      var job, key :| job in SessionJobs(session, naming) && TakesFrom(profile, job, key, s);
      assert Selects(profile, job, key) && s == SlotOf(job, key) && Offers(starts, sessions, naming, job);
    }
  }

  /**
   The whole plan: the hours of the two FX pairs and of the three candidates, the whole hours of every session that is
   held, by group of exchange instruments, and one close of each of the eleven; nothing else, each as the profile
   takes it.
   */
  lemma {:induction false} PlannedExactly(starts: seq<int>, sessions: seq<Session>, naming: Naming, profile: Profile,
      s: Slot)
    ensures Planned(starts, sessions, naming, profile, s) <==>
      || (exists start :: start in starts && FxOf(start, naming, profile, s))
      || (exists start :: start in starts && CandidateOf(start, naming, profile, s))
      || (exists session :: session in sessions && HourOf(session, naming, profile, s))
      || (exists session :: session in sessions && CloseOf(session, naming, profile, s))
  {
    hide FxOf, CandidateOf, HourOf, CloseOf, TakesOne, Planned;
    PlannedIsTaken(starts, sessions, naming, profile, s);
    forall start: int
      ensures TakesOne(profile, FxJobs(start, naming), s) <==>
        FxOf(start, naming, profile, s) || CandidateOf(start, naming, profile, s)
    {
      FxSlotsAre(start, naming, profile, s);
    }
    forall session: Session
      ensures TakesOne(profile, SessionJobs(session, naming), s) <==>
        HourOf(session, naming, profile, s) || CloseOf(session, naming, profile, s)
    {
      SessionSlotsAre(session, naming, profile, s);
    }
  }

  // ---- What a poll is shown of it ----

  /** FX hours published from seven hours ago to four hours ahead; sessions dated from two days back to three ahead. */
  lemma {:induction false} ShownExactly(starts: seq<int>, sessions: seq<Session>, now: int, naming: Naming, job: Job)
    ensures job in VisibleJobs(starts, sessions, now, naming) <==>
      || (exists start :: start in starts && NearFx(start, now) && job in FxJobs(start, naming))
      || (exists session :: session in sessions && NearSession(session, now) && job in SessionJobs(session, naming))
  {
    hide FxJobs, SessionJobs;
    FxPartHas(starts, now, naming, job);
    EquityPartHas(sessions, now, naming, job);
    forall start ensures ShownFx(start, now, naming, job) <==> NearFx(start, now) && job in FxJobs(start, naming) {
    }
    forall session
      ensures ShownSession(session, now, naming, job) <==>
        NearSession(session, now) && job in SessionJobs(session, naming)
    {
      DayBounds(now);
    }
  }

  predicate NearFx(start: int, now: int) { now - 7 * 3600 <= start + 63 * MINUTE <= now + 4 * 3600 }

  /** Two days back at most and three days ahead, from the day `now` lies in. */
  predicate NearSession(session: Session, now: int) {
    86400 * (session.date - 3) <= now < 86400 * (session.date + 3)
  }

  // ---- The instruments ----

  /** The imputation planner covers the instruments whose daily close is planned. */
  lemma {:induction false} ImputationCoversTheCloses(key: string)
    ensures key in Imputation.C2_ETF_KEYS <==> EtfKey(key)
  {
  }
}
