/** Backup retention: seven daily and four weekly generations for each database. */
module Retention {
  import opened Sets
  import opened Types

  datatype Database = SaxoMarket | SaxoResearch | SaxoForward

  const DAILY_KEEP: nat := 7
  const WEEKLY_KEEP: nat := 4
  const DAY := 86400

  /** A recognised backup file. Its name, and so its identity, is the database and the second it was made. */
  datatype Backup = Backup(database: Database, created: int)

  /** A file in the backup directory; names outside the naming contract parse to None. */
  datatype File = File(name: string, parsed: Option<Backup>)

  /** How created times are grouped, and how many groups a database keeps. */
  datatype Rule = Rule(bucket: int -> int, limit: nat)

  /** Calendar days in UTC, counted from Thursday 1 January 1970. */
  const DAILY := Rule((created: int) => created / DAY, DAILY_KEEP)

  /** ISO 8601 weeks, section 4.1.4 of ISO 8601:2004: seven days each, starting on a Monday. */
  const WEEKLY := Rule((created: int) => (created / DAY + 3) / 7, WEEKLY_KEEP)

  function Bucket(p: Rule, b: Backup): int { p.bucket(b.created) }

  /** Later times never fall into earlier groups. */
  ghost predicate Ordered(p: Rule) {
    forall s, t :: s <= t ==> p.bucket(s) <= p.bucket(t)
  }

  lemma {:induction false} BothRulesAreOrdered()
    ensures Ordered(DAILY) && Ordered(WEEKLY)
  {
  }

  // ---- What retention promises, said without the algorithm ----

  function NewerBuckets(p: Rule, history: set<Backup>, b: Backup): set<int> {
    set c | c in history && c.database == b.database && Bucket(p, b) < Bucket(p, c) :: Bucket(p, c)
  }

  predicate NewestOfBucket(p: Rule, history: set<Backup>, b: Backup) {
    forall c :: c in history && c.database == b.database && Bucket(p, c) == Bucket(p, b) ==> c.created <= b.created
  }

  /** `b` is the newest backup of one of the most recent days (or weeks) that have a backup. */
  predicate Represents(p: Rule, history: set<Backup>, b: Backup) {
    && b in history
    && NewestOfBucket(p, history, b)
    && |NewerBuckets(p, history, b)| < p.limit
  }

  function Kept(history: set<Backup>): set<Backup> {
    set b | b in history && (Represents(DAILY, history, b) || Represents(WEEKLY, history, b))
  }

  // ---- Online pruning equals one run over the full history ----

  /** Keeping is inherited by smaller histories: a backup that is kept among more is kept among fewer. */
  lemma {:induction false} KeptAmongFewer(p: Rule, fewer: set<Backup>, more: set<Backup>, b: Backup)
    requires fewer <= more && b in fewer && Represents(p, more, b)
    ensures Represents(p, fewer, b)
  {
    SubsetSize(NewerBuckets(p, fewer, b), NewerBuckets(p, more, b));
  }

  /** Every day or week of a history has a newest backup. */
  lemma {:induction false} NewestExists(p: Rule, history: set<Backup>, b: Backup) returns (newest: Backup)
    requires b in history
    ensures newest in history && newest.database == b.database && Bucket(p, newest) == Bucket(p, b)
    ensures NewestOfBucket(p, history, newest)
    decreases |history|
  {
    if NewestOfBucket(p, history, b) {
      newest := b;
    } else {
      var c :| c in history && c.database == b.database && Bucket(p, c) == Bucket(p, b) && b.created < c.created;
      var rest := history - {b};
      newest := NewestExists(p, rest, c);
      assert history == rest + {b};
    }
  }

  /** The oldest bucket that is still newer than `b`, shown by one of its members. */
  lemma {:induction false} NextNewer(p: Rule, history: set<Backup>, b: Backup) returns (c: Backup)
    requires NewerBuckets(p, history, b) != {}
    ensures c in history && c.database == b.database && Bucket(p, b) < Bucket(p, c)
    ensures NewerBuckets(p, history, c) == NewerBuckets(p, history, b) - {Bucket(p, c)}
  {
    var newer := NewerBuckets(p, history, b);
    var x :| x in newer;
    var lowest := LeastOf(newer, x);
    c :| c in history && c.database == b.database && Bucket(p, b) < Bucket(p, c) && Bucket(p, c) == lowest;
  }

  /** The most recent days (weeks) of a history all have a member in what is kept. */
  lemma {:induction false} RecentBucketsSurvive(p: Rule, history: set<Backup>, b: Backup)
    requires p == DAILY || p == WEEKLY
    requires b in history
    requires |NewerBuckets(p, history, b)| < p.limit
    ensures exists k :: k in Kept(history) && k.database == b.database && Bucket(p, k) == Bucket(p, b)
  {
    var newest := NewestExists(p, history, b);
    assert NewerBuckets(p, history, newest) == NewerBuckets(p, history, b);
    assert Represents(p, history, newest);
    assert newest in Kept(history);
  }

  lemma {:induction false} ExactlyTheLimitSurvives(p: Rule, kept: set<Backup>, history: set<Backup>, b: Backup)
    requires p == DAILY || p == WEEKLY
    requires Kept(history) <= kept <= history
    requires |NewerBuckets(p, history, b)| == p.limit
    ensures |NewerBuckets(p, kept, b)| >= p.limit
  {
    var newer := NewerBuckets(p, history, b);
    forall n | n in newer ensures n in NewerBuckets(p, kept, b) {
      var d :| d in history && d.database == b.database && Bucket(p, b) < Bucket(p, d) && Bucket(p, d) == n;
      assert NewerBuckets(p, history, d) <= newer - {n};
      SubsetSize(NewerBuckets(p, history, d), newer - {n});
      RecentBucketsSurvive(p, history, d);
    }
    SubsetSize(newer, NewerBuckets(p, kept, b));
  }

  lemma {:induction false} NewerBucketsSurvive(p: Rule, kept: set<Backup>, history: set<Backup>, b: Backup)
    requires p == DAILY || p == WEEKLY
    requires Kept(history) <= kept <= history
    requires |NewerBuckets(p, history, b)| >= p.limit
    ensures |NewerBuckets(p, kept, b)| >= p.limit
    decreases |NewerBuckets(p, history, b)|
  {
    if |NewerBuckets(p, history, b)| == p.limit {
      ExactlyTheLimitSurvives(p, kept, history, b);
    } else {
      var c := NextNewer(p, history, b);
      NewerBucketsSurvive(p, kept, history, c);
      SubsetSize(NewerBuckets(p, kept, c), NewerBuckets(p, kept, b));
    }
  }

  /** If nothing in `kept` displaces `b`, nothing in the full history does. */
  lemma {:induction false} NothingMissing(p: Rule, kept: set<Backup>, history: set<Backup>, b: Backup)
    requires p == DAILY || p == WEEKLY
    requires Kept(history) <= kept <= history && Represents(p, kept, b)
    ensures Represents(p, history, b)
  {
    if |NewerBuckets(p, history, b)| >= p.limit {
      NewerBucketsSurvive(p, kept, history, b);
    }
    var newest := NewestExists(p, history, b);
    assert NewerBuckets(p, history, newest) == NewerBuckets(p, history, b);
    assert Represents(p, history, newest);
    assert newest in kept;
    assert newest == b;
  }

  lemma {:induction false} SandwichedRepresentatives(p: Rule, kept: set<Backup>, history: set<Backup>, b: Backup)
    requires p == DAILY || p == WEEKLY
    requires Kept(history) <= kept <= history && b in kept
    ensures Represents(p, kept, b) <==> Represents(p, history, b)
  {
    if Represents(p, kept, b) { NothingMissing(p, kept, history, b); }
    if Represents(p, history, b) { KeptAmongFewer(p, kept, history, b); }
  }

  /** Any set between what is kept and the full history leads to the same decision. */
  lemma {:induction false} SandwichedHistoriesAgree(kept: set<Backup>, history: set<Backup>)
    requires Kept(history) <= kept <= history
    ensures Kept(kept) == Kept(history)
  {
    forall b | b in kept ensures b in Kept(kept) <==> b in Kept(history) {
      SandwichedRepresentatives(DAILY, kept, history, b);
      SandwichedRepresentatives(WEEKLY, kept, history, b);
    }
  }

  /** Pruning first never loses a backup that a later arrival leaves worth keeping. */
  lemma {:induction false} ArrivalsOnlyDisplace(history: set<Backup>, added: set<Backup>)
    ensures Kept(history + added) <= Kept(history) + added
  {
    forall b | b in Kept(history + added) && b in history ensures b in Kept(history) {
      if Represents(DAILY, history + added, b) {
        KeptAmongFewer(DAILY, history, history + added, b);
      } else {
        KeptAmongFewer(WEEKLY, history, history + added, b);
      }
    }
  }

  lemma {:induction false} Idempotent(history: set<Backup>)
    ensures Kept(Kept(history)) == Kept(history)
  {
    SandwichedHistoriesAgree(Kept(history), history);
  }

  /** One day in the life of the backup directory: new files arrive, and retention may be applied. */
  datatype Event = Arrive(files: set<Backup>) | Prune

  function Directory(start: set<Backup>, events: seq<Event>): set<Backup> {
    if events == [] then start
    else
      var before := Directory(start, events[..|events| - 1]);
      match events[|events| - 1]
      case Arrive(files) => before + files
      case Prune => Kept(before)
  }

  function EverSeen(start: set<Backup>, events: seq<Event>): set<Backup> {
    if events == [] then start
    else
      var before := EverSeen(start, events[..|events| - 1]);
      match events[|events| - 1]
      case Arrive(files) => before + files
      case Prune => before
  }

  /**
   Whenever and however often retention ran, and in whatever order backups arrived, a run now keeps
   exactly what one run over every backup ever made would keep.
   */
  lemma {:induction false} OnlineEqualsOffline(start: set<Backup>, events: seq<Event>)
    ensures Kept(EverSeen(start, events)) <= Directory(start, events) <= EverSeen(start, events)
    ensures Kept(Directory(start, events)) == Kept(EverSeen(start, events))
  {
    if events != [] {
      var earlier := events[..|events| - 1];
      OnlineEqualsOffline(start, earlier);
      match events[|events| - 1]
      case Arrive(files) =>
        ArrivalsOnlyDisplace(EverSeen(start, earlier), files);
      case Prune =>
    }
    SandwichedHistoriesAgree(Directory(start, events), EverSeen(start, events));
  }

  // ---- Size and safety of what is kept ----

  ghost predicate IsNewest(history: set<Backup>, b: Backup) {
    forall c :: c in history && c.database == b.database ==> c.created <= b.created
  }

  /** The newest backup of each database is always kept. */
  lemma {:induction false} NewestIsKept(history: set<Backup>, b: Backup)
    requires b in history && IsNewest(history, b)
    ensures b in Kept(history)
  {
  }

  function KeptBy(p: Rule, history: set<Backup>, d: Database): set<Backup> {
    set b | b in history && b.database == d && Represents(p, history, b)
  }

  /** Of every database at most eleven backups are kept, its newest among them. */
  lemma {:induction false} AtMostElevenKept(history: set<Backup>, d: Database)
    ensures |set b | b in Kept(history) && b.database == d| <= 11
    ensures forall b :: b in history && b.database == d && IsNewest(history, b) ==> b in Kept(history)
  {
    var kept := set b | b in Kept(history) && b.database == d;
    var daily, weekly := KeptBy(DAILY, history, d), KeptBy(WEEKLY, history, d);
    assert kept == daily + weekly;
    BothRulesAreOrdered();
    AtMostLimitKept(DAILY, history, d, daily);
    AtMostLimitKept(WEEKLY, history, d, weekly);
    assert |daily + weekly| <= |daily| + |weekly|;
    forall b | b in history && b.database == d && IsNewest(history, b) ensures b in Kept(history) {
      NewestIsKept(history, b);
    }
  }

  /** The representatives of one period sit in distinct buckets, so the oldest of them has all others newer. */
  lemma {:induction false} AtMostLimitKept(p: Rule, history: set<Backup>, d: Database, some: set<Backup>)
    requires Ordered(p)
    requires some <= KeptBy(p, history, d)
    ensures |some| <= p.limit
  {
    if some != {} {
      var x :| x in some;
      var oldest := OldestOf(some, x);
      var rest := some - {oldest};
      forall b, c | b in some && c in some && Bucket(p, b) == Bucket(p, c) ensures b == c {
        assert b.created <= c.created <= b.created;
      }
      forall b | b in rest ensures Bucket(p, oldest) < Bucket(p, b) {
        assert p.bucket(oldest.created) <= p.bucket(b.created);
      }
      var buckets := set b | b in rest :: Bucket(p, b);
      ImageSize(p, rest, buckets);
      assert buckets <= NewerBuckets(p, history, oldest);
      SubsetSize(buckets, NewerBuckets(p, history, oldest));
    }
  }

  lemma {:induction false} OldestOf(s: set<Backup>, x: Backup) returns (m: Backup)
    requires x in s
    ensures m in s && forall y :: y in s ==> m.created <= y.created
    decreases |s|
  {
    if forall y :: y in s ==> x.created <= y.created {
      m := x;
    } else {
      var y :| y in s && y.created < x.created;
      var rest := s - {x};
      m := OldestOf(rest, y);
      assert s == rest + {x};
    }
  }

  lemma {:induction false} ImageSize(p: Rule, s: set<Backup>, image: set<int>)
    requires image == set b | b in s :: Bucket(p, b)
    requires forall b, c :: b in s && c in s && Bucket(p, b) == Bucket(p, c) ==> b == c
    ensures |image| == |s|
  {
    if s != {} {
      var x :| x in s;
      ImageSize(p, s - {x}, image - {Bucket(p, x)});
    }
  }

  // ---- The same by the calendar alone ----

  predicate InDay(t: int, day: int) { 86400 * day <= t < 86400 * day + 86400 }

  /** 5 January 1970, the fourth day, was a Monday. */
  predicate Monday(day: int) { day % 7 == 4 }

  /** A Monday begins after `s` and not after `t`. */
  ghost predicate MondayBegins(s: int, t: int) { exists day :: Monday(day) && s < 86400 * day <= t }

  /** Both times lie in one day, or no Monday begins between them. */
  ghost predicate Together(weekly: bool, s: int, t: int) {
    if weekly then !MondayBegins(s, t) && !MondayBegins(t, s) else exists day :: InDay(s, day) && InDay(t, day)
  }

  function RuleOf(weekly: bool): Rule { if weekly then WEEKLY else DAILY }

  lemma {:induction false} DaysAreDays(s: int, t: int)
    ensures DAILY.bucket(s) == DAILY.bucket(t) <==> Together(false, s, t)
  {
    assert InDay(s, s / 86400);
  }

  lemma {:induction false} WeekBegins(s: int, t: int)
    requires s <= t
    ensures WEEKLY.bucket(s) < WEEKLY.bucket(t) <==> MondayBegins(s, t)
  {
    if WEEKLY.bucket(s) < WEEKLY.bucket(t) {
      var day := 7 * WEEKLY.bucket(t) - 3;
      assert Monday(day) && s < 86400 * day <= t;
    }
  }

  /** The periods are the days, and the weeks that begin on a Monday. */
  lemma {:induction false} PeriodsAreCalendarPeriods(weekly: bool, s: int, t: int)
    ensures RuleOf(weekly).bucket(s) == RuleOf(weekly).bucket(t) <==> Together(weekly, s, t)
  {
    BothRulesAreOrdered();
    if !weekly {
      DaysAreDays(s, t);
    } else if s <= t {
      WeekBegins(s, t);
    } else {
      WeekBegins(t, s);
    }
  }

  /** Backups of the database from later periods, no two from one. */
  ghost predicate LaterPeriods(weekly: bool, history: set<Backup>, b: Backup, later: seq<Backup>) {
    && (forall c :: c in later ==>
          c in history && c.database == b.database && b.created < c.created
          && !Together(weekly, b.created, c.created))
    && (forall i, j :: 0 <= i < j < |later| ==> !Together(weekly, later[i].created, later[j].created))
  }

  /** `b` is the newest of its day or week, and fewer than so many later ones have a backup of the database. */
  ghost predicate Worth(weekly: bool, limit: nat, history: set<Backup>, b: Backup) {
    && (forall c :: c in history && c.database == b.database && Together(weekly, b.created, c.created) ==>
          c.created <= b.created)
    && (forall later :: LaterPeriods(weekly, history, b, later) ==> |later| < limit)
  }

  lemma {:induction false} LaterBucket(weekly: bool, s: int, t: int)
    ensures RuleOf(weekly).bucket(s) < RuleOf(weekly).bucket(t) <==> s < t && !Together(weekly, s, t)
  {
    BothRulesAreOrdered();
    PeriodsAreCalendarPeriods(weekly, s, t);
    var p := RuleOf(weekly);
    assert t <= s ==> p.bucket(t) <= p.bucket(s);
    assert s <= t ==> p.bucket(s) <= p.bucket(t);
  }

  lemma {:induction false} FewLater(weekly: bool, history: set<Backup>, b: Backup, later: seq<Backup>)
    requires LaterPeriods(weekly, history, b, later)
    ensures |later| <= |NewerBuckets(RuleOf(weekly), history, b)|
  {
    hide Together, RuleOf;
    var p := RuleOf(weekly);
    var times := seq(|later|, i requires 0 <= i < |later| => Bucket(p, later[i]));
    forall i | 0 <= i < |later| ensures times[i] in NewerBuckets(p, history, b) {
      assert later[i] in later;
      LaterBucket(weekly, b.created, later[i].created);
    }
    forall i, j | 0 <= i < j < |later| ensures times[i] != times[j] {
      PeriodsAreCalendarPeriods(weekly, later[i].created, later[j].created);
    }
    DistinctFit(times, NewerBuckets(p, history, b));
  }

  lemma {:induction false} DistinctFit(times: seq<int>, all: set<int>)
    requires forall i :: 0 <= i < |times| ==> times[i] in all
    requires forall i, j :: 0 <= i < j < |times| ==> times[i] != times[j]
    ensures |times| <= |all|
  {
    if times != [] {
      var n := |times| - 1;
      DistinctFit(times[..n], all - {times[n]});
    }
  }

  /** Every newer period gives a backup to list. */
  lemma {:induction false} ListLater(weekly: bool, history: set<Backup>, b: Backup, some: set<int>)
      returns (later: seq<Backup>)
    requires some <= NewerBuckets(RuleOf(weekly), history, b)
    ensures LaterPeriods(weekly, history, b, later) && |later| == |some|
    ensures forall c :: c in later ==> Bucket(RuleOf(weekly), c) in some
  {
    hide Together, RuleOf;
    var p := RuleOf(weekly);
    if some == {} {
      later := [];
    } else {
      var x := Member(some);
      var c :| c in history && c.database == b.database && Bucket(p, b) < Bucket(p, c) && Bucket(p, c) == x;
      var rest := ListLater(weekly, history, b, some - {x});
      later := rest + [c];
      LaterBucket(weekly, b.created, c.created);
      forall i | 0 <= i < |rest| ensures !Together(weekly, rest[i].created, c.created) {
        assert rest[i] in rest;
        PeriodsAreCalendarPeriods(weekly, rest[i].created, c.created);
      }
    }
  }

  lemma {:induction false} WorthIsRepresents(weekly: bool, history: set<Backup>, b: Backup)
    requires b in history
    ensures Worth(weekly, RuleOf(weekly).limit, history, b) <==> Represents(RuleOf(weekly), history, b)
  {
    hide Together, RuleOf, LaterPeriods, NewerBuckets;
    var p := RuleOf(weekly);
    forall c: Backup ensures Together(weekly, b.created, c.created) <==> Bucket(p, c) == Bucket(p, b) {
      PeriodsAreCalendarPeriods(weekly, b.created, c.created);
    }
    var all := ListLater(weekly, history, b, NewerBuckets(p, history, b));
    forall later | LaterPeriods(weekly, history, b, later) ensures |later| <= |NewerBuckets(p, history, b)| {
      FewLater(weekly, history, b, later);
    }
  }

  /**
   What is kept, by the calendar alone: the newest backup of a day when fewer than seven later days have one, and the
   newest of a week from Monday on when fewer than four later weeks have one.
   */
  lemma {:induction false} KeptByTheCalendar(history: set<Backup>, b: Backup)
    ensures b in Kept(history) <==> b in history && (Worth(false, 7, history, b) || Worth(true, 4, history, b))
  {
    hide Worth, Represents;
    if b in history {
      WorthIsRepresents(false, history, b);
      WorthIsRepresents(true, history, b);
    }
  }

  // ---- The algorithm ----

  function AsSet(s: seq<Backup>): set<Backup> { set b | b in s }

  function Recognised(files: seq<File>): seq<Backup> {
    if files == [] then []
    else
      var earlier := Recognised(files[..|files| - 1]);
      match files[|files| - 1].parsed
      case Some(b) => earlier + [b]
      case None => earlier
  }

  predicate NewestFirst(s: seq<Backup>) {
    forall i, j :: 0 <= i < j < |s| ==> s[j].created <= s[i].created
  }

  lemma {:induction false} ConsKeepsOrder(b: Backup, rest: seq<Backup>)
    requires NewestFirst(rest) && forall x :: x in rest ==> x.created <= b.created
    ensures NewestFirst([b] + rest)
  {
  }

  function InsertByTime(sorted: seq<Backup>, b: Backup): (r: seq<Backup>)
    ensures forall x :: x in r <==> x == b || x in sorted
  {
    if sorted == [] then [b]
    else if sorted[0].created < b.created then [b] + sorted
    else [sorted[0]] + InsertByTime(sorted[1..], b)
  }

  lemma {:induction false} InsertKeepsOrder(sorted: seq<Backup>, b: Backup)
    requires NewestFirst(sorted)
    ensures NewestFirst(InsertByTime(sorted, b))
    ensures multiset(InsertByTime(sorted, b)) == multiset(sorted) + multiset{b}
  {
    if sorted != [] {
      assert sorted == [sorted[0]] + sorted[1..];
      if sorted[0].created < b.created {
        ConsKeepsOrder(b, sorted);
      } else {
        InsertKeepsOrder(sorted[1..], b);
        ConsKeepsOrder(sorted[0], InsertByTime(sorted[1..], b));
      }
    }
  }

  /** Python's stable `sort(reverse=True)` on the creation time. */
  function SortNewestFirst(s: seq<Backup>): seq<Backup> {
    if s == [] then [] else InsertByTime(SortNewestFirst(s[..|s| - 1]), s[|s| - 1])
  }

  lemma {:induction false} SortIsPermutation(s: seq<Backup>)
    ensures multiset(SortNewestFirst(s)) == multiset(s)
    ensures NewestFirst(SortNewestFirst(s))
  {
    if s != [] {
      SortIsPermutation(s[..|s| - 1]);
      InsertKeepsOrder(SortNewestFirst(s[..|s| - 1]), s[|s| - 1]);
      assert s == s[..|s| - 1] + [s[|s| - 1]];
    }
  }

  predicate SameKey(p: Rule, a: Backup, b: Backup) {
    a.database == b.database && Bucket(p, a) == Bucket(p, b)
  }

  predicate Covered(p: Rule, entries: seq<Backup>, b: Backup) {
    exists i :: 0 <= i < |entries| && SameKey(p, entries[i], b)
  }

  /** `dict.setdefault` on a dictionary that lists its values in insertion order. */
  function SetDefault(p: Rule, entries: seq<Backup>, b: Backup): seq<Backup> {
    if Covered(p, entries, b) then entries else entries + [b]
  }

  /** Newest bucket first, one entry a bucket. */
  ghost predicate OneEachNewestFirst(p: Rule, entries: seq<Backup>) {
    forall i, j :: 0 <= i < j < |entries| ==>
      entries[j].created <= entries[i].created && !SameKey(p, entries[i], entries[j])
  }

  /** `entries` lists, newest bucket first, the newest backup of every bucket in `seen`. */
  ghost predicate Representatives(p: Rule, seen: set<Backup>, entries: seq<Backup>) {
    && OneEachNewestFirst(p, entries)
    && (forall e :: e in entries ==> e in seen && NewestOfBucket(p, seen, e))
    && (forall b :: b in seen ==> Covered(p, entries, b))
  }

  lemma {:induction false} CoveredByLonger(p: Rule, entries: seq<Backup>, e: Backup, b: Backup)
    requires Covered(p, entries, b)
    ensures Covered(p, entries + [e], b)
  {
    var i :| 0 <= i < |entries| && SameKey(p, entries[i], b);
    assert SameKey(p, (entries + [e])[i], b);
  }

  lemma {:induction false} SetDefaultStep(p: Rule, seen: set<Backup>, entries: seq<Backup>, b: Backup)
    requires Representatives(p, seen, entries)
    requires forall c :: c in seen ==> b.created <= c.created
    ensures Representatives(p, seen + {b}, SetDefault(p, entries, b))
  {
    if !Covered(p, entries, b) {
      var after := entries + [b];
      assert SetDefault(p, entries, b) == after;
      forall c | c in seen + {b} ensures Covered(p, after, c) {
        if c in seen {
          CoveredByLonger(p, entries, b, c);
        } else {
          assert SameKey(p, after[|entries|], c);
        }
      }
      forall c | c in seen ensures !SameKey(p, c, b) {
        assert Covered(p, entries, c);
      }
    }
  }

  /** The entries of one database, cut off after `keep` of them. */
  method TakeGenerations(entries: seq<Backup>, d: Database, keep: nat) returns (chosen: seq<Backup>)
    ensures chosen == FirstOf(OfDatabase(entries, d), keep)
  {
    var own: seq<Backup> := [];
    for i := 0 to |entries|
      invariant own == OfDatabase(entries[..i], d)
    {
      assert entries[..i + 1][..i] == entries[..i];
      if entries[i].database == d {
        own := own + [entries[i]];
      }
    }
    assert entries[..|entries|] == entries;
    chosen := FirstOf(own, keep);
  }

  function FirstOf<T>(s: seq<T>, n: nat): seq<T> {
    if |s| <= n then s else s[..n]
  }

  function OfDatabase(entries: seq<Backup>, d: Database): seq<Backup> {
    if entries == [] then []
    else
      var earlier := OfDatabase(entries[..|entries| - 1], d);
      if entries[|entries| - 1].database == d then earlier + [entries[|entries| - 1]] else earlier
  }

  /** Buckets strictly decrease along the list. */
  ghost predicate Descending(p: Rule, own: seq<Backup>) {
    forall i, j :: 0 <= i < j < |own| ==> Bucket(p, own[j]) < Bucket(p, own[i])
  }

  lemma {:induction false} LastBucketIsOldest(p: Rule, entries: seq<Backup>, b: Backup)
    requires Ordered(p) && OneEachNewestFirst(p, entries) && entries != []
    requires b in entries[..|entries| - 1] && b.database == entries[|entries| - 1].database
    ensures Bucket(p, entries[|entries| - 1]) < Bucket(p, b)
  {
  }

  lemma {:induction false} AppendDescending(p: Rule, own: seq<Backup>, b: Backup)
    requires Descending(p, own) && forall x :: x in own ==> Bucket(p, b) < Bucket(p, x)
    ensures Descending(p, own + [b])
  {
  }

  lemma {:induction false} OfDatabaseKeepsOrder(p: Rule, entries: seq<Backup>, d: Database)
    requires Ordered(p)
    requires OneEachNewestFirst(p, entries)
    ensures forall b :: b in OfDatabase(entries, d) <==> b in entries && b.database == d
    ensures Descending(p, OfDatabase(entries, d))
  {
    if entries != [] {
      var n := |entries| - 1;
      var rest := entries[..n];
      OfDatabaseKeepsOrder(p, rest, d);
      assert entries == rest + [entries[n]];
      if entries[n].database == d {
        forall b | b in OfDatabase(rest, d) ensures Bucket(p, entries[n]) < Bucket(p, b) {
          LastBucketIsOldest(p, entries, b);
        }
        AppendDescending(p, OfDatabase(rest, d), entries[n]);
      }
    }
  }

  /** The representatives of one database: all its newer buckets stand before an entry. */
  lemma {:induction false} NewerStandBefore(p: Rule, history: set<Backup>, entries: seq<Backup>, own: seq<Backup>,
      j: nat)
    requires Representatives(p, history, entries) && j < |own|
    requires forall b :: b in own <==> b in entries && b.database == own[j].database
    requires Descending(p, own)
    ensures NewerBuckets(p, history, own[j]) == BucketsOf(p, own[..j])
  {
    forall n | n in NewerBuckets(p, history, own[j]) ensures n in BucketsOf(p, own[..j]) {
      var c :| c in history && c.database == own[j].database && Bucket(p, own[j]) < Bucket(p, c) && Bucket(p, c) == n;
      assert Covered(p, entries, c);
      var i :| 0 <= i < |entries| && SameKey(p, entries[i], c);
      assert entries[i] in own;
      var k :| 0 <= k < |own| && own[k] == entries[i];
      assert k < j;
      assert own[..j][k] == own[k];
    }
    forall n | n in BucketsOf(p, own[..j]) ensures n in NewerBuckets(p, history, own[j]) {
      var k :| 0 <= k < j && Bucket(p, own[..j][k]) == n;
      assert own[k] in own && own[..j][k] == own[k];
    }
  }

  function BucketsOf(p: Rule, own: seq<Backup>): (r: set<int>)
    ensures forall b :: b in own ==> Bucket(p, b) in r
    ensures forall x :: x in r ==> exists i :: 0 <= i < |own| && Bucket(p, own[i]) == x
  {
    if own == [] then {}
    else
      var n := |own| - 1;
      assert own == own[..n] + [own[n]];
      BucketsOf(p, own[..n]) + {Bucket(p, own[n])}
  }

  lemma {:induction false} DescendingBuckets(p: Rule, own: seq<Backup>)
    requires Descending(p, own)
    ensures |BucketsOf(p, own)| == |own|
  {
    if own != [] {
      var n := |own| - 1;
      DescendingBuckets(p, own[..n]);
      assert Bucket(p, own[n]) !in BucketsOf(p, own[..n]);
    }
  }

  /** Cutting the representatives of a database off at the limit leaves exactly those retention keeps. */
  lemma {:induction false} CutOffIsKept(p: Rule, history: set<Backup>, entries: seq<Backup>, d: Database)
    requires Ordered(p)
    requires Representatives(p, history, entries)
    ensures KeptBy(p, history, d) == AsSet(FirstOf(OfDatabase(entries, d), p.limit))
  {
    var own := OfDatabase(entries, d);
    OfDatabaseKeepsOrder(p, entries, d);
    forall j | 0 <= j < |own| ensures Represents(p, history, own[j]) <==> j < p.limit {
      PositionDecides(p, history, entries, own, j);
    }
    forall b | b in KeptBy(p, history, d) ensures b in FirstOf(own, p.limit) {
      EntryOfKept(p, history, entries, b);
      InPrefix(own, b, p, history);
    }
    forall b | b in FirstOf(own, p.limit) ensures b in KeptBy(p, history, d) {
      var j :| 0 <= j < |FirstOf(own, p.limit)| && FirstOf(own, p.limit)[j] == b;
      assert own[j] == b && b in own;
    }
  }

  lemma {:induction false} InPrefix(own: seq<Backup>, b: Backup, p: Rule, history: set<Backup>)
    requires b in own && Represents(p, history, b)
    requires forall j :: 0 <= j < |own| ==> (Represents(p, history, own[j]) <==> j < p.limit)
    ensures b in FirstOf(own, p.limit)
  {
  }

  lemma {:induction false} PositionDecides(p: Rule, history: set<Backup>, entries: seq<Backup>, own: seq<Backup>,
      j: nat)
    requires Representatives(p, history, entries) && j < |own|
    requires forall b :: b in own <==> b in entries && b.database == own[j].database
    requires Descending(p, own)
    ensures Represents(p, history, own[j]) <==> j < p.limit
  {
    NewerStandBefore(p, history, entries, own, j);
    DescendingBuckets(p, own[..j]);
    assert own[j] in own;
  }

  lemma {:induction false} EntryOfKept(p: Rule, history: set<Backup>, entries: seq<Backup>, b: Backup)
    requires Representatives(p, history, entries) && Represents(p, history, b)
    ensures b in entries
  {
    assert Covered(p, entries, b);
    var i :| 0 <= i < |entries| && SameKey(p, entries[i], b);
    var e := entries[i];
    assert e in entries;
    assert e.created <= b.created <= e.created;
    assert e == b;
  }

  method RetentionDecision(files: seq<File>) returns (keep: seq<Backup>, delete: seq<Backup>)
    ensures var history := AsSet(Recognised(files));
      && AsSet(keep) == Kept(history)
      && AsSet(delete) == history - Kept(history)
    ensures multiset(keep) + multiset(delete) == multiset(Recognised(files))
    ensures NewestFirst(keep) && NewestFirst(delete)
  {
    var found: seq<Backup> := [];
    for i := 0 to |files|
      invariant found == Recognised(files[..i])
    {
      assert files[..i + 1][..i] == files[..i];
      match files[i].parsed
      case Some(b) => found := found + [b];
      case None =>
    }
    assert files[..|files|] == files;
    ghost var history := AsSet(Recognised(files));
    var parsed := SortNewestFirst(found);
    SortIsPermutation(found);
    SameElements(parsed, found);

    var daily, weekly := GroupByPeriod(parsed);
    var retained := RetainedOf(history, daily, weekly);
    keep := Select(parsed, retained, true);
    delete := Select(parsed, retained, false);
    SelectPartitions(parsed, retained);
    SelectKeepsOrder(parsed, retained, true);
    SelectKeepsOrder(parsed, retained, false);
  }

  method GroupByPeriod(parsed: seq<Backup>) returns (daily: seq<Backup>, weekly: seq<Backup>)
    requires NewestFirst(parsed)
    ensures Representatives(DAILY, AsSet(parsed), daily)
    ensures Representatives(WEEKLY, AsSet(parsed), weekly)
  {
    daily, weekly := [], [];
    for i := 0 to |parsed|
      invariant Representatives(DAILY, AsSet(parsed[..i]), daily)
      invariant Representatives(WEEKLY, AsSet(parsed[..i]), weekly)
    {
      PrefixGrows(parsed, i);
      SetDefaultStep(DAILY, AsSet(parsed[..i]), daily, parsed[i]);
      SetDefaultStep(WEEKLY, AsSet(parsed[..i]), weekly, parsed[i]);
      daily := SetDefault(DAILY, daily, parsed[i]);
      weekly := SetDefault(WEEKLY, weekly, parsed[i]);
    }
    assert parsed[..|parsed|] == parsed;
  }

  lemma {:induction false} PrefixGrows(parsed: seq<Backup>, i: nat)
    requires i < |parsed| && NewestFirst(parsed)
    ensures AsSet(parsed[..i + 1]) == AsSet(parsed[..i]) + {parsed[i]}
    ensures forall c :: c in AsSet(parsed[..i]) ==> parsed[i].created <= c.created
  {
  }

  method RetainedOf(ghost history: set<Backup>, daily: seq<Backup>, weekly: seq<Backup>) returns (retained: set<Backup>)
    requires Representatives(DAILY, history, daily) && Representatives(WEEKLY, history, weekly)
    ensures retained == Kept(history)
  {
    retained := {};
    var databases := [SaxoMarket, SaxoResearch, SaxoForward];
    BothRulesAreOrdered();
    for i := 0 to |databases|
      invariant forall b :: b in retained <==> b in Kept(history) && b.database in databases[..i]
    {
      var d := databases[i];
      var days := TakeGenerations(daily, d, DAILY_KEEP);
      var weeks := TakeGenerations(weekly, d, WEEKLY_KEEP);
      CutOffIsKept(DAILY, history, daily, d);
      CutOffIsKept(WEEKLY, history, weekly, d);
      assert databases[..i + 1] == databases[..i] + [d];
      KeptOfDatabase(history, d);
      retained := retained + AsSet(days) + AsSet(weeks);
    }
    assert databases[..|databases|] == databases;
    forall d: Database ensures d in databases {
      match d
      case SaxoMarket => assert databases[0] == d;
      case SaxoResearch => assert databases[1] == d;
      case SaxoForward => assert databases[2] == d;
    }
  }

  lemma {:induction false} KeptOfDatabase(history: set<Backup>, d: Database)
    ensures forall b ::
      b in KeptBy(DAILY, history, d) || b in KeptBy(WEEKLY, history, d) <==> b in Kept(history) && b.database == d
  {
  }

  lemma {:induction false} SameElements(s: seq<Backup>, t: seq<Backup>)
    requires multiset(s) == multiset(t)
    ensures AsSet(s) == AsSet(t)
  {
    forall b ensures b in s <==> b in t {
      assert b in s <==> b in multiset(s);
      assert b in t <==> b in multiset(t);
    }
  }

  /** The paths of `parsed` that are (or are not) retained, in order. */
  function Select(parsed: seq<Backup>, retained: set<Backup>, wanted: bool): (r: seq<Backup>)
    ensures forall b :: b in r <==> b in parsed && (b in retained <==> wanted)
  {
    if parsed == [] then []
    else (if (parsed[0] in retained) == wanted then [parsed[0]] else []) + Select(parsed[1..], retained, wanted)
  }

  lemma {:induction false} SelectPartitions(parsed: seq<Backup>, retained: set<Backup>)
    ensures multiset(Select(parsed, retained, true)) + multiset(Select(parsed, retained, false)) == multiset(parsed)
  {
    if parsed != [] {
      SelectPartitions(parsed[1..], retained);
      assert parsed == [parsed[0]] + parsed[1..];
    }
  }

  lemma {:induction false} SelectKeepsOrder(parsed: seq<Backup>, retained: set<Backup>, wanted: bool)
    requires NewestFirst(parsed)
    ensures NewestFirst(Select(parsed, retained, wanted))
  {
    if parsed != [] {
      SelectKeepsOrder(parsed[1..], retained, wanted);
      forall x | x in Select(parsed[1..], retained, wanted) ensures x.created <= parsed[0].created {
        var i :| 0 <= i < |parsed[1..]| && parsed[1..][i] == x;
        assert x == parsed[i + 1];
      }
      ConsKeepsOrder(parsed[0], Select(parsed[1..], retained, wanted));
    }
  }
}
