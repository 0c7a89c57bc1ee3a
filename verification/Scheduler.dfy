/** The scheduler daemon: lanes, catch-up, retries and terminal blockers, one poll a step. */
module Scheduler {
  import opened CompletedHistory
  import opened Types

  const POLL_SECONDS := 15
  const RETRY_SECONDS := 30
  const MAX_TRANSIENT_SLOT_ATTEMPTS := 4
  const MAX_CATCHUP_AGE := 6 * 3600

  const EXHAUSTED := "RETRY_EXHAUSTED:"
  const NOT_READY := "DATA_NOT_READY"
  const DEGRADED := "INSTRUMENT_DEGRADED_OPERATOR_ACTION_REQUIRED"
  const ENFORCED := {"BLOCKED_OPERATOR_ACTION_REQUIRED", "INSTRUMENT_DEGRADED_OPERATOR_ACTION_REQUIRED"}
  const INTERFACE_DOMAINS := {"interface_auth", "interface_operational"}

  // ---- Slots and lanes ----

  datatype Slot = Slot(id: string, kind: string, due: int, keys: set<string>)

  predicate SameLane(a: Slot, b: Slot) { a.kind == b.kind && a.keys == b.keys }

  predicate Eligible(s: Slot, now: int, completed: set<string>) {
    s.id !in completed && s.due <= now && now - s.due <= MAX_CATCHUP_AGE
  }

  /** A dictionary from lane to slot, in insertion order: a later due time replaces the lane's slot in place. */
  function PutLane(candidates: seq<Slot>, s: Slot): seq<Slot> {
    if candidates == [] then [s]
    else if SameLane(candidates[0], s) then
      if s.due > candidates[0].due then [s] + candidates[1..] else candidates
    else [candidates[0]] + PutLane(candidates[1..], s)
  }

  function LatestPerLane(slots: seq<Slot>, now: int, completed: set<string>): seq<Slot> {
    if slots == [] then []
    else
      var n := |slots| - 1;
      var earlier := LatestPerLane(slots[..n], now, completed);
      if Eligible(slots[n], now, completed) then PutLane(earlier, slots[n]) else earlier
  }

  function InsertByDue(sorted: seq<Slot>, s: Slot): (r: seq<Slot>)
    ensures forall x :: x in r <==> x in sorted || x == s
  {
    if sorted == [] then [s]
    else
      var n := |sorted| - 1;
      assert sorted == sorted[..n] + [sorted[n]];
      if s.due < sorted[n].due then InsertByDue(sorted[..n], s) + [sorted[n]] else sorted + [s]
  }

  /** Stable sort by due time. */
  function ByDue(slots: seq<Slot>): (r: seq<Slot>)
    ensures forall x :: x in r <==> x in slots
  {
    if slots == [] then []
    else
      var n := |slots| - 1;
      assert slots == slots[..n] + [slots[n]];
      InsertByDue(ByDue(slots[..n]), slots[n])
  }

  /** The slots that may run now: the latest due one of every lane, oldest first. */
  function Candidates(slots: seq<Slot>, now: int, completed: set<string>): seq<Slot> {
    ByDue(LatestPerLane(slots, now, completed))
  }

  /** Everything of the lane up to the selected slot, so superseded catch-up slots never run. */
  predicate SupersededBy(s: Slot, selected: Slot) { SameLane(s, selected) && s.due <= selected.due }

  function CompletedThrough(slots: seq<Slot>, selected: Slot): set<string> {
    set s | s in slots && SupersededBy(s, selected) :: s.id
  }

  /** The newly completed ids in schedule order. */
  function IdsIn(slots: seq<Slot>, ids: set<string>): seq<string> {
    if slots == [] then []
    else (if slots[0].id in ids then [slots[0].id] else []) + IdsIn(slots[1..], ids)
  }

  // ---- Error codes ----

  function ErrorDomain(code: string): string {
    if code == "" then "none"
    else if EXHAUSTED <= code then ErrorDomain(code[|EXHAUSTED|..])
    else if "AUTH_" <= code || "BLOCKED_TOKEN" <= code || "BLOCKED_PERMISSION" <= code then "interface_auth"
    else if code in {"BLOCKED_RATE_LIMIT", "FAILED_NETWORK", "FAILED_SERVICE_UNAVAILABLE", "FAILED_INVALID_JSON",
        "FAILED_JSON_NOT_OBJECT", "FAILED_INSUFFICIENTPRIVILEGE"} || "FAILED_HTTP_" <= code then "interface_operational"
    else if code in {NOT_READY, "INSUFFICIENT_INCREMENTAL_CHART_DATA"} then "data_not_ready"
    else if code in {"BLOCKED_CANONICAL_WATERMARK_SET", "BLOCKED_FULL_REFETCH_REQUIRED",
        "BLOCKED_BOUNDED_REVISION_REQUIRED", "BLOCKED_REPEATED_DATA_VERSION_CHANGE",
        "BLOCKED_REVISION_SCOPE_UNRESOLVED_FULL_REFETCH_REQUIRED"} then "source_revision"
    else "data_quality"
  }

  predicate IsTransient(code: string) {
    code in {"BLOCKED_RATE_LIMIT", "FAILED_NETWORK", NOT_READY, "INSUFFICIENT_INCREMENTAL_CHART_DATA"}
        || "FAILED_HTTP_429" <= code
  }

  // ---- Blockers ----

  /** What the stored hash is taken over. */
  datatype Signature = Signature(keys: set<string>, code: string, revision: string)

  datatype Blocker = Blocker(signature: Signature, origin: string, keys: set<string>, code: string, domain: string,
    status: string, revision: string)

  predicate Concerns(b: Blocker, s: Slot) { b.keys * s.keys != {} }

  predicate IsInterface(b: Blocker) { b.domain in INTERFACE_DOMAINS }

  /** A late publication or an interface fault belongs to the slot it was seen on; anything else to the instruments. */
  predicate StillApplies(b: Blocker, s: Slot, revision: string) {
    && !(b.origin != s.id && (b.code == EXHAUSTED + NOT_READY || IsInterface(b)))
    && b.status in ENFORCED && Concerns(b, s) && b.revision == revision
  }

  /** A dictionary keyed by signature, in insertion order. */
  function PutBlocker(blockers: seq<Blocker>, b: Blocker): seq<Blocker> {
    if blockers == [] then [b]
    else if blockers[0].signature == b.signature then [b] + blockers[1..]
    else [blockers[0]] + PutBlocker(blockers[1..], b)
  }

  // ---- The daemon ----

  /** An empty code or domain stands for an absent one. */
  datatype Outcome = Outcome(passed: bool, code: string, domain: string, failedKey: Option<string>)

  /** What a poll meets: the clock, the schedule, watermark revisions before and after, and the executor. */
  datatype Poll = Poll(now: int, slots: seq<Slot>, before: set<string> -> string, execute: Slot -> Outcome,
      after: set<string> -> string)

  datatype Daemon = Daemon(completed: set<string>, order: seq<string>, nextAttempt: map<string, int>,
    blockers: seq<Blocker>, attempts: map<string, int>)

  const STARTED := Daemon({}, [], map[], [], map[])

  /** Blockers of no instrument, or of instruments whose watermark moved, are dropped before anything is chosen. */
  function Swept(blockers: seq<Blocker>, revision: set<string> -> string): seq<Blocker> {
    if blockers == [] then []
    else (if IsCurrent(blockers[0], revision) then [blockers[0]] else []) + Swept(blockers[1..], revision)
  }

  predicate IsCurrent(b: Blocker, revision: set<string> -> string) { b.keys != {} && b.revision == revision(b.keys) }

  datatype Examined = Examined(blockers: seq<Blocker>, blocked: bool)

  /** A candidate drops the blockers of its instruments that no longer apply, up to the first that does. */
  function Examine(blockers: seq<Blocker>, c: Slot, revision: set<string> -> string): Examined {
    if blockers == [] then Examined([], false)
    else
      var b := blockers[0];
      if !Concerns(b, c) then
        var rest := Examine(blockers[1..], c, revision);
        Examined([b] + rest.blockers, rest.blocked)
      else if StillApplies(b, c, revision(b.keys)) then Examined(blockers, true)
      else Examine(blockers[1..], c, revision)
  }

  predicate MayAttempt(nextAttempt: map<string, int>, s: Slot,
      now: int) { s.id in nextAttempt ==> nextAttempt[s.id] <= now }

  datatype Selection = Selection(blockers: seq<Blocker>, slot: Option<Slot>)

  function Select(blockers: seq<Blocker>, candidates: seq<Slot>, nextAttempt: map<string, int>, now: int,
      revision: set<string> -> string)
    : Selection
    decreases |candidates|
  {
    if candidates == [] then Selection(blockers, None)
    else
      var seen := Examine(blockers, candidates[0], revision);
      if !seen.blocked && MayAttempt(nextAttempt, candidates[0], now) then Selection(seen.blockers, Some(candidates[0]))
      else Select(seen.blockers, candidates[1..], nextAttempt, now, revision)
  }

  function Affected(s: Slot, outcome: Outcome): set<string> {
    if outcome.failedKey.Some? then {outcome.failedKey.value} else s.keys
  }

  function NewBlocker(s: Slot, outcome: Outcome, code: string, revision: string): Blocker {
    var keys := Affected(s, outcome);
    var domain := if outcome.domain != "" then outcome.domain else ErrorDomain(code);
    Blocker(Signature(keys, code, revision), s.id, keys, code, domain, DEGRADED, revision)
  }

  function Unconcerned(blockers: seq<Blocker>, s: Slot): (r: seq<Blocker>)
    ensures forall b :: b in r <==> b in blockers && !Concerns(b, s)
  {
    if blockers == [] then []
    else
      var rest := Unconcerned(blockers[1..], s);
      if Concerns(blockers[0], s) then rest else [blockers[0]] + rest
  }

  function AttemptsOf(d: Daemon, id: string): int { if id in d.attempts then d.attempts[id] else 0 }

  function Passed(d: Daemon, slots: seq<Slot>, s: Slot): Daemon {
    var ids := CompletedThrough(slots, s);
    Daemon(d.completed + ids, Keep(d.order + IdsIn(slots, ids)), d.nextAttempt - {s.id}, Unconcerned(d.blockers, s),
        d.attempts - {s.id})
  }

  function Failed(d: Daemon, poll: Poll, s: Slot, outcome: Outcome): Daemon {
    var revision := poll.after(Affected(s, outcome));
    if IsTransient(outcome.code) then
      var n := AttemptsOf(d, s.id) + 1;
      if n < MAX_TRANSIENT_SLOT_ATTEMPTS
      then d.(attempts := d.attempts[s.id := n], nextAttempt := d.nextAttempt[s.id := poll.now + RETRY_SECONDS])
      else d.(attempts := d.attempts[s.id := n],
              blockers := PutBlocker(d.blockers, NewBlocker(s, outcome, EXHAUSTED + outcome.code, revision)))
    else
      var code := if outcome.code == "" then "SCHEDULED_INCREMENTAL_FAILED" else outcome.code;
      d.(nextAttempt := d.nextAttempt - {s.id}, attempts := d.attempts - {s.id},
         blockers := PutBlocker(d.blockers, NewBlocker(s, outcome, code, revision)))
  }

  function Choice(d: Daemon, poll: Poll): Selection {
    Select(Swept(d.blockers, poll.before), Candidates(poll.slots, poll.now, d.completed), d.nextAttempt, poll.now,
        poll.before)
  }

  /** The slot a poll executes. */
  function Executed(d: Daemon, poll: Poll): Option<Slot> { Choice(d, poll).slot }

  /** One iteration of the daemon loop. */
  function Tick(d: Daemon, poll: Poll): Daemon {
    var choice := Choice(d, poll);
    var chosen := d.(blockers := choice.blockers);
    if choice.slot.None? then chosen
    else
      var s := choice.slot.value;
      var outcome := poll.execute(s);
      if outcome.passed then Passed(chosen, poll.slots, s) else Failed(chosen, poll, s, outcome)
  }

  function Run(d: Daemon, polls: seq<Poll>): Daemon {
    if polls == [] then d else Tick(Run(d, polls[..|polls| - 1]), polls[|polls| - 1])
  }

  /** A restart reads back the bounded history, the blockers under freshly derived domains, and the attempts. */
  function Restarted(d: Daemon): Daemon {
    Daemon(Elements(d.order), Keep(d.order), map[], Reclassified(d.blockers), d.attempts)
  }

  function Reclassified(blockers: seq<Blocker>): seq<Blocker> {
    seq(|blockers|, i requires 0 <= i < |blockers| => blockers[i].(domain := ErrorDomain(blockers[i].code)))
  }
}
