/** The wait a parked restore performs before its one retry
    (src-tauri/src/startup_restore.rs, wait_for_restore_lease_clear and its two
    entry points). The persisted lease file and the clock are read once per
    iteration; a finite prefix of those readings is the input. */
module LeaseWait {
  import opened Common
  import opened Leases

  /** The clock, then the lease file, as one iteration reads them. */
  datatype Reading = Reading(now: int, leases: Result<seq<Lease>, string>)

  /** How the wait ends; StillWaiting when the readings run out first. */
  datatype Outcome =
    | Clear
    | Withdrawn
    | LoadFailed(error: string)
    | NoValidExpiry
    | StillWaiting

  /** RESTORE_LEASE_RECHECK_INTERVAL, in nanoseconds. */
  const RECHECK_INTERVAL: int := 2_000_000_000

  function ActiveConflicts(config: AgentConfig, leases: seq<Lease>, now: int): (r: seq<Lease>)
    ensures forall lease :: lease in r <==>
      lease in leases && Conflicts(lease, config.sessionId, SessionIdentity(config), now)
  {
    if leases == [] then []
    else
      (if Conflicts(leases[0], config.sessionId, SessionIdentity(config), now) then [leases[0]] else [])
      + ActiveConflicts(config, leases[1..], now)
  }

  /** The least parsable expiry among the leases. */
  function EarliestExpiry(leases: seq<Lease>): (r: Option<int>)
    ensures r.None? <==> forall lease :: lease in leases ==> lease.expiresAt.instant.None?
    ensures r.Some? ==> exists lease :: lease in leases && lease.expiresAt.instant == r
    ensures r.Some? ==>
      forall lease :: lease in leases && lease.expiresAt.instant.Some? ==> r.value <= lease.expiresAt.instant.value
  {
    if leases == [] then None
    else
      var rest := EarliestExpiry(leases[1..]);
      match (leases[0].expiresAt.instant, rest)
      case (None, _) => rest
      case (Some(_), None) => leases[0].expiresAt.instant
      case (Some(t), Some(u)) => if t <= u then leases[0].expiresAt.instant else rest
  }

  /** What one reading means, stated on the lease set rather than on the loop. */
  ghost predicate ActiveOn(config: AgentConfig, reading: Reading, lease: Lease) {
    && reading.leases.Ok?
    && lease in reading.leases.value
    && Conflicts(lease, config.sessionId, SessionIdentity(config), reading.now)
  }

  ghost predicate HasConflict(config: AgentConfig, reading: Reading) {
    exists lease :: ActiveOn(config, reading, lease)
  }

  ghost predicate HasForeignConflict(kind: RetryKind, config: AgentConfig, expected: Lease, reading: Reading) {
    exists lease :: ActiveOn(config, reading, lease) && !SameGeneration(kind, lease, expected)
  }

  /** Only the awaited acquisition still excludes the agent. */
  ghost predicate OnlySameGeneration(kind: RetryKind, config: AgentConfig, expected: Lease, reading: Reading) {
    && reading.leases.Ok?
    && HasConflict(config, reading)
    && !HasForeignConflict(kind, config, expected, reading)
  }

  /** The wait ends at the first reading that is not only the awaited
      acquisition: clear when nothing is active there, withdrawn when something
      foreign is. */
  ghost predicate Decides(kind: RetryKind, config: AgentConfig, expected: Lease,
                          readings: seq<Reading>, k: nat, outcome: Outcome)
  {
    && k < |readings|
    && (forall j :: 0 <= j < k ==> OnlySameGeneration(kind, config, expected, readings[j]))
    && !OnlySameGeneration(kind, config, expected, readings[k])
    && (outcome.LoadFailed? <==> readings[k].leases.Err?)
    && (outcome.LoadFailed? ==> outcome.error == readings[k].leases.error)
    && (outcome.Clear? <==> readings[k].leases.Ok? && !HasConflict(config, readings[k]))
    && (outcome.Withdrawn? <==> HasForeignConflict(kind, config, expected, readings[k]))
  }

  function Loaded(reading: Reading): seq<Lease> {
    if reading.leases.Ok? then reading.leases.value else []
  }

  /** The earliest expiry among the conflicts of a reading. */
  function Deadline(config: AgentConfig, reading: Reading): int {
    var expiry := EarliestExpiry(ActiveConflicts(config, Loaded(reading), reading.now));
    if expiry.Some? then expiry.value else reading.now
  }

  function Delay(config: AgentConfig, reading: Reading): int {
    Min(Deadline(config, reading) - reading.now, RECHECK_INTERVAL)
  }

  function Min(a: int, b: int): int {
    if a <= b then a else b
  }

  /** A lease of the awaited generation is never the uncertain kind, so it
      conflicts only while it has a parsable expiry in the future. This is why
      the "no valid expiry" error and the zero-delay yield are dead code. */
  lemma AwaitedConflictsExpireLater(kind: RetryKind, config: AgentConfig, expected: Lease, reading: Reading)
    requires OnlySameGeneration(kind, config, expected, reading)
    ensures reading.leases.Ok?
    ensures EarliestExpiry(ActiveConflicts(config, reading.leases.value, reading.now)).Some?
    ensures reading.now < Deadline(config, reading)
    ensures 0 < Delay(config, reading) <= RECHECK_INTERVAL
  {
    var conflicts := ActiveConflicts(config, reading.leases.value, reading.now);
    var active :| ActiveOn(config, reading, active);
    assert active in conflicts;
    forall lease | lease in conflicts
      ensures lease.expiresAt.instant.Some? && lease.expiresAt.instant.value > reading.now
    {
      assert ActiveOn(config, reading, lease);
      assert SameGeneration(kind, lease, expected);
    }
    var expiry := EarliestExpiry(conflicts);
    var least :| least in conflicts && least.expiresAt.instant == expiry;
  }

  predicate AnyForeign(kind: RetryKind, conflicts: seq<Lease>, expected: Lease) {
    exists lease | lease in conflicts :: !SameGeneration(kind, lease, expected)
  }

  lemma ConflictsJudgeReading(kind: RetryKind, config: AgentConfig, expected: Lease, reading: Reading)
    ensures var conflicts := ActiveConflicts(config, Loaded(reading), reading.now);
            && (conflicts == [] <==> !HasConflict(config, reading))
            && (AnyForeign(kind, conflicts, expected) <==> HasForeignConflict(kind, config, expected, reading))
  {
    var conflicts := ActiveConflicts(config, Loaded(reading), reading.now);
    assert forall lease :: lease in conflicts <==> ActiveOn(config, reading, lease);
    if conflicts != [] {
      assert ActiveOn(config, reading, conflicts[0]);
    }
  }

  /** The loop of wait_for_restore_lease_clear. `sleeps` are the durations it
      asked the timer for. */
  method WaitForRestoreLeaseClear(kind: RetryKind, config: AgentConfig, expected: Lease, readings: seq<Reading>)
    returns (outcome: Outcome, sleeps: seq<int>)
    ensures outcome.StillWaiting? <==>
      forall j :: 0 <= j < |readings| ==> OnlySameGeneration(kind, config, expected, readings[j])
    ensures outcome.StillWaiting? ==> |sleeps| == |readings|
    ensures !outcome.StillWaiting? ==> Decides(kind, config, expected, readings, |sleeps|, outcome)
    ensures MayBeAwaited(kind, config, expected) ==> WaitMeans(config, expected, readings, |sleeps|, outcome)
    ensures !outcome.NoValidExpiry?
    ensures |sleeps| <= |readings|
    ensures forall j :: 0 <= j < |sleeps| ==>
      sleeps[j] == Delay(config, readings[j]) && 0 < sleeps[j] <= RECHECK_INTERVAL
    ensures forall j :: 0 <= j < |sleeps| ==> SleepsUntilExpiry(config, readings[j], sleeps[j])
  {
    hide SleepsUntilExpiry, Holds, Delay, ActiveConflicts, EarliestExpiry, HasConflict, HasForeignConflict, SameGeneration, MayBeAwaited, WaitMeans;
    sleeps := [];
    while |sleeps| < |readings|
      invariant |sleeps| <= |readings|
      invariant forall j :: 0 <= j < |sleeps| ==> OnlySameGeneration(kind, config, expected, readings[j])
      invariant forall j :: 0 <= j < |sleeps| ==>
        sleeps[j] == Delay(config, readings[j]) && 0 < sleeps[j] <= RECHECK_INTERVAL
        && SleepsUntilExpiry(config, readings[j], sleeps[j])
      decreases |readings| - |sleeps|
    {
      var reading := readings[|sleeps|];
      ConflictsJudgeReading(kind, config, expected, reading);
      if reading.leases.Err? {
        outcome := LoadFailed(reading.leases.error);
        TraceMeans(kind, config, expected, readings, |sleeps|, outcome);
        return;
      }
      var conflicts := ActiveConflicts(config, reading.leases.value, reading.now);
      if conflicts == [] {
        outcome := Clear;
        TraceMeans(kind, config, expected, readings, |sleeps|, outcome);
        return;
      }
      if AnyForeign(kind, conflicts, expected) {
        outcome := Withdrawn;
        TraceMeans(kind, config, expected, readings, |sleeps|, outcome);
        return;
      }
      AwaitedConflictsExpireLater(kind, config, expected, reading);
      var expiry := EarliestExpiry(conflicts);
      if expiry.None? {
        return NoValidExpiry, sleeps;
      }
      var untilExpiry := if expiry.value > reading.now then expiry.value - reading.now else 0;
      DelayIs(config, reading, expiry);
      DelayReachesExpiry(kind, config, expected, reading);
      sleeps := sleeps + [Min(untilExpiry, RECHECK_INTERVAL)];
    }
    outcome := StillWaiting;
    TraceMeans(kind, config, expected, readings, |sleeps|, outcome);
  }

  // ----- the wait in terms of lease fields -----

  /** The reading shows a lease that excludes the agent or its conversation. */
  ghost predicate Holds(config: AgentConfig, reading: Reading, lease: Lease) {
    && reading.leases.Ok? && lease in reading.leases.value
    && exists session :: WouldResume(config, session) && Excludes(lease, config.sessionId, session, reading.now)
  }

  ghost predicate IsHeld(config: AgentConfig, reading: Reading) {
    exists lease :: Holds(config, reading, lease)
  }

  /** Another acquisition, or an uncertain owner, excludes the agent. */
  ghost predicate IsHeldByAnother(config: AgentConfig, expected: Lease, reading: Reading) {
    exists lease :: Holds(config, reading, lease) && !IsSameAcquisition(lease, expected)
  }

  ghost predicate IsHeldByAwaitedOnly(config: AgentConfig, expected: Lease, reading: Reading) {
    IsHeld(config, reading) && !IsHeldByAnother(config, expected, reading)
  }

  ghost predicate MayBeAwaited(kind: RetryKind, config: AgentConfig, expected: Lease) {
    match kind
    case LifecycleLease => IsPassingTransition(config, expected)
    case HeadlessExecutionLease => IsOwnAutomationRun(config, expected)
  }

  /** The verdict of the first reading that does not show the awaited acquisition alone. */
  ghost predicate VerdictAt(config: AgentConfig, expected: Lease, readings: seq<Reading>, k: nat, outcome: Outcome) {
    && k < |readings|
    && (forall j :: 0 <= j < k ==> IsHeldByAwaitedOnly(config, expected, readings[j]))
    && match readings[k].leases
       case Err(e) => outcome == LoadFailed(e)
       case Ok(_) =>
         if !IsHeld(config, readings[k]) then outcome == Clear
         else IsHeldByAnother(config, expected, readings[k]) && outcome == Withdrawn
  }

  /** A sleep of two seconds, or until the first of the leases that exclude the agent
      expires, whichever is shorter. */
  ghost predicate SleepsUntilExpiry(config: AgentConfig, reading: Reading, sleep: int) {
    && sleep <= 2_000_000_000
    && (forall lease :: Holds(config, reading, lease) ==>
          lease.expiresAt.instant.Some? && reading.now + sleep <= lease.expiresAt.instant.value)
    && (sleep == 2_000_000_000
        || exists lease :: Holds(config, reading, lease) && lease.expiresAt.instant == Some(reading.now + sleep))
  }

  lemma DelayIs(config: AgentConfig, reading: Reading, expiry: Option<int>)
    requires reading.leases.Ok?
    requires expiry.Some? && expiry == EarliestExpiry(ActiveConflicts(config, reading.leases.value, reading.now))
    requires reading.now < Deadline(config, reading)
    ensures Delay(config, reading) == Min(if expiry.value > reading.now then expiry.value - reading.now else 0, RECHECK_INTERVAL)
  {
    hide EarliestExpiry, ActiveConflicts;
  }

  lemma DelayReachesExpiry(kind: RetryKind, config: AgentConfig, expected: Lease, reading: Reading)
    requires OnlySameGeneration(kind, config, expected, reading)
    ensures SleepsUntilExpiry(config, reading, Delay(config, reading))
  {
    hide Holds, ActiveOn, SameGeneration, Conflicts, SessionIdentity;
    AwaitedConflictsExpireLater(kind, config, expected, reading);
    var conflicts := ActiveConflicts(config, reading.leases.value, reading.now);
    var expiry := EarliestExpiry(conflicts);
    assert Deadline(config, reading) == expiry.value;
    forall lease
      ensures lease in conflicts <==> Holds(config, reading, lease)
    {
      ActiveIffHolds(config, reading, lease);
      InConflictsIff(config, reading, lease);
    }
    forall lease | lease in conflicts
      ensures lease.expiresAt.instant.Some?
    {
      InConflictsIff(config, reading, lease);
      AwaitedHasExpiry(kind, config, expected, reading, lease);
    }
    hide ActiveConflicts, EarliestExpiry;
    var first :| first in conflicts && first.expiresAt.instant == expiry;
  }

  lemma InConflictsIff(config: AgentConfig, reading: Reading, lease: Lease)
    requires reading.leases.Ok?
    ensures lease in ActiveConflicts(config, reading.leases.value, reading.now) <==> ActiveOn(config, reading, lease)
  {
    hide ActiveConflicts, Conflicts;
  }

  lemma AwaitedHasExpiry(kind: RetryKind, config: AgentConfig, expected: Lease, reading: Reading, lease: Lease)
    requires OnlySameGeneration(kind, config, expected, reading) && ActiveOn(config, reading, lease)
    ensures lease.expiresAt.instant.Some?
  {
    assert SameGeneration(kind, lease, expected);
  }

  /** What the wait has to say about a trace in which `k` readings kept it going. */
  ghost predicate WaitMeans(config: AgentConfig, expected: Lease, readings: seq<Reading>, k: nat, outcome: Outcome) {
    && (outcome.StillWaiting? <==>
        forall j :: 0 <= j < |readings| ==> IsHeldByAwaitedOnly(config, expected, readings[j]))
    && (!outcome.StillWaiting? ==> VerdictAt(config, expected, readings, k, outcome))
  }

  lemma ActiveIffHolds(config: AgentConfig, reading: Reading, lease: Lease)
    ensures ActiveOn(config, reading, lease) <==> Holds(config, reading, lease)
  {
    hide WouldResume, Excludes, Conflicts, SessionIdentity;
    SessionIdentityIs(config, SessionIdentity(config));
    ConflictsIffExcludes(lease, config.sessionId, SessionIdentity(config), reading.now);
    forall session | WouldResume(config, session)
      ensures session == SessionIdentity(config)
    {
      SessionIdentityIs(config, session);
    }
  }

  /** The awaited acquisition alone is what keeps a wait going: any other lease that
      excludes the agent ends it. */
  lemma ReadingMeans(kind: RetryKind, config: AgentConfig, expected: Lease, reading: Reading)
    requires MayBeAwaited(kind, config, expected)
    ensures HasConflict(config, reading) <==> IsHeld(config, reading)
    ensures HasForeignConflict(kind, config, expected, reading) <==> IsHeldByAnother(config, expected, reading)
    ensures OnlySameGeneration(kind, config, expected, reading) <==> IsHeldByAwaitedOnly(config, expected, reading)
  {
    hide ActiveOn, Holds, SameGeneration, IsSameAcquisition, IsPassingTransition, IsOwnAutomationRun;
    forall lease
      ensures ActiveOn(config, reading, lease) <==> Holds(config, reading, lease)
      ensures SameGeneration(kind, lease, expected) <==> IsSameAcquisition(lease, expected)
    {
      ActiveIffHolds(config, reading, lease);
      SameGenerationIff(kind, config, lease, expected);
    }
    if exists lease :: Holds(config, reading, lease) {
      var lease :| Holds(config, reading, lease);
      HeldMeansLoaded(config, reading, lease);
    }
  }

  lemma HeldMeansLoaded(config: AgentConfig, reading: Reading, lease: Lease)
    requires Holds(config, reading, lease)
    ensures reading.leases.Ok?
  {}

  lemma TraceMeans(kind: RetryKind, config: AgentConfig, expected: Lease, readings: seq<Reading>, k: nat, outcome: Outcome)
    requires !outcome.NoValidExpiry?
    requires outcome.StillWaiting? <==>
      forall j :: 0 <= j < |readings| ==> OnlySameGeneration(kind, config, expected, readings[j])
    requires !outcome.StillWaiting? ==> Decides(kind, config, expected, readings, k, outcome)
    ensures MayBeAwaited(kind, config, expected) ==> WaitMeans(config, expected, readings, k, outcome)
  {
    if MayBeAwaited(kind, config, expected) {
      AwaitedTraceMeans(kind, config, expected, readings, k, outcome);
    }
  }

  lemma AwaitedTraceMeans(kind: RetryKind, config: AgentConfig, expected: Lease, readings: seq<Reading>, k: nat,
                          outcome: Outcome)
    requires !outcome.NoValidExpiry? && MayBeAwaited(kind, config, expected)
    requires outcome.StillWaiting? <==>
      forall j :: 0 <= j < |readings| ==> OnlySameGeneration(kind, config, expected, readings[j])
    requires !outcome.StillWaiting? ==> Decides(kind, config, expected, readings, k, outcome)
    ensures WaitMeans(config, expected, readings, k, outcome)
  {
    hide HasConflict, HasForeignConflict, OnlySameGeneration, IsHeld, IsHeldByAnother, IsHeldByAwaitedOnly, MayBeAwaited;
    forall j | 0 <= j < |readings|
      ensures HasConflict(config, readings[j]) <==> IsHeld(config, readings[j])
      ensures HasForeignConflict(kind, config, expected, readings[j]) <==> IsHeldByAnother(config, expected, readings[j])
      ensures OnlySameGeneration(kind, config, expected, readings[j]) <==> IsHeldByAwaitedOnly(config, expected, readings[j])
      ensures readings[j].leases.Ok? && !OnlySameGeneration(kind, config, expected, readings[j]) ==>
        !HasConflict(config, readings[j]) || HasForeignConflict(kind, config, expected, readings[j])
      ensures HasForeignConflict(kind, config, expected, readings[j]) ==> HasConflict(config, readings[j])
      ensures HasConflict(config, readings[j]) ==> readings[j].leases.Ok?
    {
      ReadingMeans(kind, config, expected, readings[j]);
      ForeignIsConflict(kind, config, expected, readings[j]);
    }
  }

  lemma ForeignIsConflict(kind: RetryKind, config: AgentConfig, expected: Lease, reading: Reading)
    ensures HasForeignConflict(kind, config, expected, reading) ==> HasConflict(config, reading)
    ensures HasConflict(config, reading) ==> reading.leases.Ok?
    ensures reading.leases.Ok? && !OnlySameGeneration(kind, config, expected, reading) ==>
      !HasConflict(config, reading) || HasForeignConflict(kind, config, expected, reading)
  {
    hide SameGeneration, Conflicts, SessionIdentity;
  }

  /** wait_for_lifecycle_restore_lease and wait_for_headless_execution_restore_lease:
      the headless wait refuses a lease that could not have parked it. For a lease that
      can be awaited, the wait goes on exactly while that acquisition, renewed or not, is
      all that excludes the agent. */
  method WaitForRetry(kind: RetryKind, config: AgentConfig, expected: Lease, readings: seq<Reading>)
    returns (outcome: Outcome, sleeps: seq<int>)
    ensures kind.HeadlessExecutionLease? && !IsOwnAutomationRun(config, expected) ==>
      outcome == Withdrawn && sleeps == []
    ensures kind.LifecycleLease? || IsOwnAutomationRun(config, expected) ==>
      && (outcome.StillWaiting? <==>
          forall j :: 0 <= j < |readings| ==> OnlySameGeneration(kind, config, expected, readings[j]))
      && (!outcome.StillWaiting? ==> Decides(kind, config, expected, readings, |sleeps|, outcome))
    ensures MayBeAwaited(kind, config, expected) ==> WaitMeans(config, expected, readings, |sleeps|, outcome)
  {
    hide Decides, WaitMeans, OnlySameGeneration, IsHeldByAwaitedOnly, RetryableHeadless, IsOwnAutomationRun, IsPassingTransition;
    RetryableIff(config, expected);
    if kind.HeadlessExecutionLease? {
      var retryable := RetryableHeadless(config, expected);
      if retryable.None? {
        return Withdrawn, [];
      }
    }
    outcome, sleeps := WaitForRestoreLeaseClear(kind, config, expected, readings);
  }

  /** So the first reading with a lease that excludes the agent and is another
      acquisition, or an uncertain owner, withdraws the retry. */
  lemma AnotherAcquisitionWithdraws(kind: RetryKind, config: AgentConfig, expected: Lease,
                                    readings: seq<Reading>, k: nat, outcome: Outcome, lease: Lease)
    requires MayBeAwaited(kind, config, expected) && VerdictAt(config, expected, readings, k, outcome)
    requires Holds(config, readings[k], lease)
    requires lease.acquisitionId != expected.acquisitionId || lease.startedAt.text != expected.startedAt.text
          || lease.ownerId != expected.ownerId || lease.mode == "uncertain_previous_provider"
    ensures outcome == Withdrawn
  {
    hide Holds;
    assert lease.mode == "uncertain_previous_provider" ==> lease.mode != expected.mode;
    assert !IsSameAcquisition(lease, expected);
    HeldMeansLoaded(config, readings[k], lease);
  }

  /** The deciding reading and its verdict are unique: the wait is a function of
      the trace. */
  lemma DecisionIsUnique(kind: RetryKind, config: AgentConfig, expected: Lease, readings: seq<Reading>,
                         k: nat, outcome: Outcome, k': nat, outcome': Outcome)
    requires Decides(kind, config, expected, readings, k, outcome)
    requires Decides(kind, config, expected, readings, k', outcome')
    requires !outcome.NoValidExpiry? && !outcome'.NoValidExpiry?
    requires !outcome.StillWaiting? && !outcome'.StillWaiting?
    ensures k == k' && outcome == outcome'
  {}

  /** A parked retry never gives up on the very lease that parked it: while that
      acquisition, renewed or not, is the only active one, the wait goes on. */
  lemma RetryableLeaseIsAwaited(kind: RetryKind, config: AgentConfig, lease: Lease, renewed: Lease, now: int)
    requires Retryable(kind, config, lease).Some?
    requires IsSameAcquisition(renewed, lease)
    requires renewed.expiresAt.instant.Some? && renewed.expiresAt.instant.value > now
    ensures OnlySameGeneration(kind, config, lease, Reading(now, Ok([renewed])))
  {
    var reading := Reading(now, Ok([renewed]));
    IdentityIsNotBlank(config);
    assert renewed in reading.leases.value;
    assert ActiveOn(config, reading, renewed);
  }

  lemma IdentityIsNotBlank(config: AgentConfig)
    ensures SessionIdentity(config) != "" ==> !IsBlank(SessionIdentity(config))
  {
    var session := SessionIdentity(config);
    if session != "" {
      var raw := if config.resumeSession.Some? && !IsBlank(config.resumeSession.value)
                 then config.resumeSession.value else config.freshSession.value;
      TrimKeepsStart(TrimStart(raw));
    }
  }

  /** What is left after trimming starts and ends with ink, so trimming it again
      leaves something. */
  lemma {:induction false} TrimKeepsStart(s: string)
    requires s == "" || !IsWhitespace(s[0])
    ensures TrimEnd(s) == "" || !IsWhitespace(TrimEnd(s)[0])
    ensures TrimEnd(s) != "" ==> Trim(TrimEnd(s)) != ""
  {
    if s != "" && IsWhitespace(s[|s| - 1]) {
      if |s| > 1 {
        assert s[..|s| - 1][0] == s[0];
      }
      TrimKeepsStart(s[..|s| - 1]);
    }
  }

  /** Heartbeat renewals of the awaited acquisition keep the wait going: later
      readings in which only same-generation leases moved, and some conflict is
      left, still wait. */
  lemma HeartbeatKeepsWaiting(kind: RetryKind, config: AgentConfig, expected: Lease, before: Reading, after: Reading)
    requires OnlySameGeneration(kind, config, expected, before)
    requires before.now <= after.now
    requires after.leases.Ok? && |after.leases.value| == |before.leases.value|
    requires forall i :: 0 <= i < |after.leases.value| ==>
      || after.leases.value[i] == before.leases.value[i]
      || (IsSameAcquisition(after.leases.value[i], before.leases.value[i])
          && SameGeneration(kind, before.leases.value[i], expected))
    requires HasConflict(config, after)
    ensures OnlySameGeneration(kind, config, expected, after)
  {}

  // ----- the bound on the number of reloads -----

  /** The timer never wakes the wait early. */
  ghost predicate ClockAdvances(config: AgentConfig, readings: seq<Reading>) {
    forall j :: 0 <= j < |readings| - 1 ==>
      readings[j + 1].now >= readings[j].now + Delay(config, readings[j])
  }

  /** How often the awaited deadline was seen to move between two readings. */
  ghost function Renewals(config: AgentConfig, readings: seq<Reading>): nat
  {
    if |readings| <= 1 then 0
    else
      (if Deadline(config, readings[0]) != Deadline(config, readings[1]) then 1 else 0)
      + Renewals(config, readings[1..])
  }

  ghost function CeilDiv(a: int, b: int): int
    requires b > 0
  {
    (a + b - 1) / b
  }

  /** If no deadline seen lies beyond `last`, a waiting prefix is no longer than
      the whole time left in two-second slices plus the renewals seen. */
  lemma {:induction false} WaitIsBounded(kind: RetryKind, config: AgentConfig, expected: Lease,
                                         readings: seq<Reading>, last: int)
    requires readings != []
    requires forall j :: 0 <= j < |readings| ==> OnlySameGeneration(kind, config, expected, readings[j])
    requires ClockAdvances(config, readings)
    requires forall j :: 0 <= j < |readings| ==> Deadline(config, readings[j]) <= last
    ensures |readings| <= CeilDiv(last - readings[0].now, RECHECK_INTERVAL) + Renewals(config, readings)
  {
    hide ActiveConflicts, EarliestExpiry, HasConflict, HasForeignConflict, Deadline;
    AwaitedConflictsExpireLater(kind, config, expected, readings[0]);
    if |readings| > 1 {
      var rest := readings[1..];
      AwaitedConflictsExpireLater(kind, config, expected, readings[1]);
      forall j | 0 <= j < |rest| - 1
        ensures rest[j + 1].now >= rest[j].now + Delay(config, rest[j])
      {
        assert rest[j] == readings[j + 1] && rest[j + 1] == readings[j + 2];
      }
      WaitIsBounded(kind, config, expected, rest, last);
    }
  }

  /** An unrenewed lease needs at most ceil((expiry - start) / 2 s) waits, so one
      reload more until the wait is over. */
  lemma UnrenewedWaitIsBounded(kind: RetryKind, config: AgentConfig, expected: Lease,
                               readings: seq<Reading>, expiry: int)
    requires readings != []
    requires forall j :: 0 <= j < |readings| ==> OnlySameGeneration(kind, config, expected, readings[j])
    requires ClockAdvances(config, readings)
    requires forall j :: 0 <= j < |readings| ==> Deadline(config, readings[j]) == expiry
    ensures |readings| + 1 <= CeilDiv(expiry - readings[0].now, RECHECK_INTERVAL) + 1
  {
    WaitIsBounded(kind, config, expected, readings, expiry);
    NoRenewalsSeen(config, readings, expiry);
  }

  lemma {:induction false} NoRenewalsSeen(config: AgentConfig, readings: seq<Reading>, expiry: int)
    requires forall j :: 0 <= j < |readings| ==> Deadline(config, readings[j]) == expiry
    ensures Renewals(config, readings) == 0
  {
    if |readings| > 1 {
      NoRenewalsSeen(config, readings[1..], expiry);
    }
  }

  /** However often the lease is renewed, the wait ends if the renewals stay
      below some instant: every sleep is at least one clock tick. */
  lemma {:induction false} BoundedRenewalTerminates(kind: RetryKind, config: AgentConfig, expected: Lease,
                                                    readings: seq<Reading>, last: int)
    requires readings != []
    requires forall j :: 0 <= j < |readings| ==> OnlySameGeneration(kind, config, expected, readings[j])
    requires ClockAdvances(config, readings)
    requires forall j :: 0 <= j < |readings| ==> Deadline(config, readings[j]) <= last
    ensures |readings| <= last - readings[0].now
  {
    hide ActiveConflicts, EarliestExpiry, HasConflict, HasForeignConflict, Deadline;
    AwaitedConflictsExpireLater(kind, config, expected, readings[0]);
    if |readings| > 1 {
      var rest := readings[1..];
      forall j | 0 <= j < |rest| - 1
        ensures rest[j + 1].now >= rest[j].now + Delay(config, rest[j])
      {
        assert rest[j] == readings[j + 1] && rest[j + 1] == readings[j + 2];
      }
      BoundedRenewalTerminates(kind, config, expected, rest, last);
    }
  }
}
