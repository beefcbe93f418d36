/** Conversation leases as startup restoration reads them
    (crates/wardian-core/src/conversation_lease.rs and the first half of
    src-tauri/src/startup_restore.rs). */
module Leases {
  import opened Common

  /** An RFC 3339 text together with the instant it denotes, in nanoseconds;
      None when the text does not parse. */
  datatype Stamp = Stamp(text: string, instant: Option<int>)

  /** The fields of an agent configuration that restoration inspects; `rest`
      stands for everything else the serialised form compares. */
  datatype AgentConfig = AgentConfig(
    sessionId: string,
    provider: string,
    resumeSession: Option<string>,
    freshSession: Option<string>,
    isOff: bool,
    name: string,
    rest: string)

  datatype Lease = Lease(
    agentId: string,
    provider: string,
    resumeSession: string,
    ownerKind: string,
    ownerId: string,
    acquisitionId: string,
    ownerNodeId: Option<string>,
    mode: string,
    startedAt: Stamp,
    heartbeatAt: Stamp,
    expiresAt: Stamp)

  datatype RetryKind = LifecycleLease | HeadlessExecutionLease

  /** The conversation a restore would resume: the saved session, else the
      fresh provider session, else none. */
  function SessionIdentity(config: AgentConfig): string {
    if config.resumeSession.Some? && !IsBlank(config.resumeSession.value) then
      Trim(config.resumeSession.value)
    else if config.freshSession.Some? && !IsBlank(config.freshSession.value) then
      Trim(config.freshSession.value)
    else
      ""
  }

  /** An uncertain previous provider excludes its conversation whatever the
      clock says; every other lease excludes only until it expires. */
  predicate Conflicts(lease: Lease, agentId: string, session: string, now: int) {
    if lease.mode == "uncertain_previous_provider" then
      !IsBlank(session) && lease.resumeSession == session
    else
      && lease.expiresAt.instant.Some?
      && lease.expiresAt.instant.value > now
      && (lease.agentId == agentId || (!IsBlank(session) && lease.resumeSession == session))
  }

  predicate IsHeadlessExecution(lease: Lease) {
    lease.mode == "background_resume" || lease.mode == "background_fresh"
  }

  predicate HasActiveHeadlessExecution(config: AgentConfig, leases: seq<Lease>, now: int) {
    var session := if config.resumeSession.Some? then config.resumeSession.value else "";
    exists lease | lease in leases ::
      IsHeadlessExecution(lease) && Conflicts(lease, config.sessionId, session, now)
  }

  predicate IsRetryableOwner(lease: Lease) {
    || lease.ownerKind == "provider_spawn"
    || (lease.ownerKind == "agent_lifecycle" && "resume:" <= lease.ownerId)
  }

  function RetryableLifecycle(config: AgentConfig, lease: Lease): Option<Lease> {
    var session := SessionIdentity(config);
    if || !IsRetryableOwner(lease)
       || lease.mode != "lifecycle_transition"
       || (lease.agentId != config.sessionId && (session == "" || lease.resumeSession != session))
    then None
    else if lease.expiresAt.instant.None? then None
    else Some(lease)
  }

  function RetryableHeadless(config: AgentConfig, lease: Lease): Option<Lease> {
    var session := SessionIdentity(config);
    var matchingIntent :=
      if lease.mode == "background_fresh" then lease.resumeSession == ""
      else if lease.mode == "background_resume" then session != "" && lease.resumeSession == session
      else false;
    if || config.isOff
       || lease.ownerKind != "automation_run"
       || IsBlank(lease.ownerId)
       || IsBlank(lease.acquisitionId)
       || lease.ownerNodeId.None?
       || IsBlank(lease.ownerNodeId.value)
       || lease.agentId != config.sessionId
       || lease.provider != config.provider
       || !matchingIntent
    then None
    else if lease.startedAt.instant.None? || lease.expiresAt.instant.None? then None
    else Some(lease)
  }

  function Retryable(kind: RetryKind, config: AgentConfig, lease: Lease): Option<Lease> {
    match kind
    case LifecycleLease => RetryableLifecycle(config, lease)
    case HeadlessExecutionLease => RetryableHeadless(config, lease)
  }

  /** Whether `current` is a later reading of the acquisition `expected`. Neither
      the heartbeat nor the expiry takes part, so a renewal does not matter. */
  predicate SameGeneration(kind: RetryKind, current: Lease, expected: Lease) {
    && (match kind
        case LifecycleLease =>
          IsRetryableOwner(current) && current.mode == "lifecycle_transition"
        case HeadlessExecutionLease =>
          && current.ownerKind == "automation_run"
          && IsHeadlessExecution(current)
          && current.mode == expected.mode)
    && current.ownerKind == expected.ownerKind
    && current.ownerId == expected.ownerId
    && current.acquisitionId == expected.acquisitionId
    && current.startedAt.text == expected.startedAt.text
    && current.agentId == expected.agentId
    && current.provider == expected.provider
    && current.resumeSession == expected.resumeSession
    && current.ownerNodeId == expected.ownerNodeId
  }

  // ----- what the fields of a lease say -----

  /** The conversation an agent would resume: the saved session if it has ink, else the
      fresh one, without the blanks around it. */
  ghost predicate WouldResume(config: AgentConfig, session: string) {
    && (HasInk(config.resumeSession) ==> session == Trim(config.resumeSession.value))
    && (!HasInk(config.resumeSession) && HasInk(config.freshSession) ==> session == Trim(config.freshSession.value))
    && (!HasInk(config.resumeSession) && !HasInk(config.freshSession) ==> session == "")
  }

  /** The lease takes the agent's conversation, whatever it calls itself. */
  ghost predicate TakesConversation(config: AgentConfig, lease: Lease) {
    lease.resumeSession != "" && WouldResume(config, lease.resumeSession)
  }

  /** An automation run of this very agent holds the conversation that the agent would
      resume, or a fresh one. */
  ghost predicate IsOwnAutomationRun(config: AgentConfig, lease: Lease) {
    && !config.isOff
    && lease.ownerKind == "automation_run"
    && lease.agentId == config.sessionId && lease.provider == config.provider
    && HasInk(Some(lease.ownerId)) && HasInk(Some(lease.acquisitionId)) && HasInk(lease.ownerNodeId)
    && ((lease.mode == "background_fresh" && lease.resumeSession == "")
        || (lease.mode == "background_resume" && TakesConversation(config, lease)))
    && lease.startedAt.instant.Some? && lease.expiresAt.instant.Some?
  }

  /** Somebody starts or resumes this agent, or a provider of its conversation. */
  ghost predicate IsPassingTransition(config: AgentConfig, lease: Lease) {
    && lease.mode == "lifecycle_transition"
    && (lease.ownerKind == "provider_spawn"
        || (lease.ownerKind == "agent_lifecycle" && |lease.ownerId| >= 7 && lease.ownerId[..7] == "resume:"))
    && (lease.agentId == config.sessionId || TakesConversation(config, lease))
    && lease.expiresAt.instant.Some?
  }

  /** The lease keeps others from the agent and from the session: an uncertain previous
      provider from its session for good, any other lease until it expires. */
  ghost predicate Excludes(lease: Lease, agentId: string, session: string, now: int) {
    || (lease.mode == "uncertain_previous_provider" && HasInk(Some(session)) && lease.resumeSession == session)
    || (&& lease.mode != "uncertain_previous_provider"
        && (lease.agentId == agentId || (HasInk(Some(session)) && lease.resumeSession == session))
        && lease.expiresAt.instant.Some? && now < lease.expiresAt.instant.value)
  }

  /** A headless execution of the agent, or of its saved session as it is written,
      is going on. */
  ghost predicate RunsHeadless(config: AgentConfig, leases: seq<Lease>, now: int) {
    exists k :: 0 <= k < |leases| && RunsHeadlessUnder(config, leases[k], now)
  }

  ghost predicate RunsHeadlessUnder(config: AgentConfig, lease: Lease, now: int) {
    && (lease.mode == "background_resume" || lease.mode == "background_fresh")
    && (exists session :: SavedSessionIs(config, session) && Excludes(lease, config.sessionId, session, now))
  }

  ghost predicate SavedSessionIs(config: AgentConfig, session: string) {
    session == match config.resumeSession case None => "" case Some(saved) => saved
  }

  lemma SessionIdentityIs(config: AgentConfig, session: string)
    ensures WouldResume(config, session) <==> session == SessionIdentity(config)
    ensures SessionIdentity(config) != "" <==> HasInk(config.resumeSession) || HasInk(config.freshSession)
  {
    hide HasInk;
    if config.resumeSession.Some? {
      BlankHasNoInk(config.resumeSession.value);
    } else {
      NoneHasNoInk();
    }
    if config.freshSession.Some? {
      BlankHasNoInk(config.freshSession.value);
    } else {
      NoneHasNoInk();
    }
  }

  lemma ConflictsIffExcludes(lease: Lease, agentId: string, session: string, now: int)
    ensures Conflicts(lease, agentId, session, now) <==> Excludes(lease, agentId, session, now)
  {
    BlankHasNoInk(session);
    hide HasInk;
  }

  /** A restore is retried after a headless execution iff the agent's own automation run
      refused it, and after a transition iff somebody only starts or resumes. */
  lemma RetryableIff(config: AgentConfig, lease: Lease)
    ensures RetryableHeadless(config, lease)
         == if IsOwnAutomationRun(config, lease) then Some(lease) else None
    ensures RetryableLifecycle(config, lease)
         == if IsPassingTransition(config, lease) then Some(lease) else None
  {
    SessionIdentityIs(config, lease.resumeSession);
    SessionIdentityIs(config, SessionIdentity(config));
    BlankHasNoInk(lease.ownerId);
    BlankHasNoInk(lease.acquisitionId);
    if lease.ownerNodeId.Some? {
      BlankHasNoInk(lease.ownerNodeId.value);
    } else {
      NoneHasNoInk();
    }
    hide HasInk, SessionIdentity, WouldResume;
    assert "resume:" <= lease.ownerId <==> |lease.ownerId| >= 7 && lease.ownerId[..7] == "resume:";
  }

  lemma HeadlessExecutionIff(config: AgentConfig, leases: seq<Lease>, now: int)
    ensures HasActiveHeadlessExecution(config, leases, now) <==> RunsHeadless(config, leases, now)
  {
    var session := if config.resumeSession.Some? then config.resumeSession.value else "";
    assert SavedSessionIs(config, session);
    hide Conflicts, Excludes;
    if lease :| lease in leases && IsHeadlessExecution(lease) && Conflicts(lease, config.sessionId, session, now) {
      ConflictsIffExcludes(lease, config.sessionId, session, now);
      var k :| 0 <= k < |leases| && leases[k] == lease;
      assert RunsHeadlessUnder(config, leases[k], now);
    }
    if k :| 0 <= k < |leases| && RunsHeadlessUnder(config, leases[k], now) {
      ConflictsIffExcludes(leases[k], config.sessionId, session, now);
    }
  }

  /** The same acquisition, read again: nothing but the heartbeat, the expiry and the
      reading of the same start text may differ. */
  ghost predicate IsSameAcquisition(current: Lease, expected: Lease) {
    && current.startedAt.text == expected.startedAt.text
    && current == expected.(startedAt := current.startedAt, heartbeatAt := current.heartbeatAt, expiresAt := current.expiresAt)
  }

  /** What parked a retry is awaited under these fields and no others. */
  lemma SameGenerationIff(kind: RetryKind, config: AgentConfig, current: Lease, expected: Lease)
    requires match kind
             case LifecycleLease => IsPassingTransition(config, expected)
             case HeadlessExecutionLease => IsOwnAutomationRun(config, expected)
    ensures SameGeneration(kind, current, expected) <==> IsSameAcquisition(current, expected)
  {
    RetryableIff(config, expected);
    hide HasInk, WouldResume;
  }
}
