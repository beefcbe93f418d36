/** What startup restoration makes of every saved agent: which refused spawns are
    retried, what is published, and that nobody is lost or left restoring. All of it is
    stated on lease fields and on the history of a run. */
module RestoreOutcomes {
  import opened Common
  import opened Leases
  import opened RestorePublication
  import opened RestoreProtocol
  import opened RestoreInvariant

  // ----- one refused spawn -----

  /** The spawn was refused by the agent's own automation run, or one is going on. */
  ghost predicate MeetsHeadless(config: AgentConfig, outcome: SpawnOutcome)
    requires outcome.Refused?
  {
    || (outcome.conflict.Some? && IsOwnAutomationRun(config, outcome.conflict.value))
    || (outcome.loaded.Ok? && RunsHeadless(config, outcome.loaded.value, outcome.now))
  }

  /** The lease is worth a retry of this kind. */
  ghost predicate Parks(config: AgentConfig, outcome: SpawnOutcome, kind: RetryKind, lease: Lease) {
    && outcome.Refused? && outcome.conflict == Some(lease)
    && match kind
       case HeadlessExecutionLease => IsOwnAutomationRun(config, lease)
       case LifecycleLease => IsPassingTransition(config, lease) && !MeetsHeadless(config, outcome)
  }

  /** The entry that an outcome leads to. */
  ghost predicate IsOutcomeOf(config: AgentConfig, outcome: SpawnOutcome, agent: ActiveAgent) {
    match outcome
    case Spawned(spawned) => agent == spawned
    case Refused(_, _, _) =>
      && agent.config == config && agent.generation.None? && agent.process.None?
      && agent.status == if MeetsHeadless(config, outcome) then "Headless" else "Error"
    case Cancelled => false
  }

  lemma FindsHeadlessIff(config: AgentConfig, outcome: SpawnOutcome)
    requires outcome.Refused?
    ensures FindsHeadless(config, outcome) <==> MeetsHeadless(config, outcome)
  {
    hide RetryableHeadless, IsOwnAutomationRun, HasActiveHeadlessExecution, RunsHeadless;
    if outcome.conflict.Some? {
      RetryableIff(config, outcome.conflict.value);
    }
    if outcome.loaded.Ok? {
      HeadlessExecutionIff(config, outcome.loaded.value, outcome.now);
    }
  }

  /** What pass 2 publishes, and the retry it asks for: exactly the one the lease is
      worth. */
  lemma SettleMeans(config: AgentConfig, cell: nat, outcome: SpawnOutcome)
    requires !outcome.Cancelled?
    ensures var (agent, plan) := Settle(config, cell, outcome);
            && IsOutcomeOf(config, outcome, agent)
            && (outcome.Refused? ==> agent.cell == cell)
            && (plan.Some? ==> plan.value.config == config && plan.value.cell == agent.cell)
            && forall kind, lease ::
                 plan.Some? && plan.value.kind == kind && plan.value.lease == lease <==> Parks(config, outcome, kind, lease)
  {
    hide RetryableHeadless, RetryableLifecycle, IsOwnAutomationRun, IsPassingTransition, FindsHeadless, MeetsHeadless;
    if outcome.Refused? {
      FindsHeadlessIff(config, outcome);
      if outcome.conflict.Some? {
        RetryableIff(config, outcome.conflict.value);
        OwnRunIsMet(config, outcome);
        KindsExclude(config, outcome.conflict.value);
      }
    }
  }

  lemma OwnRunIsMet(config: AgentConfig, outcome: SpawnOutcome)
    requires outcome.Refused? && outcome.conflict.Some?
    ensures IsOwnAutomationRun(config, outcome.conflict.value) ==> MeetsHeadless(config, outcome)
  {}

  lemma KindsExclude(config: AgentConfig, lease: Lease)
    ensures !(IsOwnAutomationRun(config, lease) && IsPassingTransition(config, lease))
  {}

  /** The retry leaves the placeholder alone: it was cancelled, or it waited for an
      execution and another owner won. */
  predicate LeavesPlaceholder(plan: RetryPlan, outcome: SpawnOutcome) {
    outcome.Cancelled? || (outcome.Refused? && outcome.conflict.Some? && plan.kind.HeadlessExecutionLease?)
  }

  /** What a retry publishes: nothing if it was cancelled, and nothing if it waited for
      an execution and another owner won. */
  lemma SettleRetryMeans(plan: RetryPlan, cell: nat, outcome: SpawnOutcome)
    ensures var agent := SettleRetry(plan, cell, outcome);
            && (agent.None? <==> LeavesPlaceholder(plan, outcome))
            && (agent.Some? ==> IsOutcomeOf(plan.config, outcome, agent.value))
            && (agent.Some? && outcome.Refused? ==> agent.value.cell == cell)
  {
    hide FindsHeadless, MeetsHeadless;
    if outcome.Refused? {
      FindsHeadlessIff(plan.config, outcome);
    }
  }

  // ----- the entry of every agent after every step -----

  ghost predicate SameEntry(s: State, s': State, id: string) {
    (id in s'.agents <==> id in s.agents) && (id in s.agents ==> s'.agents[id] == s.agents[id])
  }

  /** What a step makes of an agent's entry. */
  ghost predicate EntryFollows(s: State, a: Action, s': State, id: string) {
    match a
    case PublishUnprepared(config) =>
      if id == config.sessionId then id in s'.agents && s'.agents[id] == ActiveAgent(config, s.nextCell, "Error", None, None)
      else SameEntry(s, s', id)
    case PublishPlaceholder(config) =>
      if id == config.sessionId then
        id in s'.agents && s'.agents[id] == ActiveAgent(config, s.nextCell, "Restoring", None, None)
      else SameEntry(s, s', id)
    case PublishSpawn(_, config, outcome) =>
      if id == config.sessionId then
        && id in s'.agents && IsOutcomeOf(config, outcome, s'.agents[id])
        && (outcome.Refused? ==> s'.agents[id].cell == s.nextCell)
      else SameEntry(s, s', id)
    case EndRetry(k, outcome) =>
      if k < |s.retries| && id == s.retries[k].plan.config.sessionId && !LeavesPlaceholder(s.retries[k].plan, outcome) then
        && id in s'.agents && IsOutcomeOf(s.retries[k].plan.config, outcome, s'.agents[id])
        && (outcome.Refused? ==> s'.agents[id].cell == s.nextCell)
      else SameEntry(s, s', id)
    case OutsideChange(other, agent) =>
      if id == other then
        match agent case Some(value) => id in s'.agents && s'.agents[id] == value case None => id !in s'.agents
      else SameEntry(s, s', id)
    case StatusObserved(other, status) =>
      if id == other then id in s.agents && id in s'.agents && s'.agents[id] == s.agents[id].(status := status)
      else SameEntry(s, s', id)
    case _ => SameEntry(s, s', id)
  }

  /** Each step changes the entry it is about, in the stated way, and no other one. */
  lemma StepPublishes(s: State, a: Action, id: string)
    requires Enabled(s, a)
    ensures EntryFollows(s, a, Apply(s, a), id)
  {
    hide Settle, SettleRetry, IsOutcomeOf, IsCurrentPlaceholder;
    match a
    case PublishSpawn(_, config, outcome) => SettleMeans(config, s.nextCell, outcome);
    case EndRetry(k, outcome) => SettleRetryMeans(s.retries[k].plan, s.nextCell, outcome);
    case _ =>
  }

  /** The lifecycle gate that a step takes or gives back. */
  ghost predicate GatesFollow(s: State, a: Action, s': State) {
    && s'.outside == (match a
                      case OutsideTake(id) => s.outside + {id}
                      case OutsideRelease(id) => s.outside - {id}
                      case _ => s.outside)
    && (match a
        case TakeGate =>
          s.main.AwaitGate? && s.main.at < |s.roster|
          && s'.claimed == if At(s, s.main.at) in s.agents then s.claimed else s.claimed + {At(s, s.main.at)}
        case PublishUnprepared(config) => s'.claimed == s.claimed - {config.sessionId}
        case EndTask(k) =>
          k < |s.tasks| && !s.tasks[k].TaskDone? && s'.claimed == s.claimed - {s.tasks[k].claim.config.sessionId}
        case ClaimRetry(k) =>
          k < |s.retries| && k < |s'.retries|
          && s'.claimed == if s'.retries[k].pc.Attempting? then s.claimed + {s.retries[k].plan.config.sessionId} else s.claimed
        case EndRetry(k, _) => k < |s.retries| && s'.claimed == s.claimed - {s.retries[k].plan.config.sessionId}
        case _ => s'.claimed == s.claimed)
  }

  /** Each step takes or gives back the gate it is about, and no other one. */
  lemma StepMovesGates(s: State, a: Action)
    requires Enabled(s, a)
    ensures GatesFollow(s, a, Apply(s, a))
  {
    hide Settle, SettleRetry, IsCurrentPlaceholder;
  }

  // ----- runs, from their end -----

  lemma {:induction false} RunsInit(s: State, actions: seq<Action>, t: State) returns (m: State)
    requires actions != [] && Runs(s, actions, t)
    ensures var n := |actions| - 1;
            Runs(s, actions[..n], m) && Enabled(m, actions[n]) && t == Apply(m, actions[n])
    decreases |actions|
  {
    hide Enabled, Apply;
    var n := |actions| - 1;
    if n == 0 {
      m := s;
      assert Runs(t, [], t) && actions[1..] == [];
    } else {
      var next := Apply(s, actions[0]);
      m := RunsInit(next, actions[1..], t);
      assert actions[1..][..n - 1] == actions[..n][1..];
    }
  }

  // ----- scheduled retries -----

  ghost predicate IsFor(plan: RetryPlan, kind: RetryKind, config: AgentConfig, lease: Lease) {
    plan.kind == kind && plan.config == config && plan.lease == lease
  }

  ghost predicate TaskPlans(s: State, kind: RetryKind, config: AgentConfig, lease: Lease) {
    exists k :: 0 <= k < |s.tasks| && s.tasks[k].Settled? && s.tasks[k].plan.Some?
                && IsFor(s.tasks[k].plan.value, kind, config, lease)
  }

  ghost predicate PlanIsParked(s: State, kind: RetryKind, config: AgentConfig, lease: Lease) {
    exists k :: 0 <= k < |s.parked| && IsFor(s.parked[k], kind, config, lease)
  }

  ghost predicate IsScheduled(s: State, kind: RetryKind, config: AgentConfig, lease: Lease) {
    exists k :: 0 <= k < |s.retries| && IsFor(s.retries[k].plan, kind, config, lease)
  }

  ghost predicate IsPlanned(s: State, kind: RetryKind, config: AgentConfig, lease: Lease) {
    TaskPlans(s, kind, config, lease) || PlanIsParked(s, kind, config, lease) || IsScheduled(s, kind, config, lease)
  }

  /** Pass 2 met a lease that is worth a retry of this kind. */
  ghost predicate WasRefused(actions: seq<Action>, kind: RetryKind, config: AgentConfig, lease: Lease) {
    exists i :: 0 <= i < |actions| && Refuses(actions[i], kind, config, lease)
  }

  ghost predicate Refuses(a: Action, kind: RetryKind, config: AgentConfig, lease: Lease) {
    a.PublishSpawn? && a.config == config && Parks(config, a.outcome, kind, lease)
  }

  lemma SpawnPlans(s: State, a: Action, kind: RetryKind, config: AgentConfig, lease: Lease)
    requires Enabled(s, a) && a.PublishSpawn?
    ensures IsPlanned(Apply(s, a), kind, config, lease)
       <==> IsPlanned(s, kind, config, lease) || Refuses(a, kind, config, lease)
  {
    hide Settle, Parks;
    SettleMeans(a.config, s.nextCell, a.outcome);
    var s' := Apply(s, a);
    assert s'.tasks[a.k].Settled? && s'.tasks[a.k].plan == Settle(a.config, s.nextCell, a.outcome).1;
    if TaskPlans(s, kind, config, lease) {
      var k :| 0 <= k < |s.tasks| && s.tasks[k].Settled? && s.tasks[k].plan.Some?
               && IsFor(s.tasks[k].plan.value, kind, config, lease);
      assert s'.tasks[k] == s.tasks[k];
    }
  }

  lemma EndTaskPlans(s: State, a: Action, kind: RetryKind, config: AgentConfig, lease: Lease)
    requires Enabled(s, a) && a.EndTask?
    ensures IsPlanned(Apply(s, a), kind, config, lease) <==> IsPlanned(s, kind, config, lease)
  {
    var s' := Apply(s, a);
    var plan := s.tasks[a.k].plan;
    if TaskPlans(s, kind, config, lease) {
      var k :| 0 <= k < |s.tasks| && s.tasks[k].Settled? && s.tasks[k].plan.Some?
               && IsFor(s.tasks[k].plan.value, kind, config, lease);
      if k == a.k {
        assert s'.parked[|s.parked|] == plan.value;
      } else {
        assert s'.tasks[k] == s.tasks[k];
      }
    }
    if PlanIsParked(s, kind, config, lease) {
      var k :| 0 <= k < |s.parked| && IsFor(s.parked[k], kind, config, lease);
      assert s'.parked[k] == s.parked[k];
    }
  }

  lemma RetryStepPlans(s: State, a: Action, kind: RetryKind, config: AgentConfig, lease: Lease)
    requires Enabled(s, a) && IsRetryStep(a)
    ensures IsPlanned(Apply(s, a), kind, config, lease) <==> IsPlanned(s, kind, config, lease)
  {
    hide SettleRetry, IsCurrentPlaceholder, IsFor;
    var s' := Apply(s, a);
    assert s'.tasks == s.tasks && s'.parked == s.parked && |s'.retries| == |s.retries|;
    assert forall k :: 0 <= k < |s.retries| ==> s'.retries[k].plan == s.retries[k].plan;
  }

  lemma PersistPlans(s: State, kind: RetryKind, config: AgentConfig, lease: Lease)
    requires Phased(s) && Enabled(s, Persist(true))
    ensures IsPlanned(Apply(s, Persist(true)), kind, config, lease) <==> IsPlanned(s, kind, config, lease)
  {
    hide IsFor;
    var s' := Apply(s, Persist(true));
    assert forall k :: 0 <= k < |s.parked| ==> s'.retries[k].plan == s.parked[k];
  }

  lemma OtherStepPlans(s: State, a: Action, kind: RetryKind, config: AgentConfig, lease: Lease)
    requires Phased(s) && Enabled(s, a) && !a.PublishSpawn? && !a.EndTask? && !a.Persist? && !IsRetryStep(a)
    ensures IsPlanned(Apply(s, a), kind, config, lease) <==> IsPlanned(s, kind, config, lease)
  {
    hide IsFor;
    var s' := Apply(s, a);
    if a.TakeSlot? {
      assert forall k :: 0 <= k < |s.tasks| && k != a.k ==> s'.tasks[k] == s.tasks[k];
    }
  }

  ghost predicate PersistedOnce(actions: seq<Action>, s: State) {
    && (s.main.Scheduled? <==> Persist(true) in actions || Persist(false) in actions)
    && !(Persist(true) in actions && Persist(false) in actions)
    && (Persist(false) in actions ==> s.retries == [])
  }

  lemma PersistsOnce(s: State, actions: seq<Action>, a: Action)
    requires Inv(s) && PersistedOnce(actions, s) && Enabled(s, a)
    ensures PersistedOnce(actions + [a], Apply(s, a))
  {
    hide Exclusive, NoStrayGates, RetriesDistinct, SlotsConserved, EntriesOwned, PlansFaithful, Settle, SettleRetry,
      IsCurrentPlaceholder;
  }

  lemma {:induction false} PlansTrackHistory(start: State, actions: seq<Action>, s: State, kind: RetryKind, config: AgentConfig,
                                             lease: Lease)
    requires Initial(start) && Runs(start, actions, s)
    ensures PersistedOnce(actions, s)
    ensures Persist(false) !in actions ==>
      (IsPlanned(s, kind, config, lease) <==> WasRefused(actions, kind, config, lease))
    decreases |actions|
  {
    hide Enabled, Apply, Inv, IsPlanned, Refuses, Runs;
    if actions == [] {
      NothingHappened(start, s, kind, config, lease);
    } else {
      var n := |actions| - 1;
      var m := RunsInit(start, actions, s);
      var a := actions[n];
      InitialIsGood(start);
      RunKeepsInv(start, actions[..n], m);
      PlansTrackHistory(start, actions[..n], m, kind, config, lease);
      PersistsOnce(m, actions[..n], a);
      assert actions[..n] + [a] == actions;
      StepPlans(m, a, kind, config, lease);
      HistoryGrows(actions, kind, config, lease);
    }
  }

  lemma NothingHappened(start: State, s: State, kind: RetryKind, config: AgentConfig, lease: Lease)
    requires Initial(start) && Runs(start, [], s)
    ensures PersistedOnce([], s) && !IsPlanned(s, kind, config, lease) && !WasRefused([], kind, config, lease)
  {}

  lemma StepPlans(s: State, a: Action, kind: RetryKind, config: AgentConfig, lease: Lease)
    requires Inv(s) && Enabled(s, a)
    ensures a != Persist(false) ==>
      (IsPlanned(Apply(s, a), kind, config, lease)
       <==> IsPlanned(s, kind, config, lease) || Refuses(a, kind, config, lease))
  {
    hide Apply, Enabled, IsPlanned;
    if a.PublishSpawn? {
      SpawnPlans(s, a, kind, config, lease);
    } else if a.EndTask? {
      EndTaskPlans(s, a, kind, config, lease);
    } else if a == Persist(true) {
      PersistPlans(s, kind, config, lease);
    } else if IsRetryStep(a) {
      RetryStepPlans(s, a, kind, config, lease);
    } else if a != Persist(false) {
      OtherStepPlans(s, a, kind, config, lease);
    }
  }

  lemma HistoryGrows(actions: seq<Action>, kind: RetryKind, config: AgentConfig, lease: Lease)
    requires actions != []
    ensures var n := |actions| - 1;
            WasRefused(actions, kind, config, lease)
            <==> WasRefused(actions[..n], kind, config, lease) || Refuses(actions[n], kind, config, lease)
  {
    hide Refuses;
    var n := |actions| - 1;
    if WasRefused(actions[..n], kind, config, lease) {
      var i :| 0 <= i < n && Refuses(actions[..n][i], kind, config, lease);
      assert Refuses(actions[i], kind, config, lease);
    }
    if WasRefused(actions, kind, config, lease) {
      var i :| 0 <= i < |actions| && Refuses(actions[i], kind, config, lease);
      if i < n {
        assert actions[..n][i] == actions[i];
      }
    }
  }

  /** Once scheduling is over, a retry for a configuration and a lease is scheduled iff
      the roster was persisted and pass 2 was refused by that lease, and the lease is the
      agent's own automation run, or one of somebody who only starts or resumes while no
      headless execution is going on. */
  lemma RetryIsScheduledIff(start: State, actions: seq<Action>, s: State, kind: RetryKind, config: AgentConfig, lease: Lease)
    requires Initial(start) && Runs(start, actions, s) && s.main.Scheduled?
    ensures IsScheduled(s, kind, config, lease)
       <==> Persist(true) in actions && WasRefused(actions, kind, config, lease)
  {
    hide Runs, WasRefused, IsFor, Exclusive, NoStrayGates, RetriesDistinct, SlotsConserved, EntriesOwned, PlansFaithful;
    InitialIsGood(start);
    RunKeepsInv(start, actions, s);
    PlansTrackHistory(start, actions, s, kind, config, lease);
  }

  // ----- nobody is lost -----

  /** Pass 1 is done with the first so many saved entries. */
  function DoneWith(s: State): nat {
    match s.main
    case Pass1(next) => next
    case AwaitGate(at) => at
    case Preparing(at) => at
    case _ => |s.roster|
  }

  ghost predicate OnRoster(s: State, id: string) {
    id in s.agents || id in s.touched
  }

  ghost predicate RosterIsFilled(s: State) {
    && (forall i :: 0 <= i < DoneWith(s) && i < |s.roster| ==> OnRoster(s, At(s, i)))
    && (forall id :: id in s.seen ==>
          || OnRoster(s, id)
          || ((s.main.AwaitGate? || s.main.Preparing?) && s.main.at < |s.roster| && id == At(s, s.main.at)))
  }

  lemma StepKeepsFilled(s: State, a: Action)
    requires Phased(s) && RosterIsFilled(s) && Enabled(s, a)
    ensures RosterIsFilled(Apply(s, a)) && Apply(s, a).roster == s.roster
  {
    hide Settle, SettleRetry, IsCurrentPlaceholder, OnRoster;
    var s' := Apply(s, a);
    hide Apply;
    forall id | OnRoster(s, id)
      ensures OnRoster(s', id)
    {
      StepKeepsOnRoster(s, a, id);
    }
    StepFillsRoster(s, a);
    forall i | 0 <= i < DoneWith(s') && i < |s'.roster|
      ensures OnRoster(s', At(s', i))
    {
      assert At(s', i) == At(s, i);
    }
  }

  lemma StepKeepsOnRoster(s: State, a: Action, id: string)
    requires Enabled(s, a) && OnRoster(s, id)
    ensures OnRoster(Apply(s, a), id)
  {
    hide Settle, SettleRetry, IsCurrentPlaceholder;
  }

  /** Pass 1 moves on only past an entry that is registered or was seen before. */
  lemma StepFillsRoster(s: State, a: Action)
    requires Phased(s) && RosterIsFilled(s) && Enabled(s, a)
    ensures var s' := Apply(s, a);
            && s'.roster == s.roster && DoneWith(s) <= DoneWith(s')
            && (DoneWith(s') > DoneWith(s) && DoneWith(s) < |s.roster| ==>
                  DoneWith(s') == DoneWith(s) + 1 && OnRoster(s', At(s, DoneWith(s))))
            && (forall id :: id in s'.seen ==>
                  || OnRoster(s', id)
                  || ((s'.main.AwaitGate? || s'.main.Preparing?) && s'.main.at < |s.roster| && id == At(s, s'.main.at)))
  {
    hide Settle, SettleRetry, IsCurrentPlaceholder;
    assert a.SkipDuplicate? ==> OnRoster(s, At(s, s.main.next));
    var s' := Apply(s, a);
    forall id | id in s.seen && OnRoster(s, id)
      ensures OnRoster(s', id)
    {
      StepKeepsOnRoster(s, a, id);
    }
  }

  lemma {:induction false} RunKeepsFilled(s: State, actions: seq<Action>, t: State)
    requires Inv(s) && RosterIsFilled(s) && Runs(s, actions, t)
    ensures RosterIsFilled(t) && t.roster == s.roster
    decreases |actions|
  {
    hide Inv, RosterIsFilled, Apply, Enabled;
    if actions != [] {
      InvIsPhased(s);
      StepKeepsFilled(s, actions[0]);
      StepKeepsInv(s, actions[0]);
      RunKeepsFilled(Apply(s, actions[0]), actions[1..], t);
    }
  }

  lemma InvIsPhased(s: State)
    requires Inv(s)
    ensures Phased(s)
  {}

  /** From the end of pass 1 on every saved agent is registered, unless somebody else
      has removed it: a roster listed then is complete. */
  lemma NoAgentIsLost(start: State, actions: seq<Action>, s: State, id: string)
    requires Initial(start) && Runs(start, actions, s)
    requires s.main.Joining? || s.main.Persisting? || s.main.Scheduled? || s.main == Pass1(|s.roster|)
    requires exists i :: 0 <= i < |start.roster| && start.roster[i].sessionId == id
    ensures id in s.agents || id in s.touched
  {
    hide Runs;
    InitialIsGood(start);
    RunKeepsFilled(start, actions, s);
    var i :| 0 <= i < |start.roster| && start.roster[i].sessionId == id;
    assert At(s, i) == id;
  }

  // ----- nobody is left restoring -----

  /** The step has published this entry: an unprepared agent as failed, a spawn or a
      retry by its outcome. */
  ghost predicate Publishes(a: Action, id: string, agent: ActiveAgent) {
    || (a.PublishUnprepared? && a.config.sessionId == id
        && agent.config == a.config && agent.status == "Error" && agent.generation.None? && agent.process.None?)
    || (a.PublishSpawn? && a.config.sessionId == id && IsOutcomeOf(a.config, a.outcome, agent))
    || (a.EndRetry? && exists config: AgentConfig :: config.sessionId == id && IsOutcomeOf(config, a.outcome, agent))
  }

  ghost predicate WasPublished(actions: seq<Action>, id: string, agent: ActiveAgent) {
    exists i :: 0 <= i < |actions| && Publishes(actions[i], id, agent)
  }

  /** A claim that has not settled yet still shows this placeholder. */
  ghost predicate IsRestoring(s: State, id: string) {
    || (exists k :: 0 <= k < |s.pending| && s.pending[k].Id() == id && ShowsPlaceholder(s, s.pending[k]))
    || (exists k :: 0 <= k < |s.tasks| && (s.tasks[k].WaitSlot? || s.tasks[k].Spawning?)
                    && s.tasks[k].claim.Id() == id && ShowsPlaceholder(s, s.tasks[k].claim))
  }

  ghost predicate ShowsPlaceholder(s: State, claim: Claim) {
    claim.Id() in s.agents && s.agents[claim.Id()] == ActiveAgent(claim.config, claim.cell, "Restoring", None, None)
  }

  ghost predicate IsAccountedFor(start: State, actions: seq<Action>, s: State, id: string) {
    id in s.agents && id !in s.touched ==>
      || (id in start.agents && s.agents[id] == start.agents[id])
      || WasPublished(actions, id, s.agents[id])
      || IsRestoring(s, id)
  }

  lemma PublishedStays(actions: seq<Action>, id: string, agent: ActiveAgent)
    requires actions != [] && (WasPublished(actions[..|actions| - 1], id, agent) || Publishes(actions[|actions| - 1], id, agent))
    ensures WasPublished(actions, id, agent)
  {
    hide Publishes;
    var n := |actions| - 1;
    if WasPublished(actions[..n], id, agent) {
      var i :| 0 <= i < n && Publishes(actions[..n][i], id, agent);
      assert Publishes(actions[i], id, agent);
    }
  }

  /** A step leaves an untouched entry alone, or publishes it. */
  lemma StepAccounts(s: State, a: Action, id: string)
    requires Inv(s) && Enabled(s, a)
    ensures var s' := Apply(s, a);
            id in s'.agents && id !in s'.touched ==>
              || Publishes(a, id, s'.agents[id])
              || IsRestoring(s', id)
              || (id in s.agents && id !in s.touched && s'.agents[id] == s.agents[id] && !IsRestoring(s, id))
  {
    hide Inv, Apply, Enabled;
    if a.PublishSpawn? {
      SpawnAccounts(s, a, id);
    } else if a.EndRetry? {
      RetryAccounts(s, a, id);
    } else if a.PublishPlaceholder? || a.PublishUnprepared? {
      Pass1Accounts(s, a, id);
    } else {
      OtherAccounts(s, a, id);
    }
  }

  lemma SpawnAccounts(s: State, a: Action, id: string)
    requires Inv(s) && Enabled(s, a) && a.PublishSpawn?
    ensures var s' := Apply(s, a);
            id in s'.agents && id !in s'.touched ==>
              || Publishes(a, id, s'.agents[id]) || IsRestoring(s', id)
              || (id in s.agents && id !in s.touched && s'.agents[id] == s.agents[id] && !IsRestoring(s, id))
  {
    hide NoStrayGates, RetriesDistinct, SlotsConserved, EntriesOwned, PlansFaithful, Settle, IsOutcomeOf;
    SettleMeans(a.config, s.nextCell, a.outcome);
    var s' := Apply(s, a);
    if id != a.config.sessionId {
      StillRestoring(s, s', id);
    }
  }

  /** Claims that did not settle show what they showed. */
  lemma StillRestoring(s: State, s': State, id: string)
    requires IsRestoring(s, id) ==> id in s'.agents && s'.agents[id] == s.agents[id]
    requires forall k :: 0 <= k < |s.pending| && s.pending[k].Id() == id ==>
      || (k < |s'.pending| && s'.pending[k] == s.pending[k])
      || (k < |s'.tasks| && s'.tasks[k] == WaitSlot(s.pending[k]))
    requires forall k :: 0 <= k < |s.tasks| && (s.tasks[k].WaitSlot? || s.tasks[k].Spawning?) && s.tasks[k].claim.Id() == id ==>
      k < |s'.tasks| && (s'.tasks[k] == s.tasks[k] || s'.tasks[k] == Spawning(s.tasks[k].claim))
    ensures IsRestoring(s, id) ==> IsRestoring(s', id)
  {
    if k :| 0 <= k < |s.pending| && s.pending[k].Id() == id && ShowsPlaceholder(s, s.pending[k]) {
      assert ShowsPlaceholder(s', s.pending[k]);
    }
    if k :| 0 <= k < |s.tasks| && (s.tasks[k].WaitSlot? || s.tasks[k].Spawning?)
            && s.tasks[k].claim.Id() == id && ShowsPlaceholder(s, s.tasks[k].claim) {
      assert ShowsPlaceholder(s', s.tasks[k].claim) && s'.tasks[k].claim == s.tasks[k].claim;
    }
  }

  lemma RetryAccounts(s: State, a: Action, id: string)
    requires Inv(s) && Enabled(s, a) && a.EndRetry?
    ensures var s' := Apply(s, a);
            id in s'.agents && id !in s'.touched ==>
              || Publishes(a, id, s'.agents[id]) || IsRestoring(s', id)
              || (id in s.agents && id !in s.touched && s'.agents[id] == s.agents[id] && !IsRestoring(s, id))
  {
    hide NoStrayGates, RetriesDistinct, SlotsConserved, EntriesOwned, PlansFaithful, SettleRetry, IsOutcomeOf;
    var plan := s.retries[a.k].plan;
    SettleRetryMeans(plan, s.nextCell, a.outcome);
    var s' := Apply(s, a);
    assert s.main.Scheduled?;
    assert !IsRestoring(s, id);
  }

  lemma Pass1Accounts(s: State, a: Action, id: string)
    requires Inv(s) && Enabled(s, a) && (a.PublishPlaceholder? || a.PublishUnprepared?)
    ensures var s' := Apply(s, a);
            id in s'.agents && id !in s'.touched ==>
              || Publishes(a, id, s'.agents[id]) || IsRestoring(s', id)
              || (id in s.agents && id !in s.touched && s'.agents[id] == s.agents[id] && !IsRestoring(s, id))
  {
    hide NoStrayGates, RetriesDistinct, SlotsConserved, EntriesOwned, PlansFaithful;
    var s' := Apply(s, a);
    if id != a.config.sessionId {
      StillRestoring(s, s', id);
    } else if a.PublishPlaceholder? {
      assert s'.pending[|s.pending|].Id() == id && ShowsPlaceholder(s', s'.pending[|s.pending|]);
    }
  }

  lemma OtherAccounts(s: State, a: Action, id: string)
    requires Inv(s) && Enabled(s, a)
    requires !a.PublishSpawn? && !a.EndRetry? && !a.PublishPlaceholder? && !a.PublishUnprepared?
    ensures var s' := Apply(s, a);
            id in s'.agents && id !in s'.touched ==>
              || IsRestoring(s', id)
              || (id in s.agents && id !in s.touched && s'.agents[id] == s.agents[id] && !IsRestoring(s, id))
  {
    hide NoStrayGates, RetriesDistinct, SlotsConserved, EntriesOwned, PlansFaithful, IsCurrentPlaceholder, IsRestoring, Exclusive;
    var s' := Apply(s, a);
    if id in s'.agents && id !in s'.touched {
      StillRestoring(s, s', id);
    }
  }

  lemma {:induction false} RunAccounts(start: State, actions: seq<Action>, s: State, id: string)
    requires Initial(start) && Runs(start, actions, s)
    ensures IsAccountedFor(start, actions, s, id)
    decreases |actions|
  {
    hide Enabled, Apply, Inv, IsRestoring, Publishes, Runs, WasPublished;
    if actions == [] {
      NoStepsStay(start, s);
    } else {
      var n := |actions| - 1;
      var m := RunsInit(start, actions, s);
      InitialIsGood(start);
      RunKeepsInv(start, actions[..n], m);
      RunAccounts(start, actions[..n], m, id);
      StepAccounts(m, actions[n], id);
      if id in s.agents && (WasPublished(actions[..n], id, s.agents[id]) || Publishes(actions[n], id, s.agents[id])) {
        PublishedStays(actions, id, s.agents[id]);
      }
    }
  }

  lemma NoStepsStay(start: State, s: State)
    requires Runs(start, [], s)
    ensures s == start
  {}

  /** Once scheduling is over, every saved agent that nobody else has touched is what it
      was before, or what a failed preparation, a spawn or a retry made of it: spawned,
      Headless or Error by the leases met. None is left on its Restoring placeholder. */
  lemma EveryAgentIsSettled(start: State, actions: seq<Action>, s: State, id: string)
    requires Initial(start) && Runs(start, actions, s) && s.main.Scheduled?
    requires exists i :: 0 <= i < |start.roster| && start.roster[i].sessionId == id
    ensures id !in s.touched ==>
      && id in s.agents
      && ((id in start.agents && s.agents[id] == start.agents[id]) || WasPublished(actions, id, s.agents[id]))
  {
    hide Runs, WasPublished, Exclusive, NoStrayGates, RetriesDistinct, SlotsConserved, EntriesOwned, PlansFaithful;
    InitialIsGood(start);
    RunKeepsInv(start, actions, s);
    RunAccounts(start, actions, s, id);
    NoAgentIsLost(start, actions, s, id);
  }

  // ----- a retry attempts after its wait, and then once -----

  /** The retry has got past its wait. */
  predicate IsPastWait(r: Retry) {
    r.pc.WantSlot? || r.pc.WantGate? || r.pc.Attempting? || r.attempts > 0
  }

  ghost predicate RetriesFollow(actions: seq<Action>, s: State) {
    forall k: nat :: k < |s.retries| ==>
      && (IsPastWait(s.retries[k]) ==> LeaseAnswer(k, true) in actions)
      && (LeaseAnswer(k, false) in actions ==> s.retries[k].pc == RetryDone)
      && (s.retries[k].pc.Attempting? ==> s.retries[k].attempts > 0)
  }

  lemma StepFollows(s: State, actions: seq<Action>, a: Action)
    requires Phased(s) && RetriesFollow(actions, s) && Enabled(s, a)
    requires !s.main.Scheduled? ==> forall k: nat :: LeaseAnswer(k, false) !in actions
    requires forall k: nat :: LeaseAnswer(k, false) in actions ==> k < |s.retries|
    ensures RetriesFollow(actions + [a], Apply(s, a))
    ensures !Apply(s, a).main.Scheduled? ==> forall k: nat :: LeaseAnswer(k, false) !in actions + [a]
    ensures forall k: nat :: LeaseAnswer(k, false) in actions + [a] ==> k < |Apply(s, a).retries|
  {
    hide SettleRetry, Settle, IsCurrentPlaceholder;
  }

  lemma {:induction false} RunFollows(start: State, actions: seq<Action>, s: State)
    requires Initial(start) && Runs(start, actions, s)
    ensures RetriesFollow(actions, s)
    ensures !s.main.Scheduled? ==> forall k: nat :: LeaseAnswer(k, false) !in actions
    ensures forall k: nat :: LeaseAnswer(k, false) in actions ==> k < |s.retries|
    decreases |actions|
  {
    hide Enabled, Apply, Inv, RetriesFollow, Runs;
    if actions == [] {
      NoStepsStay(start, s);
      NoRetriesFollow(s);
    } else {
      var n := |actions| - 1;
      var m := RunsInit(start, actions, s);
      InitialIsGood(start);
      RunKeepsInv(start, actions[..n], m);
      InvIsPhased(m);
      RunFollows(start, actions[..n], m);
      StepFollows(m, actions[..n], actions[n]);
      assert actions[..n] + [actions[n]] == actions;
    }
  }

  lemma NoRetriesFollow(s: State)
    requires Initial(s)
    ensures RetriesFollow([], s)
  {}

  /** A retry attempts only after its wait has found the lease clear, counts its attempt,
      and is over for good when the wait says otherwise. */
  lemma AttemptFollowsClearLease(start: State, actions: seq<Action>, s: State, k: nat)
    requires Initial(start) && Runs(start, actions, s) && k < |s.retries|
    ensures s.retries[k].attempts > 0 ==> LeaseAnswer(k, true) in actions
    ensures s.retries[k].pc.Attempting? ==> s.retries[k].attempts == 1
    ensures LeaseAnswer(k, false) in actions ==> s.retries[k].pc == RetryDone
  {
    hide Runs;
    RunFollows(start, actions, s);
    InitialIsGood(start);
    RunKeepsInv(start, actions, s);
    hide Exclusive, NoStrayGates, RetriesDistinct, SlotsConserved, EntriesOwned;
  }
}
