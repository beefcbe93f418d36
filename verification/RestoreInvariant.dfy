/** What every step of startup restoration keeps. */
module RestoreInvariant {
  import opened Common
  import opened Leases
  import opened RestorePublication
  import opened RestoreProtocol

  /** The phases follow each other: pass 1, the tasks, the retries. */
  ghost predicate Phased(s: State) {
    && (s.main.Pass1? ==> s.main.next <= |s.roster|)
    && (s.main.AwaitGate? ==> s.main.at < |s.roster| && At(s, s.main.at) in s.seen)
    && (s.main.Preparing? ==> s.main.at < |s.roster| && At(s, s.main.at) in s.seen)
    && (s.main.Pass1? || s.main.AwaitGate? || s.main.Preparing? ==> s.tasks == [] && s.parked == [])
    && (s.main.Joining? || s.main.Persisting? || s.main.Scheduled? ==> s.pending == [])
    && (s.main.Persisting? || s.main.Scheduled? ==> forall k :: 0 <= k < |s.tasks| ==> s.tasks[k].TaskDone?)
    && (s.main.Scheduled? ==> s.parked == [])
    && (!s.main.Scheduled? ==> s.retries == [])
  }

  ghost predicate Active(t: Task) {
    !t.TaskDone?
  }

  /** Somebody holds the lifecycle gate of this agent on behalf of restoration. */
  ghost predicate SomebodyHolds(s: State, id: string) {
    || (s.main.Preparing? && s.main.at < |s.roster| && At(s, s.main.at) == id)
    || (exists k :: 0 <= k < |s.pending| && s.pending[k].Id() == id)
    || (exists k :: 0 <= k < |s.tasks| && Active(s.tasks[k]) && s.tasks[k].claim.Id() == id)
    || (exists k :: 0 <= k < |s.retries| && s.retries[k].pc.Attempting? && s.retries[k].plan.Id() == id)
  }

  /** Each claim holds its gate, no two claims are for one agent, and no gate is
      held together with an outsider. */
  ghost predicate Exclusive(s: State) {
    && s.claimed !! s.outside
    && (s.main.Preparing? && s.main.at < |s.roster| ==> At(s, s.main.at) in s.claimed)
    && (forall k :: 0 <= k < |s.pending| ==> s.pending[k].Id() in s.claimed && s.pending[k].Id() in s.seen)
    && (forall k :: 0 <= k < |s.tasks| && Active(s.tasks[k]) ==> s.tasks[k].claim.Id() in s.claimed)
    && (forall k :: 0 <= k < |s.retries| && s.retries[k].pc.Attempting? ==> s.retries[k].plan.Id() in s.claimed)
    && ((s.main.AwaitGate? || s.main.Preparing?) && s.main.at < |s.roster| ==>
          forall k :: 0 <= k < |s.pending| ==> s.pending[k].Id() != At(s, s.main.at))
    && (forall j, k :: 0 <= j < k < |s.pending| ==> s.pending[j].Id() != s.pending[k].Id())
    && (forall j, k :: 0 <= j < k < |s.tasks| && Active(s.tasks[j]) && Active(s.tasks[k]) ==>
          s.tasks[j].claim.Id() != s.tasks[k].claim.Id())
  }

  /** No gate is held without a claim. */
  ghost predicate NoStrayGates(s: State) {
    forall id :: id in s.claimed ==> SomebodyHolds(s, id)
  }

  /** A retry is scheduled at most once for an agent, and only after the claim of
      that agent ended. */
  ghost predicate RetriesDistinct(s: State) {
    && (forall i, j :: 0 <= i < j < |s.parked| ==> s.parked[i].Id() != s.parked[j].Id())
    && (forall i, k :: 0 <= i < |s.parked| && 0 <= k < |s.tasks| && Active(s.tasks[k])
          ==> s.parked[i].Id() != s.tasks[k].claim.Id())
    && (forall i, j :: 0 <= i < j < |s.retries| ==> s.retries[i].plan.Id() != s.retries[j].plan.Id())
  }

  // ----- slots -----

  function TaskSlot(t: Task): nat { if t.Spawning? || t.Settled? then 1 else 0 }

  function RetrySlot(r: Retry): nat { if r.pc.WantGate? then 1 else 0 }

  ghost function SlotsHeld(s: State): nat {
    Total(s.tasks, TaskSlot) + Total(s.retries, RetrySlot)
  }

  /** No permit is lost or invented. */
  ghost predicate SlotsConserved(s: State) {
    s.slots + SlotsHeld(s) == RESTORE_SLOTS
  }

  // ----- entries -----

  ghost predicate OwnPlaceholder(s: State, claim: Claim) {
    claim.Id() in s.agents && s.agents[claim.Id()].cell == claim.cell
  }

  /** The entry a retry rechecked when it took the gate. */
  ghost predicate Rechecked(plan: RetryPlan, agent: ActiveAgent) {
    && agent.cell == plan.cell
    && agent.config == plan.config
    && agent.status == RequiredStatus(plan.kind)
    && agent.generation.None? && agent.process.None?
    && !plan.config.isOff
  }

  ghost predicate StillRechecked(s: State, plan: RetryPlan, agent: ActiveAgent) {
    && plan.Id() in s.agents
    && s.agents[plan.Id()] == agent.(status := s.agents[plan.Id()].status)
  }

  ghost predicate EntriesKeyed(s: State) {
    && (forall id :: id in s.agents ==> s.agents[id].config.sessionId == id && s.agents[id].cell < s.nextCell)
    && (s.main.Preparing? ==> s.main.at < |s.roster| && At(s, s.main.at) !in s.agents)
  }

  ghost predicate PlaceholdersOwned(s: State) {
    && (forall k :: 0 <= k < |s.pending| ==> OwnPlaceholder(s, s.pending[k]))
    && (forall k :: 0 <= k < |s.tasks| && Active(s.tasks[k]) ==> OwnPlaceholder(s, s.tasks[k].claim))
  }

  ghost predicate AttemptsRechecked(s: State) {
    forall k :: 0 <= k < |s.retries| && s.retries[k].pc.Attempting? ==>
      && Rechecked(s.retries[k].plan, s.retries[k].pc.rechecked)
      && StillRechecked(s, s.retries[k].plan, s.retries[k].pc.rechecked)
  }

  /** While a claim is open, only the claim itself replaces the entry. */
  ghost predicate EntriesOwned(s: State) {
    EntriesKeyed(s) && PlaceholdersOwned(s) && AttemptsRechecked(s)
  }

  // ----- plans -----

  /** The placeholder a plan will look for when it retries. */
  function Placeholder(plan: RetryPlan): ActiveAgent {
    WithoutProcess(plan.config, plan.cell, RequiredStatus(plan.kind))
  }

  ghost predicate PlanIsFaithful(s: State, plan: RetryPlan) {
    && Retryable(plan.kind, plan.config, plan.lease) == Some(plan.lease)
    && (plan.Id() !in s.touched ==> plan.Id() in s.agents && s.agents[plan.Id()] == Placeholder(plan))
  }

  /** Every plan was made for the placeholder that was published with it, which
      is still there unless somebody else changed the agent. */
  ghost predicate PlansFaithful(s: State) {
    && (forall k :: 0 <= k < |s.tasks| && s.tasks[k].Settled? && s.tasks[k].plan.Some? ==>
          PlanIsFaithful(s, s.tasks[k].plan.value) && s.tasks[k].plan.value.Id() == s.tasks[k].claim.Id())
    && (forall k :: 0 <= k < |s.parked| ==> PlanIsFaithful(s, s.parked[k]))
    && (forall k :: 0 <= k < |s.retries| && !s.retries[k].pc.RetryDone? ==> PlanIsFaithful(s, s.retries[k].plan))
    && (forall k :: 0 <= k < |s.retries| ==>
          s.retries[k].attempts <= (if s.retries[k].pc.Attempting? || s.retries[k].pc.RetryDone? then 1 else 0))
  }

  ghost predicate Inv(s: State) {
    && Phased(s)
    && Exclusive(s)
    && NoStrayGates(s)
    && RetriesDistinct(s)
    && SlotsConserved(s)
    && EntriesOwned(s)
    && PlansFaithful(s)
  }

  lemma InitialIsGood(s: State)
    requires Initial(s)
    ensures Inv(s)
  {
    assert s.claimed !! s.outside;
  }

  lemma PhasesKept(s: State, a: Action)
    requires Inv(s) && Enabled(s, a)
    ensures Phased(Apply(s, a))
  {
    hide Exclusive, RetriesDistinct, SlotsConserved, EntriesOwned, PlansFaithful, IsCurrentPlaceholder, Settle, SettleRetry;
  }

  lemma {:induction false} NoSlotsHeld<T>(xs: seq<T>, weight: T -> nat)
    requires forall k :: 0 <= k < |xs| ==> weight(xs[k]) == 0
    ensures Total(xs, weight) == 0
  {
    if xs != [] {
      NoSlotsHeld(xs[1..], weight);
    }
  }

  lemma NoStrayGatesKept(s: State, a: Action)
    requires Inv(s) && Enabled(s, a)
    ensures NoStrayGates(Apply(s, a))
  {
    hide SlotsConserved, EntriesOwned, PlansFaithful, IsCurrentPlaceholder, Settle, SettleRetry;
    var s' := Apply(s, a);
    forall id | id in s'.claimed
      ensures SomebodyHolds(s', id)
    {
      if id in s.claimed {
        HolderCarriesOn(s, a, id);
      } else if a.ClaimRetry? {
        assert s'.retries[a.k].pc.Attempting? && s'.retries[a.k].plan.Id() == id;
      }
    }
  }

  /** A holder that a step does not end holds the gate afterwards too, possibly
      under its next name. */
  lemma HolderCarriesOn(s: State, a: Action, id: string)
    requires Inv(s) && Enabled(s, a)
    requires id in s.claimed && id in Apply(s, a).claimed
    ensures SomebodyHolds(Apply(s, a), id)
  {
    hide Phased, Exclusive, RetriesDistinct, SlotsConserved, EntriesOwned, PlansFaithful, Apply;
    assert SomebodyHolds(s, id);
    if k :| 0 <= k < |s.pending| && s.pending[k].Id() == id {
      PendingCarriesOn(s, a, k);
    } else if k :| 0 <= k < |s.tasks| && Active(s.tasks[k]) && s.tasks[k].claim.Id() == id {
      TaskCarriesOn(s, a, k);
    } else if k :| 0 <= k < |s.retries| && s.retries[k].pc.Attempting? && s.retries[k].plan.Id() == id {
      RetryCarriesOn(s, a, k);
    } else {
      MainCarriesOn(s, a);
    }
  }

  lemma PendingCarriesOn(s: State, a: Action, k: nat)
    requires Phased(s) && Enabled(s, a) && k < |s.pending|
    ensures SomebodyHolds(Apply(s, a), s.pending[k].Id())
  {
    hide IsCurrentPlaceholder, Settle, SettleRetry;
    var s' := Apply(s, a);
    if a.SpawnTasks? {
      assert s'.tasks[k] == WaitSlot(s.pending[k]);
    } else {
      assert s'.pending[k] == s.pending[k];
    }
  }

  lemma TaskCarriesOn(s: State, a: Action, k: nat)
    requires Phased(s) && Enabled(s, a) && k < |s.tasks| && Active(s.tasks[k])
    requires s.tasks[k].claim.Id() in Apply(s, a).claimed
    ensures SomebodyHolds(Apply(s, a), s.tasks[k].claim.Id())
  {
    hide IsCurrentPlaceholder, Settle, SettleRetry;
    var s' := Apply(s, a);
    assert Active(s'.tasks[k]) && s'.tasks[k].claim.Id() == s.tasks[k].claim.Id();
  }

  lemma RetryCarriesOn(s: State, a: Action, k: nat)
    requires Phased(s) && Enabled(s, a) && k < |s.retries| && s.retries[k].pc.Attempting?
    requires s.retries[k].plan.Id() in Apply(s, a).claimed
    ensures SomebodyHolds(Apply(s, a), s.retries[k].plan.Id())
  {
    hide IsCurrentPlaceholder, Settle, SettleRetry;
    var s' := Apply(s, a);
    assert s'.retries[k].pc.Attempting? && s'.retries[k].plan == s.retries[k].plan;
  }

  lemma MainCarriesOn(s: State, a: Action)
    requires Phased(s) && Enabled(s, a) && s.main.Preparing?
    requires At(s, s.main.at) in Apply(s, a).claimed
    ensures SomebodyHolds(Apply(s, a), At(s, s.main.at))
  {
    hide IsCurrentPlaceholder, Settle, SettleRetry;
    if a.PublishPlaceholder? {
      assert Apply(s, a).pending[|s.pending|].Id() == At(s, s.main.at);
    }
  }

  /** The retry kind fits the placeholder that is published with the plan, and
      the lease it will wait for is the one that refused the spawn. */
  lemma SettledPlanFits(config: AgentConfig, cell: nat, outcome: SpawnOutcome)
    requires !outcome.Cancelled? && (outcome.Spawned? ==> outcome.agent.config.sessionId == config.sessionId)
    ensures var (agent, plan) := Settle(config, cell, outcome);
            && agent.config.sessionId == config.sessionId
            && (if outcome.Spawned? then agent == outcome.agent else agent.cell == cell)
            && (plan.Some? ==>
                  && outcome.conflict == Some(plan.value.lease)
                  && plan.value.config == config && plan.value.cell == cell
                  && Retryable(plan.value.kind, config, plan.value.lease) == Some(plan.value.lease)
                  && agent == Placeholder(plan.value))
  {}

  /** The steps of pass 1, the join and the scheduling of retries. */
  predicate IsMainStep(a: Action) {
    a.SkipDuplicate? || a.AskGate? || a.TakeGate? || a.PublishUnprepared?
    || a.PublishPlaceholder? || a.SpawnTasks? || a.JoinTasks? || a.Persist?
  }

  /** The steps of a pass-2 task. */
  predicate IsTaskStep(a: Action) {
    a.TakeSlot? || a.PublishSpawn? || a.EndTask?
  }

  /** The steps of a scheduled retry. */
  predicate IsRetryStep(a: Action) {
    a.LeaseAnswer? || a.TakeRetrySlot? || a.ClaimRetry? || a.EndRetry?
  }

  /** What everybody else does. */
  predicate IsOutsideStep(a: Action) {
    a.OutsideTake? || a.OutsideChange? || a.OutsideRelease? || a.StatusObserved?
  }

  lemma SlotsKeptByMain(s: State, a: Action)
    requires Inv(s) && Enabled(s, a) && IsMainStep(a)
    ensures SlotsConserved(Apply(s, a))
  {
    hide Exclusive, NoStrayGates, RetriesDistinct, EntriesOwned, PlansFaithful, Total;
    var s' := Apply(s, a);
    if a.SpawnTasks? {
      NoSlotsHeld(s.tasks, TaskSlot);
      NoSlotsHeld(s'.tasks, TaskSlot);
    } else if a.Persist? {
      NoSlotsHeld(s.retries, RetrySlot);
      NoSlotsHeld(s'.retries, RetrySlot);
    }
  }

  lemma SlotsKeptByTask(s: State, a: Action)
    requires Inv(s) && Enabled(s, a) && IsTaskStep(a)
    ensures SlotsConserved(Apply(s, a))
  {
    hide Exclusive, NoStrayGates, RetriesDistinct, EntriesOwned, PlansFaithful, Settle, Total;
    TotalOfUpdate(s.tasks, a.k, Apply(s, a).tasks[a.k], TaskSlot);
  }

  lemma SlotsKeptByRetry(s: State, a: Action)
    requires Inv(s) && Enabled(s, a) && IsRetryStep(a)
    ensures SlotsConserved(Apply(s, a))
  {
    hide Exclusive, NoStrayGates, RetriesDistinct, EntriesOwned, PlansFaithful, IsCurrentPlaceholder, SettleRetry, Total;
    TotalOfUpdate(s.retries, a.k, Apply(s, a).retries[a.k], RetrySlot);
  }

  lemma SlotsKeptByOutside(s: State, a: Action)
    requires Inv(s) && Enabled(s, a) && IsOutsideStep(a)
    ensures SlotsConserved(Apply(s, a))
  {
    hide Exclusive, NoStrayGates, RetriesDistinct, EntriesOwned, PlansFaithful, Total;
  }

  lemma ExclusiveKeptByMain(s: State, a: Action)
    requires Inv(s) && Enabled(s, a) && IsMainStep(a)
    ensures Exclusive(Apply(s, a))
  {
    hide NoStrayGates, SlotsConserved, EntriesOwned, PlansFaithful, IsCurrentPlaceholder, Settle, SettleRetry;
  }

  lemma ExclusiveKeptByTask(s: State, a: Action)
    requires Inv(s) && Enabled(s, a) && IsTaskStep(a)
    ensures Exclusive(Apply(s, a))
  {
    hide NoStrayGates, SlotsConserved, EntriesOwned, PlansFaithful, IsCurrentPlaceholder, Settle, SettleRetry;
  }

  lemma ExclusiveKeptByRetry(s: State, a: Action)
    requires Inv(s) && Enabled(s, a) && IsRetryStep(a)
    ensures Exclusive(Apply(s, a))
  {
    hide NoStrayGates, SlotsConserved, EntriesOwned, PlansFaithful, IsCurrentPlaceholder, Settle, SettleRetry;
  }

  lemma ExclusiveKeptByOutside(s: State, a: Action)
    requires Inv(s) && Enabled(s, a) && IsOutsideStep(a)
    ensures Exclusive(Apply(s, a))
  {
    hide NoStrayGates, SlotsConserved, EntriesOwned, PlansFaithful, IsCurrentPlaceholder, Settle, SettleRetry;
  }

  lemma RetriesKeptByMain(s: State, a: Action)
    requires Inv(s) && Enabled(s, a) && IsMainStep(a)
    ensures RetriesDistinct(Apply(s, a))
  {
    hide NoStrayGates, SlotsConserved, EntriesOwned, IsCurrentPlaceholder, Settle, SettleRetry;
  }

  lemma RetriesKeptByTask(s: State, a: Action)
    requires Inv(s) && Enabled(s, a) && IsTaskStep(a)
    ensures RetriesDistinct(Apply(s, a))
  {
    hide NoStrayGates, SlotsConserved, EntriesOwned, IsCurrentPlaceholder, Settle, SettleRetry;
    if a.PublishSpawn? {
      SettledPlanFits(a.config, s.nextCell, a.outcome);
    }
  }

  lemma RetriesKeptByRetry(s: State, a: Action)
    requires Inv(s) && Enabled(s, a) && IsRetryStep(a)
    ensures RetriesDistinct(Apply(s, a))
  {
    hide NoStrayGates, SlotsConserved, EntriesOwned, IsCurrentPlaceholder, Settle, SettleRetry;
  }

  lemma RetriesKeptByOutside(s: State, a: Action)
    requires Inv(s) && Enabled(s, a) && IsOutsideStep(a)
    ensures RetriesDistinct(Apply(s, a))
  {
    hide NoStrayGates, SlotsConserved, EntriesOwned, IsCurrentPlaceholder, Settle, SettleRetry;
  }

  lemma EntriesKeptByMain(s: State, a: Action)
    requires Inv(s) && Enabled(s, a) && IsMainStep(a)
    ensures EntriesOwned(Apply(s, a))
  {
    hide NoStrayGates, SlotsConserved, RetriesDistinct, PlansFaithful, Settle, SettleRetry;
  }

  lemma EntriesKeptByTask(s: State, a: Action)
    requires Inv(s) && Enabled(s, a) && IsTaskStep(a)
    ensures EntriesOwned(Apply(s, a))
  {
    hide NoStrayGates, SlotsConserved, RetriesDistinct, PlansFaithful, Settle, Retryable;
    if a.PublishSpawn? {
      SettledPlanFits(a.config, s.nextCell, a.outcome);
    }
  }

  lemma RetryPublicationFits(plan: RetryPlan, cell: nat, outcome: SpawnOutcome)
    requires outcome.Spawned? ==> outcome.agent.config.sessionId == plan.Id() && outcome.agent.cell == cell
    ensures var agent := SettleRetry(plan, cell, outcome);
            agent.Some? ==> agent.value.config.sessionId == plan.Id() && agent.value.cell == cell
  {}

  lemma EntriesKeptByRetry(s: State, a: Action)
    requires Inv(s) && Enabled(s, a) && IsRetryStep(a)
    ensures EntriesOwned(Apply(s, a))
  {
    hide EntriesKeyed, PlaceholdersOwned, AttemptsRechecked, Phased, Exclusive, NoStrayGates, RetriesDistinct,
      SlotsConserved, PlansFaithful, Apply, Enabled;
    if a.EndRetry? {
      EntriesKeptByEndRetry(s, a);
    } else {
      EntriesKeptBeforeAttempt(s, a);
    }
  }

  lemma EntriesKeptBeforeAttempt(s: State, a: Action)
    requires Inv(s) && Enabled(s, a) && IsRetryStep(a) && !a.EndRetry?
    ensures EntriesOwned(Apply(s, a))
  {
    hide NoStrayGates, SlotsConserved, PlansFaithful, Exclusive;
  }

  lemma EntriesKeptByEndRetry(s: State, a: Action)
    requires Inv(s) && Enabled(s, a) && a.EndRetry?
    ensures EntriesOwned(Apply(s, a))
  {
    hide NoStrayGates, SlotsConserved, PlansFaithful, SettleRetry, IsCurrentPlaceholder;
    RetryPublicationFits(s.retries[a.k].plan, s.nextCell, a.outcome);
  }

  lemma EntriesKeptByOutside(s: State, a: Action)
    requires Inv(s) && Enabled(s, a) && IsOutsideStep(a)
    ensures EntriesOwned(Apply(s, a))
  {
    hide EntriesKeyed, PlaceholdersOwned, AttemptsRechecked, Apply, Enabled, Inv;
    KeysKeptByOutside(s, a);
    PlaceholdersKeptByOutside(s, a);
    AttemptsKeptByOutside(s, a);
  }

  lemma KeysKeptByOutside(s: State, a: Action)
    requires Inv(s) && Enabled(s, a) && IsOutsideStep(a)
    ensures EntriesKeyed(Apply(s, a))
  {
    hide NoStrayGates, SlotsConserved, RetriesDistinct, PlansFaithful, PlaceholdersOwned, AttemptsRechecked, Phased;
  }

  lemma PlaceholdersKeptByOutside(s: State, a: Action)
    requires Inv(s) && Enabled(s, a) && IsOutsideStep(a)
    ensures PlaceholdersOwned(Apply(s, a))
  {
    hide NoStrayGates, SlotsConserved, RetriesDistinct, PlansFaithful, EntriesKeyed, AttemptsRechecked, Phased;
  }

  lemma AttemptsKeptByOutside(s: State, a: Action)
    requires Inv(s) && Enabled(s, a) && IsOutsideStep(a)
    ensures AttemptsRechecked(Apply(s, a))
  {
    hide NoStrayGates, SlotsConserved, RetriesDistinct, PlansFaithful, PlaceholdersOwned, Settle, SettleRetry,
      IsCurrentPlaceholder, Phased;
  }

  lemma PlansKeptByMain(s: State, a: Action)
    requires Inv(s) && Enabled(s, a) && IsMainStep(a)
    ensures PlansFaithful(Apply(s, a))
  {
    hide NoStrayGates, SlotsConserved, Settle, SettleRetry, Retryable;
  }

  lemma PlansKeptByPublishSpawn(s: State, a: Action)
    requires Inv(s) && Enabled(s, a) && a.PublishSpawn?
    ensures PlansFaithful(Apply(s, a))
  {
    hide NoStrayGates, SlotsConserved, EntriesOwned, Settle, Retryable, FindsHeadless;
    SettledPlanFits(a.config, s.nextCell, a.outcome);
    var s' := Apply(s, a);
    forall k | 0 <= k < |s'.tasks| && s'.tasks[k].Settled? && s'.tasks[k].plan.Some?
      ensures PlanIsFaithful(s', s'.tasks[k].plan.value) && s'.tasks[k].plan.value.Id() == s'.tasks[k].claim.Id()
    {
      assert k != a.k ==> s'.tasks[k] == s.tasks[k] && s.tasks[k].claim.Id() != a.config.sessionId;
    }
  }

  lemma PlansKeptByTask(s: State, a: Action)
    requires Inv(s) && Enabled(s, a) && IsTaskStep(a)
    ensures PlansFaithful(Apply(s, a))
  {
    hide NoStrayGates, SlotsConserved, EntriesOwned, Settle, Retryable, FindsHeadless;
    if a.PublishSpawn? {
      PlansKeptByPublishSpawn(s, a);
    }
  }

  lemma PlansKeptByRetry(s: State, a: Action)
    requires Inv(s) && Enabled(s, a) && IsRetryStep(a)
    ensures PlansFaithful(Apply(s, a))
  {
    hide NoStrayGates, SlotsConserved, EntriesOwned, FindsHeadless, Settle, Retryable;
  }

  lemma PlansKeptByOutside(s: State, a: Action)
    requires Inv(s) && Enabled(s, a) && IsOutsideStep(a)
    ensures PlansFaithful(Apply(s, a))
  {
    hide NoStrayGates, SlotsConserved, Settle, SettleRetry, Retryable;
  }

  /** Every step keeps the invariant. */
  lemma StepKeepsInv(s: State, a: Action)
    requires Inv(s) && Enabled(s, a)
    ensures Inv(Apply(s, a))
  {
    hide Phased, Exclusive, NoStrayGates, RetriesDistinct, SlotsConserved, EntriesOwned, PlansFaithful, Apply, Enabled;
    PhasesKept(s, a);
    NoStrayGatesKept(s, a);
    if IsMainStep(a) {
      SlotsKeptByMain(s, a);
      ExclusiveKeptByMain(s, a); RetriesKeptByMain(s, a); EntriesKeptByMain(s, a); PlansKeptByMain(s, a);
    } else if IsTaskStep(a) {
      SlotsKeptByTask(s, a);
      ExclusiveKeptByTask(s, a); RetriesKeptByTask(s, a); EntriesKeptByTask(s, a); PlansKeptByTask(s, a);
    } else if IsRetryStep(a) {
      SlotsKeptByRetry(s, a);
      ExclusiveKeptByRetry(s, a); RetriesKeptByRetry(s, a); EntriesKeptByRetry(s, a); PlansKeptByRetry(s, a);
    } else {
      SlotsKeptByOutside(s, a);
      ExclusiveKeptByOutside(s, a); RetriesKeptByOutside(s, a); EntriesKeptByOutside(s, a); PlansKeptByOutside(s, a);
    }
  }

  /** So every reachable state satisfies it. */
  lemma {:induction false} RunKeepsInv(s: State, actions: seq<Action>, t: State)
    requires Inv(s) && Runs(s, actions, t)
    ensures Inv(t)
    decreases |actions|
  {
    hide Inv, Apply, Enabled;
    if actions != [] {
      StepKeepsInv(s, actions[0]);
      RunKeepsInv(Apply(s, actions[0]), actions[1..], t);
    }
  }
}
