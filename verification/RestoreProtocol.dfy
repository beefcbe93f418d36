/** Startup restoration as a step system (src-tauri/src/lib.rs, passes 1 and 2 of
    `run` and the scheduled retries; the claims are those of RestorePublication).

    One action is one stretch of code between two waits. Everything the code
    learns from outside (a prepared configuration, a spawn result, a lease
    answer) is a parameter of the action, so a theorem about every run covers
    every such answer. */
module RestoreProtocol {
  import opened Common
  import opened Leases
  import opened RestorePublication

  /** RESTORE_SPAWN_CONCURRENCY. */
  const RESTORE_SLOTS: nat := 4

  /** A RestorePublication carried from pass 1: whoever holds it holds the
      lifecycle gate of its agent. `cell` is the placeholder it published. */
  datatype Claim = Claim(config: AgentConfig, cell: nat) {
    function Id(): string { config.sessionId }
  }

  datatype RetryPlan = RetryPlan(kind: RetryKind, config: AgentConfig, cell: nat, lease: Lease) {
    function Id(): string { config.sessionId }
  }

  datatype MainPc =
    | Pass1(next: nat)
    | AwaitGate(at: nat)
    | Preparing(at: nat)
    | Joining
    | Persisting
    | Scheduled

  datatype Task =
    | WaitSlot(claim: Claim)
    | Spawning(claim: Claim)
    | Settled(claim: Claim, plan: Option<RetryPlan>)
    | TaskDone

  datatype RetryPc =
    | LeaseWaiting
    | WantSlot
    | WantGate
    | Attempting(rechecked: ActiveAgent)
    | RetryDone

  /** `attempts` counts how often the retry started its restore attempt. */
  datatype Retry = Retry(plan: RetryPlan, pc: RetryPc, attempts: nat)

  /** `claimed` and `outside` are the lifecycle gates held by restoration and by
      everybody else. `touched` is an auxiliary variable: the agents whose entry
      anybody but restoration has changed. */
  datatype State = State(
    roster: seq<AgentConfig>,
    main: MainPc,
    seen: set<string>,
    pending: seq<Claim>,
    tasks: seq<Task>,
    parked: seq<RetryPlan>,
    retries: seq<Retry>,
    claimed: set<string>,
    outside: set<string>,
    slots: nat,
    agents: map<string, ActiveAgent>,
    nextCell: nat,
    touched: set<string>)

  datatype SpawnOutcome =
    | Spawned(agent: ActiveAgent)
    | Refused(conflict: Option<Lease>, loaded: Result<seq<Lease>, string>, now: int)
    | Cancelled

  datatype Action =
    | SkipDuplicate
    | AskGate
    | TakeGate
    | PublishUnprepared(config: AgentConfig)
    | PublishPlaceholder(config: AgentConfig)
    | SpawnTasks
    | TakeSlot(k: nat)
    | PublishSpawn(k: nat, config: AgentConfig, outcome: SpawnOutcome)
    | EndTask(k: nat)
    | JoinTasks
    | Persist(ok: bool)
    | LeaseAnswer(k: nat, clear: bool)
    | TakeRetrySlot(k: nat)
    | ClaimRetry(k: nat)
    | EndRetry(k: nat, outcome: SpawnOutcome)
    | OutsideTake(id: string)
    | OutsideChange(id: string, agent: Option<ActiveAgent>)
    | OutsideRelease(id: string)
    | StatusObserved(id: string, status: string)

  // ----- decisions -----

  /** Whether a failed restore finds the saved conversation in headless use. */
  function FindsHeadless(config: AgentConfig, outcome: SpawnOutcome): bool
    requires outcome.Refused?
  {
    || (outcome.conflict.Some? && RetryableHeadless(config, outcome.conflict.value).Some?)
    || (outcome.loaded.Ok? && HasActiveHeadlessExecution(config, outcome.loaded.value, outcome.now))
  }

  /** What a finished pass-2 spawn publishes, and the retry it asks for. */
  function Settle(config: AgentConfig, cell: nat, outcome: SpawnOutcome): (ActiveAgent, Option<RetryPlan>)
    requires !outcome.Cancelled?
  {
    match outcome
    case Spawned(agent) => (agent, None)
    case Refused(conflict, loaded, now) =>
      var headless := if conflict.Some? then RetryableHeadless(config, conflict.value) else None;
      var lifecycle := if conflict.Some? then RetryableLifecycle(config, conflict.value) else None;
      var activeHeadless := FindsHeadless(config, outcome);
      var plan :=
        if headless.Some? then Some(RetryPlan(HeadlessExecutionLease, config, cell, headless.value))
        else if activeHeadless then None
        else if lifecycle.Some? then Some(RetryPlan(LifecycleLease, config, cell, lifecycle.value))
        else None;
      (WithoutProcess(config, cell, if activeHeadless then "Headless" else "Error"), plan)
  }

  /** What a finished retry publishes; a cancelled one and a headless retry that
      met another owner leave the placeholder alone. */
  function SettleRetry(plan: RetryPlan, cell: nat, outcome: SpawnOutcome): Option<ActiveAgent> {
    match outcome
    case Cancelled => None
    case Spawned(agent) => Some(agent)
    case Refused(conflict, loaded, now) =>
      if plan.kind.HeadlessExecutionLease? && conflict.Some? then None
      else if FindsHeadless(plan.config, outcome) then Some(WithoutProcess(plan.config, cell, "Headless"))
      else Some(WithoutProcess(plan.config, cell, "Error"))
  }

  predicate FreshFor(s: State, id: string, outcome: SpawnOutcome) {
    outcome.Spawned? ==> outcome.agent.config.sessionId == id && outcome.agent.cell == s.nextCell
  }

  predicate GateFree(s: State, id: string) {
    id !in s.claimed && id !in s.outside
  }

  function At(s: State, k: nat): string
    requires k < |s.roster|
  {
    s.roster[k].sessionId
  }

  // ----- steps -----

  predicate Enabled(s: State, a: Action) {
    match a
    case SkipDuplicate =>
      s.main.Pass1? && s.main.next < |s.roster| && At(s, s.main.next) in s.seen
    case AskGate =>
      s.main.Pass1? && s.main.next < |s.roster| && At(s, s.main.next) !in s.seen
    case TakeGate =>
      s.main.AwaitGate? && s.main.at < |s.roster| && GateFree(s, At(s, s.main.at))
    case PublishUnprepared(config) =>
      s.main.Preparing? && s.main.at < |s.roster| && config.sessionId == At(s, s.main.at)
    case PublishPlaceholder(config) =>
      s.main.Preparing? && s.main.at < |s.roster| && config.sessionId == At(s, s.main.at)
    case SpawnTasks =>
      s.main == Pass1(|s.roster|)
    case TakeSlot(k) =>
      k < |s.tasks| && s.tasks[k].WaitSlot? && s.slots > 0
    case PublishSpawn(k, config, outcome) =>
      && k < |s.tasks| && s.tasks[k].Spawning?
      && config.sessionId == s.tasks[k].claim.Id()
      && !outcome.Cancelled? && FreshFor(s, config.sessionId, outcome)
    case EndTask(k) =>
      k < |s.tasks| && s.tasks[k].Settled?
    case JoinTasks =>
      s.main.Joining? && forall k :: 0 <= k < |s.tasks| ==> s.tasks[k].TaskDone?
    case Persist(_) =>
      s.main.Persisting?
    case LeaseAnswer(k, _) =>
      k < |s.retries| && s.retries[k].pc.LeaseWaiting?
    case TakeRetrySlot(k) =>
      k < |s.retries| && s.retries[k].pc.WantSlot? && s.slots > 0
    case ClaimRetry(k) =>
      && k < |s.retries| && s.retries[k].pc.WantGate?
      && (RefusesOff(s.retries[k].plan) || GateFree(s, s.retries[k].plan.Id()))
    case EndRetry(k, outcome) =>
      k < |s.retries| && s.retries[k].pc.Attempting? && FreshFor(s, s.retries[k].plan.Id(), outcome)
    case OutsideTake(id) =>
      GateFree(s, id)
    case OutsideChange(id, agent) =>
      && id in s.outside
      && (agent.Some? ==>
            && agent.value.config.sessionId == id
            && (agent.value.cell == s.nextCell || (id in s.agents && agent.value.cell == s.agents[id].cell)))
    case OutsideRelease(id) =>
      id in s.outside
    case StatusObserved(id, _) =>
      id in s.agents
  }

  /** A headless retry whose configuration is off returns before it asks for the
      gate. */
  predicate RefusesOff(plan: RetryPlan) {
    plan.kind.HeadlessExecutionLease? && plan.config.isOff
  }

  function Publish(s: State, id: string, agent: ActiveAgent): State {
    s.(agents := s.agents[id := agent], nextCell := s.nextCell + 1)
  }

  function Apply(s: State, a: Action): State
    requires Enabled(s, a)
  {
    match a
    case SkipDuplicate => s.(main := Pass1(s.main.next + 1))
    case AskGate => s.(main := AwaitGate(s.main.next), seen := s.seen + {At(s, s.main.next)})
    case TakeGate =>
      if !MayBegin(s.agents, At(s, s.main.at)) then
        // A registered owner wins: the gate is dropped again.
        s.(main := Pass1(s.main.at + 1))
      else
        s.(main := Preparing(s.main.at), claimed := s.claimed + {At(s, s.main.at)})
    case PublishUnprepared(config) =>
      var id := At(s, s.main.at);
      Publish(s, id, WithoutProcess(config, s.nextCell, "Error"))
        .(main := Pass1(s.main.at + 1), claimed := s.claimed - {id})
    case PublishPlaceholder(config) =>
      var id := At(s, s.main.at);
      Publish(s, id, WithoutProcess(config, s.nextCell, "Restoring"))
        .(main := Pass1(s.main.at + 1), pending := s.pending + [Claim(config, s.nextCell)])
    case SpawnTasks =>
      s.(main := Joining, tasks := seq(|s.pending|, i requires 0 <= i < |s.pending| => WaitSlot(s.pending[i])), pending := [])
    case TakeSlot(k) =>
      s.(tasks := s.tasks[k := Spawning(s.tasks[k].claim)], slots := s.slots - 1)
    case PublishSpawn(k, config, outcome) =>
      var (agent, plan) := Settle(config, s.nextCell, outcome);
      Publish(s, config.sessionId, agent)
        .(tasks := s.tasks[k := Settled(Claim(config, agent.cell), plan)])
    case EndTask(k) =>
      var plan := s.tasks[k].plan;
      s.(tasks := s.tasks[k := TaskDone],
         claimed := s.claimed - {s.tasks[k].claim.Id()},
         slots := s.slots + 1,
         parked := if plan.Some? then s.parked + [plan.value] else s.parked)
    case JoinTasks => s.(main := Persisting)
    case Persist(ok) =>
      s.(main := Scheduled,
         retries := if ok then seq(|s.parked|, i requires 0 <= i < |s.parked| => Retry(s.parked[i], LeaseWaiting, 0)) else [],
         parked := [])
    case LeaseAnswer(k, clear) =>
      s.(retries := s.retries[k := s.retries[k].(pc := if clear then WantSlot else RetryDone)])
    case TakeRetrySlot(k) =>
      s.(retries := s.retries[k := s.retries[k].(pc := WantGate)], slots := s.slots - 1)
    case ClaimRetry(k) =>
      var r := s.retries[k];
      var plan := r.plan;
      if || RefusesOff(plan)
         || !IsCurrentPlaceholder(s.agents, plan.config, plan.cell, RequiredStatus(plan.kind))
      then
        s.(retries := s.retries[k := r.(pc := RetryDone)], slots := s.slots + 1)
      else
        // The permit is a parameter the attempt does not keep, so it is back in
        // the semaphore as soon as the attempt exists.
        s.(retries := s.retries[k := Retry(plan, Attempting(s.agents[plan.Id()]), r.attempts + 1)],
           claimed := s.claimed + {plan.Id()},
           slots := s.slots + 1)
    case EndRetry(k, outcome) =>
      var r := s.retries[k];
      var agent := SettleRetry(r.plan, s.nextCell, outcome);
      var s' := if agent.Some? then Publish(s, r.plan.Id(), agent.value) else s;
      s'.(retries := s.retries[k := r.(pc := RetryDone)], claimed := s.claimed - {r.plan.Id()})
    case OutsideTake(id) => s.(outside := s.outside + {id})
    case OutsideChange(id, agent) =>
      s.(agents := if agent.Some? then s.agents[id := agent.value] else s.agents - {id},
         nextCell := s.nextCell + 1,
         touched := s.touched + {id})
    case OutsideRelease(id) => s.(outside := s.outside - {id})
    case StatusObserved(id, status) =>
      s.(agents := s.agents[id := s.agents[id].(status := status)], touched := s.touched + {id})
  }

  /** Startup begins with any roster on disk, any agents registered already and
      any gates held by others. */
  ghost predicate Initial(s: State) {
    && s.main == Pass1(0) && s.seen == {}
    && s.pending == [] && s.tasks == [] && s.parked == [] && s.retries == []
    && s.claimed == {} && s.touched == {}
    && s.slots == RESTORE_SLOTS
    && (forall id :: id in s.agents ==> s.agents[id].config.sessionId == id && s.agents[id].cell < s.nextCell)
  }

  ghost predicate Runs(s: State, actions: seq<Action>, t: State)
    decreases |actions|
  {
    if actions == [] then s == t
    else Enabled(s, actions[0]) && Runs(Apply(s, actions[0]), actions[1..], t)
  }

  /** Restoration is over: every claim has ended. Others may still hold gates. */
  ghost predicate Complete(s: State) {
    s.main.Scheduled? && forall k :: 0 <= k < |s.retries| ==> s.retries[k].pc.RetryDone?
  }

  /** The steps that belong to restoration, or end somebody else's hold on a gate. */
  predicate IsProgress(a: Action) {
    !a.OutsideTake? && !a.OutsideChange? && !a.StatusObserved?
  }
}
