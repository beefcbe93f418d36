/** The roster publication boundary of startup restoration
    (src-tauri/src/startup_restore.rs, RestorePublication). */
module RestorePublication {
  import opened Common
  import opened Leases

  /** A registered agent. `cell` is the identity of its shared status handle
      (the Arc that Arc::ptr_eq compares), `status` the text behind it. */
  datatype ActiveAgent = ActiveAgent(
    config: AgentConfig,
    cell: nat,
    status: string,
    generation: Option<nat>,
    process: Option<nat>)

  function WithoutProcess(config: AgentConfig, cell: nat, status: string): ActiveAgent {
    ActiveAgent(config, cell, status, None, None)
  }

  predicate HasRuntime(agent: ActiveAgent) {
    agent.generation.Some? || agent.process.Some?
  }

  function RequiredStatus(kind: RetryKind): string {
    match kind
    case LifecycleLease => "Error"
    case HeadlessExecutionLease => "Headless"
  }

  /** The check of begin: a registered owner wins over startup. */
  predicate MayBegin(agents: map<string, ActiveAgent>, id: string) {
    id !in agents
  }

  /** The recheck of begin_retry_if_current_status. */
  predicate IsCurrentPlaceholder(agents: map<string, ActiveAgent>, expected: AgentConfig, cell: nat, required: string) {
    && expected.sessionId in agents
    && var agent := agents[expected.sessionId];
       && agent.cell == cell
       && agent.status == required
       && !HasRuntime(agent)
       && !agent.config.isOff
       && agent.config == expected
  }

  /** Registering at the end of the order, or replacing in place. */
  function PublishedOrder(order: seq<string>, id: string): seq<string> {
    if id in order then order else order + [id]
  }

  ghost predicate RosterIsListed(agents: map<string, ActiveAgent>, order: seq<string>) {
    && (forall i, j :: 0 <= i < j < |order| ==> order[i] != order[j])
    && (forall id :: id in agents ==> id in order && agents[id].config.sessionId == id)
  }

  /** The statuses that may replace "Starting" once codex has attached. */
  predicate IsSettledStatus(normalized: string) {
    normalized in {"idle", "processing", "action_required", "off", "error"}
  }

  /** The status recorded meanwhile is no longer that of a start. */
  ghost predicate SettlesAdmitted(admitted: Option<string>, normalize: string -> string) {
    admitted.Some? && var status := normalize(admitted.value);
                      || status == "idle" || status == "processing" || status == "action_required"
                      || status == "off" || status == "error"
  }

  /** The roster maps of AppState, with the methods a claim uses on them. The
      caller holds the agent's lifecycle gate. */
  class Roster {
    var agents: map<string, ActiveAgent>
    var order: seq<string>

    ghost predicate Valid()
      reads this
    {
      RosterIsListed(agents, order)
    }

    constructor ()
      ensures Valid() && agents == map[] && order == []
    {
      agents, order := map[], [];
    }

    /** begin, after the gate is held: a registered owner wins over the saved
        snapshot. */
    method Begin(sessionId: string) returns (claimed: bool)
      ensures claimed <==> MayBegin(agents, sessionId)
    {
      claimed := sessionId !in agents;
    }

    /** begin_retry_if_current_error and begin_retry_if_current_headless_execution. */
    method BeginRetry(kind: RetryKind, expected: AgentConfig, cell: nat) returns (claimed: bool)
      ensures claimed <==> IsCurrentPlaceholder(agents, expected, cell, RequiredStatus(kind))
      ensures claimed <==>
        && expected.sessionId in agents && !expected.isOff
        && agents[expected.sessionId]
           == ActiveAgent(expected, cell, if kind == LifecycleLease then "Error" else "Headless", None, None)
      ensures claimed ==> !expected.isOff
    {
      if kind.HeadlessExecutionLease? && expected.isOff {
        return false;
      }
      if expected.sessionId !in agents {
        return false;
      }
      var agent := agents[expected.sessionId];
      claimed :=
        && agent.cell == cell
        && agent.status == RequiredStatus(kind)
        && agent.generation.None?
        && agent.process.None?
        && !agent.config.isOff
        && agent.config == expected;
    }

    method Publish(sessionId: string, agent: ActiveAgent)
      requires Valid() && agent.config.sessionId == sessionId
      modifies this
      ensures Valid()
      ensures agents == old(agents)[sessionId := agent]
      ensures order == PublishedOrder(old(order), sessionId)
    {
      if sessionId !in order {
        order := order + [sessionId];
      }
      agents := agents[sessionId := agent];
    }

    /** publish_spawned: `attachedCodex` says that the spawn has completed owner
        attachment, `admitted` is the status intent recorded meanwhile (already
        normalised by `normalize`). */
    method PublishSpawned(sessionId: string, agent: ActiveAgent, attachedCodex: bool,
                          admitted: Option<string>, normalize: string -> string)
      requires Valid() && agent.config.sessionId == sessionId
      requires normalize("Starting") == "starting" && normalize("Idle") == "idle"
      modifies this
      ensures Valid()
      ensures order == PublishedOrder(old(order), sessionId)
      ensures sessionId in agents && agents == old(agents)[sessionId := agents[sessionId]]
      ensures agents[sessionId] == agent.(status := agents[sessionId].status)
      ensures !(attachedCodex && agent.status == "Starting") ==> agents[sessionId].status == agent.status
      ensures attachedCodex && agent.status == "Starting" ==>
        (agents[sessionId].status == if SettlesAdmitted(admitted, normalize) then admitted.value else "Idle")
      ensures attachedCodex ==> agents[sessionId].status != "Starting"
    {
      Publish(sessionId, agent);
      if attachedCodex && agent.status == "Starting" {
        var reconciled := "Idle";
        if admitted.Some? && IsSettledStatus(normalize(admitted.value)) {
          reconciled := admitted.value;
        }
        agents := agents[sessionId := agent.(status := reconciled)];
      }
    }
  }

  /** Publishing never moves, drops or repeats an agent of the order; it only
      appends one that was missing. */
  lemma PublishingKeepsPlaces(agents: map<string, ActiveAgent>, order: seq<string>, id: string, agent: ActiveAgent)
    requires RosterIsListed(agents, order) && agent.config.sessionId == id
    ensures RosterIsListed(agents[id := agent], PublishedOrder(order, id))
    ensures order <= PublishedOrder(order, id)
    ensures id in agents ==> PublishedOrder(order, id) == order
  {
    var order' := PublishedOrder(order, id);
    forall other | other in agents[id := agent]
      ensures other in order'
    {
      if other in agents {
        assert other in order;
      } else {
        assert order'[|order'| - 1] == id || id in order;
      }
    }
  }
}
