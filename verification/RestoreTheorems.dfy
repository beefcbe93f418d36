/** What startup restoration promises on every run. */
module RestoreTheorems {
  import opened Common
  import opened Leases
  import opened RestorePublication
  import opened RestoreProtocol
  import opened RestoreInvariant

  // ----- deadlock freedom -----

  /** What is unfinished apart from retries that wait for a lease. */
  ghost predicate OnlyLeaseWaits(s: State) {
    && s.main.Scheduled?
    && forall k :: 0 <= k < |s.retries| ==> s.retries[k].pc.LeaseWaiting? || s.retries[k].pc.RetryDone?
  }

  /** A step of restoration, or the release of a gate by an outsider, that does
      not need a lease to clear unless nothing else is left. */
  ghost predicate CanAdvance(s: State, a: Action) {
    && Enabled(s, a)
    && IsProgress(a)
    && (a.LeaseAnswer? ==> OnlyLeaseWaits(s))
  }

  /** No reachable unfinished state is stuck. */
  lemma NoDeadlock(start: State, actions: seq<Action>, s: State) returns (a: Action)
    requires Initial(start) && Runs(start, actions, s)
    requires !Complete(s)
    ensures CanAdvance(s, a)
  {
    hide Phased, Exclusive, NoStrayGates, RetriesDistinct, SlotsConserved, EntriesOwned, PlansFaithful, Apply;
    InitialIsGood(start);
    RunKeepsInv(start, actions, s);
    match s.main {
      case Pass1(_) => a := AdvancePass1(s);
      case AwaitGate(_) => a := AdvanceGate(s);
      case Preparing(at) => a := AdvancePreparing(s);
      case Joining => a := AdvanceTasks(s);
      case Persisting => a := Persist(true);
      case Scheduled => a := AdvanceRetries(s);
    }
  }

  lemma AdvancePass1(s: State) returns (a: Action)
    requires Inv(s) && s.main.Pass1?
    ensures CanAdvance(s, a)
  {
    a := if s.main.next == |s.roster| then SpawnTasks
         else if At(s, s.main.next) in s.seen then SkipDuplicate
         else AskGate;
  }

  lemma AdvancePreparing(s: State) returns (a: Action)
    requires Inv(s) && s.main.Preparing?
    ensures CanAdvance(s, a)
  {
    a := PublishPlaceholder(s.roster[s.main.at]);
  }

  /** Before the retries start, pass 1 never waits for a gate it already holds: a
      repeated saved id is skipped before the wait. */
  lemma AwaitedGateIsNotOurs(s: State)
    requires Inv(s) && s.main.AwaitGate?
    ensures At(s, s.main.at) !in s.claimed
  {
    hide RetriesDistinct, SlotsConserved, EntriesOwned, PlansFaithful;
    var id := At(s, s.main.at);
    assert SomebodyHolds(s, id) || id !in s.claimed;
  }

  lemma AdvanceGate(s: State) returns (a: Action)
    requires Inv(s) && s.main.AwaitGate?
    ensures CanAdvance(s, a)
  {
    hide Exclusive, NoStrayGates, RetriesDistinct, SlotsConserved, EntriesOwned, PlansFaithful;
    AwaitedGateIsNotOurs(s);
    a := if At(s, s.main.at) in s.outside then OutsideRelease(At(s, s.main.at)) else TakeGate;
  }

  /** A task that waits for a slot holds only its own gate; whoever holds the
      slots is a task that waits for nothing. */
  lemma AdvanceTasks(s: State) returns (a: Action)
    requires Inv(s) && s.main.Joining?
    ensures CanAdvance(s, a)
  {
    hide Exclusive, NoStrayGates, RetriesDistinct, EntriesOwned, PlansFaithful, Total;
    if k :| 0 <= k < |s.tasks| && s.tasks[k].Settled? {
      a := EndTask(k);
    } else if k :| 0 <= k < |s.tasks| && s.tasks[k].Spawning? {
      a := PublishSpawn(k, s.tasks[k].claim.config, Refused(None, Ok([]), 0));
    } else if k :| 0 <= k < |s.tasks| && s.tasks[k].WaitSlot? {
      NoSlotsHeld(s.tasks, TaskSlot);
      NoSlotsHeld(s.retries, RetrySlot);
      a := TakeSlot(k);
    } else {
      a := JoinTasks;
    }
  }

  /** A gate that a retry waits for is held by an outsider or by a running attempt. */
  lemma RetryGateHolder(s: State, id: string)
    requires Inv(s) && s.main.Scheduled?
    requires forall k :: 0 <= k < |s.retries| ==> !s.retries[k].pc.Attempting?
    ensures id !in s.claimed
  {
    hide RetriesDistinct, SlotsConserved, EntriesOwned, PlansFaithful;
    assert SomebodyHolds(s, id) || id !in s.claimed;
  }

  /** A retry waits for a slot, or for a gate while it holds a slot; the slot
      holders wait for gates only, and attempts wait for nothing. */
  lemma AdvanceRetries(s: State) returns (a: Action)
    requires Inv(s) && s.main.Scheduled? && !Complete(s)
    ensures CanAdvance(s, a)
  {
    hide Exclusive, NoStrayGates, RetriesDistinct, EntriesOwned, PlansFaithful, Total;
    if k :| 0 <= k < |s.retries| && s.retries[k].pc.Attempting? {
      a := EndRetry(k, Cancelled);
    } else if k :| 0 <= k < |s.retries| && s.retries[k].pc.WantGate? {
      var id := s.retries[k].plan.Id();
      RetryGateHolder(s, id);
      a := if id in s.outside then OutsideRelease(id) else ClaimRetry(k);
    } else if k :| 0 <= k < |s.retries| && s.retries[k].pc.WantSlot? {
      NoSlotsHeld(s.tasks, TaskSlot);
      NoSlotsHeld(s.retries, RetrySlot);
      a := TakeRetrySlot(k);
    } else {
      var k :| 0 <= k < |s.retries| && !s.retries[k].pc.RetryDone?;
      a := LeaseAnswer(k, false);
    }
  }

  // ----- every run is bounded -----

  function TaskWork(t: Task): nat {
    match t
    case WaitSlot(_) => 11
    case Spawning(_) => 10
    case Settled(_, _) => 9
    case TaskDone => 0
  }

  function RetryWork(r: Retry): nat {
    match r.pc
    case LeaseWaiting => 5
    case WantSlot => 4
    case WantGate => 3
    case Attempting(_) => 2
    case RetryDone => 0
  }

  function ClaimWork(c: Claim): nat { 12 }

  function PlanWork(p: RetryPlan): nat { 6 }

  ghost function MainWork(s: State): nat
    requires Phased(s)
  {
    match s.main
    case Pass1(next) => 20 * (|s.roster| - next) + 5
    case AwaitGate(at) => 20 * (|s.roster| - at) + 4
    case Preparing(at) => 20 * (|s.roster| - at) + 3
    case Joining => 4
    case Persisting => 3
    case Scheduled => 0
  }

  /** The work left, counting one step for every gate somebody else holds. */
  ghost function Work(s: State): nat
    requires Phased(s)
  {
    MainWork(s) + Total(s.pending, ClaimWork) + Total(s.tasks, TaskWork)
    + Total(s.parked, PlanWork) + Total(s.retries, RetryWork) + |s.outside|
  }

  lemma {:induction false} TotalOfUniform<T>(xs: seq<T>, weight: T -> nat, w: nat)
    requires forall k :: 0 <= k < |xs| ==> weight(xs[k]) == w
    ensures Total(xs, weight) == |xs| * w
  {
    if xs != [] {
      TotalOfUniform(xs[1..], weight, w);
    }
  }

  /** Every progress step uses up work; only a new outside hold adds one unit. */
  lemma StepUsesWork(s: State, a: Action)
    requires Inv(s) && Enabled(s, a) && Phased(Apply(s, a))
    ensures IsProgress(a) ==> Work(Apply(s, a)) < Work(s)
    ensures !IsProgress(a) ==> Work(Apply(s, a)) <= Work(s) + (if a.OutsideTake? then 1 else 0)
  {
    hide Exclusive, NoStrayGates, RetriesDistinct, SlotsConserved, EntriesOwned, PlansFaithful;
    if IsMainStep(a) {
      MainUsesWork(s, a);
    } else if IsTaskStep(a) {
      TaskUsesWork(s, a);
    } else if IsRetryStep(a) {
      RetryUsesWork(s, a);
    } else {
      OutsideUsesWork(s, a);
    }
  }

  lemma MainUsesWork(s: State, a: Action)
    requires Phased(s) && Enabled(s, a) && Phased(Apply(s, a)) && IsMainStep(a)
    ensures Work(Apply(s, a)) < Work(s)
  {
    hide Total;
    var s' := Apply(s, a);
    if a.PublishPlaceholder? {
      TotalOfUniform(s.pending, ClaimWork, 12);
      TotalOfUniform(s'.pending, ClaimWork, 12);
    } else if a.SpawnTasks? {
      TotalOfUniform(s.tasks, TaskWork, 0);
      TotalOfUniform(s.pending, ClaimWork, 12);
      TotalOfUniform(s'.pending, ClaimWork, 12);
      TotalOfUniform(s'.tasks, TaskWork, 11);
    } else if a.Persist? {
      TotalOfUniform(s.parked, PlanWork, 6);
      TotalOfUniform(s'.parked, PlanWork, 6);
      TotalOfUniform(s.retries, RetryWork, 0);
      TotalOfUniform(s'.retries, RetryWork, 5);
    }
  }

  lemma TaskUsesWork(s: State, a: Action)
    requires Phased(s) && Enabled(s, a) && Phased(Apply(s, a)) && IsTaskStep(a)
    ensures Work(Apply(s, a)) < Work(s)
  {
    hide Total, Settle;
    var s' := Apply(s, a);
    TotalOfUpdate(s.tasks, a.k, s'.tasks[a.k], TaskWork);
    TotalOfUniform(s.parked, PlanWork, 6);
    TotalOfUniform(s'.parked, PlanWork, 6);
  }

  lemma RetryUsesWork(s: State, a: Action)
    requires Phased(s) && Enabled(s, a) && Phased(Apply(s, a)) && IsRetryStep(a)
    ensures Work(Apply(s, a)) < Work(s)
  {
    hide Total, SettleRetry, IsCurrentPlaceholder;
    TotalOfUpdate(s.retries, a.k, Apply(s, a).retries[a.k], RetryWork);
  }

  lemma OutsideUsesWork(s: State, a: Action)
    requires Phased(s) && Enabled(s, a) && Phased(Apply(s, a)) && IsOutsideStep(a)
    ensures a.OutsideRelease? ==> Work(Apply(s, a)) < Work(s)
    ensures Work(Apply(s, a)) <= Work(s) + (if a.OutsideTake? then 1 else 0)
  {
    hide Total;
  }

  function ProgressWeight(a: Action): nat { if IsProgress(a) then 1 else 0 }

  function TakeWeight(a: Action): nat { if a.OutsideTake? then 1 else 0 }

  /** In every run the restoration steps and outside releases number at most the
      work at the start plus the outside holds taken meanwhile. With NoDeadlock:
      if outsiders take finitely many gates, restoration completes. */
  lemma {:induction false} RunsAreBounded(s: State, actions: seq<Action>, t: State)
    requires Inv(s) && Runs(s, actions, t) && Inv(t)
    ensures Total(actions, ProgressWeight) + Work(t) <= Work(s) + Total(actions, TakeWeight)
    decreases |actions|
  {
    hide Phased, Exclusive, NoStrayGates, RetriesDistinct, SlotsConserved, EntriesOwned, PlansFaithful,
      Apply, Enabled, Work;
    if actions != [] {
      StepKeepsInv(s, actions[0]);
      StepUsesWork(s, actions[0]);
      RunsAreBounded(Apply(s, actions[0]), actions[1..], t);
    }
  }

  /** From the start: at most 20 steps for every saved entry, five for the rest,
      and one for every gate that others hold or take. */
  lemma StartupIsBounded(start: State, actions: seq<Action>, t: State)
    requires Initial(start) && Runs(start, actions, t)
    ensures Total(actions, ProgressWeight) <=
            20 * |start.roster| + 5 + |start.outside| + Total(actions, TakeWeight)
  {
    hide Exclusive, NoStrayGates, RetriesDistinct, SlotsConserved, EntriesOwned, PlansFaithful, Apply, Enabled, Runs;
    InitialIsGood(start);
    RunKeepsInv(start, actions, t);
    RunsAreBounded(start, actions, t);
  }

  // ----- safety -----

  function SpawningWeight(t: Task): nat { if t.Spawning? then 1 else 0 }

  lemma {:induction false} TotalOfLighter<T>(xs: seq<T>, light: T -> nat, heavy: T -> nat)
    requires forall x :: light(x) <= heavy(x)
    ensures Total(xs, light) <= Total(xs, heavy)
  {
    if xs != [] {
      TotalOfLighter(xs[1..], light, heavy);
    }
  }

  /** At most four pass-2 tasks spawn at once, and at the end no permit is
      missing. */
  lemma FourSpawnsAtOnce(start: State, actions: seq<Action>, s: State)
    requires Initial(start) && Runs(start, actions, s)
    ensures Total(s.tasks, SpawningWeight) <= RESTORE_SLOTS
    ensures Complete(s) ==> s.slots == RESTORE_SLOTS
  {
    InitialIsGood(start);
    RunKeepsInv(start, actions, s);
    TotalOfLighter(s.tasks, SpawningWeight, TaskSlot);
    if Complete(s) {
      NoSlotsHeld(s.tasks, TaskSlot);
      NoSlotsHeld(s.retries, RetrySlot);
    }
  }

  /** The agents restoration has an open claim for, one entry for each claim. */
  ghost function OpenClaims(s: State): seq<string>
    requires Phased(s)
  {
    (if s.main.Preparing? then [At(s, s.main.at)] else [])
    + seq(|s.pending|, i requires 0 <= i < |s.pending| => s.pending[i].Id())
    + TaskClaims(s.tasks)
    + RetryClaims(s.retries)
  }

  ghost function TaskClaims(tasks: seq<Task>): seq<string> {
    if tasks == [] then []
    else (if tasks[0].TaskDone? then [] else [tasks[0].claim.Id()]) + TaskClaims(tasks[1..])
  }

  ghost function RetryClaims(retries: seq<Retry>): seq<string> {
    if retries == [] then []
    else (if retries[0].pc.Attempting? then [retries[0].plan.Id()] else []) + RetryClaims(retries[1..])
  }

  ghost predicate Distinct(xs: seq<string>) {
    forall i, j :: 0 <= i < j < |xs| ==> xs[i] != xs[j]
  }

  lemma {:induction false} TaskClaimsAreDistinct(tasks: seq<Task>)
    requires forall j, k :: 0 <= j < k < |tasks| && Active(tasks[j]) && Active(tasks[k]) ==>
      tasks[j].claim.Id() != tasks[k].claim.Id()
    ensures Distinct(TaskClaims(tasks))
    ensures forall id :: id in TaskClaims(tasks) <==>
      exists k :: 0 <= k < |tasks| && Active(tasks[k]) && tasks[k].claim.Id() == id
  {
    if tasks != [] {
      var rest := tasks[1..];
      TaskClaimsAreDistinct(rest);
      assert forall k :: 0 <= k < |rest| ==> rest[k] == tasks[k + 1];
      assert forall k :: 0 < k < |tasks| ==> tasks[k] == rest[k - 1];
      assert Active(tasks[0]) ==> tasks[0].claim.Id() !in TaskClaims(rest);
    }
  }

  lemma {:induction false} RetryClaimsAreDistinct(retries: seq<Retry>)
    requires forall j, k :: 0 <= j < k < |retries| ==> retries[j].plan.Id() != retries[k].plan.Id()
    ensures Distinct(RetryClaims(retries))
    ensures forall id :: id in RetryClaims(retries) <==>
      exists k :: 0 <= k < |retries| && retries[k].pc.Attempting? && retries[k].plan.Id() == id
  {
    if retries != [] {
      var rest := retries[1..];
      RetryClaimsAreDistinct(rest);
      assert forall k :: 0 <= k < |rest| ==> rest[k] == retries[k + 1];
      assert forall k :: 0 < k < |retries| ==> retries[k] == rest[k - 1];
      assert retries[0].pc.Attempting? ==> retries[0].plan.Id() !in RetryClaims(rest);
    }
  }

  /** Each agent has at most one open claim, and restoration holds exactly the
      gates of the open claims, none of which anybody else holds. */
  lemma OneClaimPerAgent(start: State, actions: seq<Action>, s: State)
    requires Initial(start) && Runs(start, actions, s)
    ensures Phased(s)
    ensures Distinct(OpenClaims(s))
    ensures forall id :: id in OpenClaims(s) <==> id in s.claimed
    ensures s.claimed !! s.outside
  {
    hide NoStrayGates, RetriesDistinct, SlotsConserved, EntriesOwned, PlansFaithful, OpenClaims, Runs;
    InitialIsGood(start);
    RunKeepsInv(start, actions, s);
    OpenClaimsAreDistinct(s);
    OpenClaimsAreHeld(s);
  }

  lemma OpenClaimsAreDistinct(s: State)
    requires Inv(s)
    ensures Distinct(OpenClaims(s))
  {
    hide NoStrayGates, SlotsConserved, EntriesOwned, PlansFaithful;
    TaskClaimsAreDistinct(s.tasks);
    RetryClaimsAreDistinct(s.retries);
    var pending := seq(|s.pending|, i requires 0 <= i < |s.pending| => s.pending[i].Id());
    assert Distinct(pending);
    if TaskClaims(s.tasks) != [] {
      assert TaskClaims(s.tasks)[0] in TaskClaims(s.tasks);
      assert OpenClaims(s) == TaskClaims(s.tasks);
    } else if s.main.Scheduled? {
      assert OpenClaims(s) == RetryClaims(s.retries);
    } else if s.main.Preparing? {
      assert At(s, s.main.at) !in pending;
      assert OpenClaims(s) == [At(s, s.main.at)] + pending;
    } else {
      assert OpenClaims(s) == pending;
    }
  }

  lemma OpenClaimsAreHeld(s: State)
    requires Inv(s)
    ensures forall id :: id in OpenClaims(s) <==> id in s.claimed
  {
    hide SlotsConserved, EntriesOwned, PlansFaithful;
    TaskClaimsAreDistinct(s.tasks);
    RetryClaimsAreDistinct(s.retries);
    forall id | id in s.claimed
      ensures id in OpenClaims(s)
    {
      assert SomebodyHolds(s, id);
      OpenClaimsCover(s, id);
    }
  }

  lemma OpenClaimsCover(s: State, id: string)
    requires Phased(s) && SomebodyHolds(s, id)
    requires forall other :: other in TaskClaims(s.tasks) <==>
      exists k :: 0 <= k < |s.tasks| && Active(s.tasks[k]) && s.tasks[k].claim.Id() == other
    requires forall other :: other in RetryClaims(s.retries) <==>
      exists k :: 0 <= k < |s.retries| && s.retries[k].pc.Attempting? && s.retries[k].plan.Id() == other
    ensures id in OpenClaims(s)
  {
    var pending := seq(|s.pending|, i requires 0 <= i < |s.pending| => s.pending[i].Id());
    if k :| 0 <= k < |s.pending| && s.pending[k].Id() == id {
      assert pending[k] == id;
    }
  }

  /** A claim that pass 1 begins stays good until it publishes: whatever others do
      meanwhile, the agent stays unregistered and its gate stays with the claim. */
  lemma BegunClaimStaysGood(start: State, actions: seq<Action>, s: State)
    requires Initial(start) && Runs(start, actions, s) && s.main.Preparing?
    ensures Phased(s)
    ensures MayBegin(s.agents, At(s, s.main.at))
    ensures At(s, s.main.at) in s.claimed && At(s, s.main.at) !in s.outside
    ensures forall a :: Enabled(s, a) && IsOutsideStep(a) ==>
      MayBegin(Apply(s, a).agents, At(s, s.main.at)) && Apply(s, a).main == s.main
  {
    hide Runs, NoStrayGates, RetriesDistinct, SlotsConserved, PlansFaithful;
    InitialIsGood(start);
    RunKeepsInv(start, actions, s);
  }

  /** Each scheduled retry attempts at most once, and no agent has two. */
  lemma RetryAtMostOnce(start: State, actions: seq<Action>, s: State)
    requires Initial(start) && Runs(start, actions, s)
    ensures forall k :: 0 <= k < |s.retries| ==> s.retries[k].attempts <= 1
    ensures forall i, j :: 0 <= i < j < |s.retries| ==> s.retries[i].plan.Id() != s.retries[j].plan.Id()
  {
    InitialIsGood(start);
    RunKeepsInv(start, actions, s);
  }

  /** The steps that put an entry on the roster on behalf of a claim. */
  predicate IsPublication(a: Action) {
    a.PublishUnprepared? || a.PublishPlaceholder? || a.PublishSpawn? || a.EndRetry?
  }

  function PublishedId(s: State, a: Action): string
    requires Enabled(s, a) && IsPublication(a)
  {
    if a.PublishSpawn? then a.config.sessionId
    else if a.EndRetry? then s.retries[a.k].plan.Id()
    else At(s, s.main.at)
  }

  /** What a publication may replace: nothing in pass 1, the placeholder of the
      same claim in pass 2, and in a retry the very Error or Headless placeholder
      it rechecked under the gate. */
  ghost predicate MayReplace(s: State, a: Action)
    requires Enabled(s, a) && IsPublication(a)
  {
    var id := PublishedId(s, a);
    if a.PublishSpawn? then OwnPlaceholder(s, s.tasks[a.k].claim)
    else if a.EndRetry? then
      && Rechecked(s.retries[a.k].plan, s.retries[a.k].pc.rechecked)
      && StillRechecked(s, s.retries[a.k].plan, s.retries[a.k].pc.rechecked)
    else id !in s.agents
  }

  lemma PublicationIsOwned(start: State, actions: seq<Action>, s: State, a: Action)
    requires Initial(start) && Runs(start, actions, s)
    requires Enabled(s, a) && IsPublication(a)
    ensures MayReplace(s, a)
    ensures PublishedId(s, a) in s.claimed && PublishedId(s, a) !in s.outside
    ensures forall id :: id != PublishedId(s, a) ==>
      (id in Apply(s, a).agents <==> id in s.agents) && (id in s.agents ==> Apply(s, a).agents[id] == s.agents[id])
  {
    hide NoStrayGates, RetriesDistinct, SlotsConserved, PlansFaithful, Runs, Settle, SettleRetry;
    InitialIsGood(start);
    RunKeepsInv(start, actions, s);
  }

  /** A retry that reaches the gate attempts iff its placeholder is still the
      current one; if nobody else touched the agent, only a configuration that is
      off can stop it, and a headless plan is never off. */
  lemma UntouchedPlaceholderIsReclaimed(start: State, actions: seq<Action>, s: State, k: nat)
    requires Initial(start) && Runs(start, actions, s)
    requires Enabled(s, ClaimRetry(k))
    ensures var plan := s.retries[k].plan;
            && (plan.kind.HeadlessExecutionLease? ==> !plan.config.isOff)
            && (plan.Id() !in s.touched ==>
                  (Apply(s, ClaimRetry(k)).retries[k].pc.Attempting? <==> !plan.config.isOff))
  {
    hide Exclusive, NoStrayGates, RetriesDistinct, SlotsConserved, EntriesOwned, Runs;
    InitialIsGood(start);
    RunKeepsInv(start, actions, s);
    assert PlanIsFaithful(s, s.retries[k].plan);
  }
}
