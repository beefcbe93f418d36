/** How far the four slots reach: they bound the spawns of pass 2, and nothing after
    it (src-tauri/src/lib.rs, where the retry's permit is a parameter the attempt
    does not keep). */
module RestoreSlots {
  import opened Common
  import opened Leases
  import opened RestorePublication
  import opened RestoreProtocol
  import opened RestoreInvariant
  import opened RestoreTheorems

  // ----- from scheduled retries to attempts -----

  ghost predicate ReadyToRetry(s: State, r: Retry) {
    r.pc.LeaseWaiting? && r.plan.Id() !in s.touched && !r.plan.config.isOff
  }

  lemma {:induction false} RunsConcat(s: State, xs: seq<Action>, t: State, ys: seq<Action>, u: State)
    requires Runs(s, xs, t) && Runs(t, ys, u)
    ensures Runs(s, xs + ys, u)
    decreases |xs|
  {
    hide Apply, Enabled;
    if xs == [] {
      assert xs + ys == ys;
    } else {
      assert (xs + ys)[0] == xs[0] && (xs + ys)[1..] == xs[1..] + ys;
      RunsConcat(Apply(s, xs[0]), xs[1..], t, ys, u);
    }
  }

  /** One retry goes from its lease wait to its attempt and leaves every permit
      in the semaphore. */
  lemma StartAttempt(s: State, k: nat) returns (actions: seq<Action>, t: State)
    requires Inv(s) && s.main.Scheduled? && s.outside == {} && s.slots == RESTORE_SLOTS
    requires k < |s.retries| && ReadyToRetry(s, s.retries[k])
    requires s.retries[k].plan.Id() !in s.claimed
    ensures Runs(s, actions, t)
    ensures t == s.(retries := t.retries, claimed := s.claimed + {s.retries[k].plan.Id()})
    ensures exists r :: t.retries == s.retries[k := r] && r.pc.Attempting? && r.plan == s.retries[k].plan
  {
    hide Exclusive, NoStrayGates, RetriesDistinct, SlotsConserved, EntriesOwned, Runs;
    var plan := s.retries[k].plan;
    assert PlanIsFaithful(s, plan);
    var s1 := Apply(s, LeaseAnswer(k, true));
    var s2 := Apply(s1, TakeRetrySlot(k));
    t := Apply(s2, ClaimRetry(k));
    actions := [LeaseAnswer(k, true), TakeRetrySlot(k), ClaimRetry(k)];
    assert IsCurrentPlaceholder(s.agents, plan.config, plan.cell, RequiredStatus(plan.kind));
    ThreeSteps(s, LeaseAnswer(k, true), TakeRetrySlot(k), ClaimRetry(k));
    assert t.retries == s.retries[k := t.retries[k]];
  }

  /** However many retries were scheduled, all of them can run at once: the four
      slots bound the spawns of pass 2 and nothing after it. */
  lemma {:induction false} AllRetriesMayRunTogether(s: State, done: nat) returns (actions: seq<Action>, t: State)
    requires Inv(s) && s.main.Scheduled? && s.outside == {} && s.slots == RESTORE_SLOTS
    requires done <= |s.retries|
    requires forall k :: 0 <= k < done ==> s.retries[k].pc.Attempting?
    requires forall k :: done <= k < |s.retries| ==> ReadyToRetry(s, s.retries[k])
    ensures Runs(s, actions, t)
    ensures |t.retries| == |s.retries|
    ensures forall k :: 0 <= k < |t.retries| ==> t.retries[k].pc.Attempting?
    decreases |s.retries| - done
  {
    hide Phased, SlotsConserved, EntriesOwned, PlansFaithful, Apply, Enabled, Runs;
    if done == |s.retries| {
      assert Runs(s, [], s) by { NoSteps(s); }
      actions, t := [], s;
    } else {
      var id := s.retries[done].plan.Id();
      NotYetClaimed(s, done);
      var first, u := StartAttempt(s, done);
      RunKeepsInv(s, first, u);
      var rest;
      rest, t := AllRetriesMayRunTogether(u, done + 1);
      RunsConcat(s, first, u, rest, t);
      actions := first + rest;
    }
  }

  lemma NoSteps(s: State)
    ensures Runs(s, [], s)
  {}

  lemma NotYetClaimed(s: State, k: nat)
    requires Inv(s) && s.main.Scheduled? && k < |s.retries| && !s.retries[k].pc.Attempting?
    ensures s.retries[k].plan.Id() !in s.claimed
  {
    hide SlotsConserved, EntriesOwned, PlansFaithful;
    var id := s.retries[k].plan.Id();
    assert SomebodyHolds(s, id) || id !in s.claimed;
  }

  function AttemptWeight(r: Retry): nat { if r.pc.Attempting? then 1 else 0 }

  ghost function Attempts(s: State): nat {
    Total(s.retries, AttemptWeight)
  }

  lemma {:induction false} TotalAtMostLength<T>(xs: seq<T>, weight: T -> nat)
    requires forall x :: weight(x) <= 1
    ensures Total(xs, weight) <= |xs|
  {
    if xs != [] {
      TotalAtMostLength(xs[1..], weight);
    }
  }

  /** Once the retries are scheduled, no further ones are. */
  lemma {:induction false} RetriesStay(s: State, actions: seq<Action>, t: State)
    requires Inv(s) && s.main.Scheduled? && Runs(s, actions, t)
    ensures |t.retries| == |s.retries|
    decreases |actions|
  {
    if actions != [] {
      StepKeepsInv(s, actions[0]);
      RetriesStayOneStep(s, actions[0]);
      hide Inv, Apply, Enabled;
      RetriesStay(Apply(s, actions[0]), actions[1..], t);
    }
  }

  lemma RetriesStayOneStep(s: State, a: Action)
    requires Inv(s) && s.main.Scheduled? && Enabled(s, a)
    ensures Apply(s, a).main.Scheduled? && |Apply(s, a).retries| == |s.retries|
  {
    hide Exclusive, NoStrayGates, RetriesDistinct, SlotsConserved, EntriesOwned, PlansFaithful, Settle, SettleRetry,
      IsCurrentPlaceholder;
  }

  /** The moment after scheduling, with nobody else at work on the agents. */
  ghost predicate JustScheduled(s: State) {
    && s.main.Scheduled? && s.outside == {}
    && forall k :: 0 <= k < |s.retries| ==> ReadyToRetry(s, s.retries[k])
  }

  ghost predicate MayReach(s: State, attempts: nat) {
    exists actions, t :: Runs(s, actions, t) && Attempts(t) == attempts
  }

  /** From scheduling on, whatever anybody does, no more attempts run at once than
      retries were scheduled. */
  lemma AttemptsNeverExceedRetries(start: State, before: seq<Action>, s: State, after: seq<Action>, t: State)
    requires Initial(start) && Runs(start, before, s) && s.main.Scheduled? && Runs(s, after, t)
    ensures Attempts(t) <= |s.retries|
  {
    InitialIsGood(start);
    RunKeepsInv(start, before, s);
    hide Inv, Runs, Initial;
    RetriesStay(s, after, t);
    TotalAtMostLength(t.retries, AttemptWeight);
  }

  /** And when nobody else is at work that many can: more than four attempts can run
      together iff more than four retries were scheduled. */
  lemma AttemptsAreBoundedByRetriesOnly(start: State, before: seq<Action>, s: State)
    requires Initial(start) && Runs(start, before, s) && JustScheduled(s)
    ensures forall actions, t :: Runs(s, actions, t) ==> Attempts(t) <= |s.retries|
    ensures MayReach(s, |s.retries|)
    ensures (exists n :: n > RESTORE_SLOTS && MayReach(s, n)) <==> |s.retries| > RESTORE_SLOTS
  {
    InitialIsGood(start);
    RunKeepsInv(start, before, s);
    AllPermitsAreBack(s);
    hide Inv, Runs, Apply, Enabled, Initial;
    forall actions, t | Runs(s, actions, t)
      ensures Attempts(t) <= |s.retries|
    {
      AttemptsNeverExceedRetries(start, before, s, actions, t);
    }
    var actions, t := AllRetriesMayRunTogether(s, 0);
    TotalOfUniform(t.retries, AttemptWeight, 1);
    assert Runs(s, actions, t) && Attempts(t) == |s.retries|;
  }

  lemma AllPermitsAreBack(s: State)
    requires Inv(s) && JustScheduled(s)
    ensures s.slots == RESTORE_SLOTS
  {
    NoSlotsHeld(s.tasks, TaskSlot);
    NoSlotsHeld(s.retries, RetrySlot);
  }

  // ----- from the start to scheduled retries -----

  /** A lease under which another node starts this agent right now. */
  function SpawnLease(config: AgentConfig): Lease {
    var stamp := Stamp("2026-01-01T00:00:00Z", Some(0));
    Lease(config.sessionId, config.provider, "", "provider_spawn", "", "", None, "lifecycle_transition", stamp, stamp, stamp)
  }

  const NoLeases: Result<seq<Lease>, string> := Ok([])

  function RefusedBySpawn(config: AgentConfig): SpawnOutcome {
    Refused(Some(SpawnLease(config)), NoLeases, 0)
  }

  /** Pass 1 has published the placeholders of the first k agents. */
  ghost predicate Prepared(s: State, roster: seq<AgentConfig>, k: nat) {
    && s.main == Pass1(k) && k <= |roster| && s.roster == roster
    && s.outside == {} && s.touched == {} && s.slots == RESTORE_SLOTS
    && (forall id :: id in s.seen ==> exists i :: 0 <= i < k && roster[i].sessionId == id)
    && |s.pending| == k
    && (forall i :: 0 <= i < k ==> s.pending[i].config == roster[i])
    && (forall i :: k <= i < |roster| ==> roster[i].sessionId !in s.agents)
  }

  ghost predicate DistinctRoster(roster: seq<AgentConfig>) {
    forall i, j :: 0 <= i < j < |roster| ==> roster[i].sessionId != roster[j].sessionId
  }

  lemma PrepareOne(s: State, roster: seq<AgentConfig>, k: nat) returns (actions: seq<Action>, t: State)
    requires Inv(s) && Prepared(s, roster, k) && DistinctRoster(roster) && k < |roster|
    ensures Runs(s, actions, t) && Prepared(t, roster, k + 1)
  {
    var id := roster[k].sessionId;
    assert id !in s.claimed by {
      assert SomebodyHolds(s, id) || id !in s.claimed;
    }
    hide Inv;
    var s1 := Apply(s, AskGate);
    var s2 := Apply(s1, TakeGate);
    t := Apply(s2, PublishPlaceholder(roster[k]));
    actions := [AskGate, TakeGate, PublishPlaceholder(roster[k])];
    ThreeSteps(s, AskGate, TakeGate, PublishPlaceholder(roster[k]));
  }

  lemma ThreeSteps(s: State, a: Action, b: Action, c: Action)
    requires Enabled(s, a) && Enabled(Apply(s, a), b) && Enabled(Apply(Apply(s, a), b), c)
    ensures Runs(s, [a, b, c], Apply(Apply(Apply(s, a), b), c))
  {
    hide Enabled, Apply;
    var u := Apply(Apply(Apply(s, a), b), c);
    assert [a, b, c][1..] == [b, c] && [b, c][1..] == [c] && [c][1..] == [];
    assert Runs(u, [], u);
    assert Runs(Apply(Apply(s, a), b), [c], u);
    assert Runs(Apply(s, a), [b, c], u);
  }

  lemma {:induction false} PrepareAll(s: State, roster: seq<AgentConfig>, k: nat) returns (actions: seq<Action>, t: State)
    requires Inv(s) && Prepared(s, roster, k) && DistinctRoster(roster)
    ensures Runs(s, actions, t) && Prepared(t, roster, |roster|)
    decreases |roster| - k
  {
    hide Inv, Runs, Apply, Enabled;
    if k == |roster| {
      NoSteps(s);
      actions, t := [], s;
    } else {
      var first, u := PrepareOne(s, roster, k);
      RunKeepsInv(s, first, u);
      var rest;
      rest, t := PrepareAll(u, roster, k + 1);
      RunsConcat(s, first, u, rest, t);
      actions := first + rest;
    }
  }

  /** Pass 2 has refused the first k agents, each because of a lease. */
  ghost predicate RefusedSoFar(s: State, roster: seq<AgentConfig>, k: nat) {
    && s.main.Joining? && s.roster == roster && k <= |roster|
    && s.outside == {} && s.touched == {} && s.slots == RESTORE_SLOTS
    && |s.tasks| == |roster|
    && (forall i :: 0 <= i < k ==> s.tasks[i].TaskDone?)
    && (forall i :: k <= i < |roster| ==> s.tasks[i].WaitSlot? && s.tasks[i].claim.config == roster[i])
    && |s.parked| == k
    && (forall i :: 0 <= i < k ==> s.parked[i].config == roster[i])
  }

  lemma LeaseParksRetry(config: AgentConfig, cell: nat)
    ensures var (agent, plan) := Settle(config, cell, RefusedBySpawn(config));
            plan.Some? && plan.value.config == config && agent.cell == cell
  {
    assert HasActiveHeadlessExecution(config, [], 0) == false;
    assert RetryableHeadless(config, SpawnLease(config)).None?;
    assert RetryableLifecycle(config, SpawnLease(config)).Some?;
  }

  lemma RefuseOne(s: State, roster: seq<AgentConfig>, k: nat) returns (actions: seq<Action>, t: State)
    requires Inv(s) && RefusedSoFar(s, roster, k) && k < |roster|
    ensures Runs(s, actions, t) && RefusedSoFar(t, roster, k + 1)
  {
    hide Inv, Settle;
    var spawned := PublishSpawn(k, roster[k], RefusedBySpawn(roster[k]));
    LeaseParksRetry(roster[k], s.nextCell);
    actions := [TakeSlot(k), spawned, EndTask(k)];
    t := Apply(Apply(Apply(s, TakeSlot(k)), spawned), EndTask(k));
    ThreeSteps(s, TakeSlot(k), spawned, EndTask(k));
  }

  lemma {:induction false} RefuseAll(s: State, roster: seq<AgentConfig>, k: nat) returns (actions: seq<Action>, t: State)
    requires Inv(s) && RefusedSoFar(s, roster, k)
    ensures Runs(s, actions, t) && RefusedSoFar(t, roster, |roster|)
    decreases |roster| - k
  {
    hide Inv, Runs, Apply, Enabled;
    if k == |roster| {
      NoSteps(s);
      actions, t := [], s;
    } else {
      var first, u := RefuseOne(s, roster, k);
      RunKeepsInv(s, first, u);
      var rest;
      rest, t := RefuseAll(u, roster, k + 1);
      RunsConcat(s, first, u, rest, t);
      actions := first + rest;
    }
  }

  lemma OneStep(s: State, a: Action)
    requires Enabled(s, a)
    ensures Runs(s, [a], Apply(s, a))
  {
    hide Enabled, Apply;
    assert [a][1..] == [];
    assert Runs(Apply(s, a), [], Apply(s, a));
  }

  lemma StartPass2(s: State, roster: seq<AgentConfig>)
    requires Prepared(s, roster, |roster|) && Inv(s)
    ensures Enabled(s, SpawnTasks) && RefusedSoFar(Apply(s, SpawnTasks), roster, 0)
  {
    hide Exclusive, NoStrayGates, RetriesDistinct, SlotsConserved, EntriesOwned, PlansFaithful;
  }

  lemma ScheduleAll(s: State, roster: seq<AgentConfig>) returns (actions: seq<Action>, t: State)
    requires RefusedSoFar(s, roster, |roster|)
    requires forall i :: 0 <= i < |roster| ==> !roster[i].isOff
    ensures Runs(s, actions, t) && JustScheduled(t) && |t.retries| == |roster|
  {
    t := Apply(Apply(s, JoinTasks), Persist(true));
    actions := [JoinTasks, Persist(true)];
    OneStep(s, JoinTasks);
    OneStep(Apply(s, JoinTasks), Persist(true));
    RunsConcat(s, [JoinTasks], Apply(s, JoinTasks), [Persist(true)], t);
    assert [JoinTasks] + [Persist(true)] == actions;
  }

  /** For every roster of distinct agents that nobody has registered and none of which
      is off, some run schedules a retry for each of them. */
  lemma EveryAgentMayBeRetried(start: State, roster: seq<AgentConfig>) returns (actions: seq<Action>, s: State)
    requires Initial(start) && start.roster == roster && start.outside == {} && DistinctRoster(roster)
    requires forall i :: 0 <= i < |roster| ==> roster[i].sessionId !in start.agents && !roster[i].isOff
    ensures Runs(start, actions, s) && JustScheduled(s) && |s.retries| == |roster|
  {
    InitialIsGood(start);
    assert Prepared(start, roster, 0);
    hide Inv, Runs, Apply, Enabled, Initial, Prepared, RefusedSoFar, JustScheduled;
    var first, s1 := PrepareAll(start, roster, 0);
    RunKeepsInv(start, first, s1);
    StartPass2(s1, roster);
    OneStep(s1, SpawnTasks);
    var s2 := Apply(s1, SpawnTasks);
    RunKeepsInv(s1, [SpawnTasks], s2);
    var second, s3 := RefuseAll(s2, roster, 0);
    var third;
    third, s := ScheduleAll(s3, roster);
    RunsConcat(s2, second, s3, third, s);
    RunsConcat(s1, [SpawnTasks], s2, second + third, s);
    RunsConcat(start, first, s1, [SpawnTasks] + (second + third), s);
    actions := first + ([SpawnTasks] + (second + third));
  }

  /** So for every n some run from the start has n attempts at once. */
  lemma AnyNumberMayAttemptTogether(start: State, roster: seq<AgentConfig>) returns (actions: seq<Action>, t: State)
    requires Initial(start) && start.roster == roster && start.outside == {} && DistinctRoster(roster)
    requires forall i :: 0 <= i < |roster| ==> roster[i].sessionId !in start.agents && !roster[i].isOff
    ensures Runs(start, actions, t) && Attempts(t) == |roster|
  {
    var before, s := EveryAgentMayBeRetried(start, roster);
    hide Runs;
    AttemptsAreBoundedByRetriesOnly(start, before, s);
    var after, end :| Runs(s, after, end) && Attempts(end) == |s.retries|;
    RunsConcat(start, before, s, after, end);
    actions, t := before + after, end;
  }
}
