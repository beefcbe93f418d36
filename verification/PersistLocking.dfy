/** The locks around persist_roster (src-tauri/src/startup_restore.rs): the two
    in-memory roster maps and the cross-process roster barrier, shared with any
    number of other users. */
module PersistLocking {
  import opened Common
  import opened Leases
  import opened PersistRoster

  /** Others use the maps alone, the durable file alone under the barrier, or,
      like a configuration mutation, the barrier first and then the maps. */
  datatype Use = MapsOnly | FileOnly | BarrierThenMaps

  datatype OtherPc = WantBarrier | WantAgents | WantOrder | Changing | Finished

  datatype Other = Other(use: Use, pc: OtherPc)

  /** `Blocked(holder)` waits for the barrier with no lock held; `holder` names the other
      that held it at the failed try and is used by no step. */
  datatype PersistPc =
    | Start
    | HasAgents
    | HasMaps
    | HasAll
    | Computed(merged: seq<AgentConfig>)
    | Blocked(holder: nat)
    | HasBarrierOnly
    | Done(ok: bool)

  datatype Owner = Persister | User(i: nat)

  datatype State = State(
    persister: PersistPc,
    others: seq<Other>,
    agentsLock: Option<Owner>,
    orderLock: Option<Owner>,
    barrier: Option<Owner>,
    runtime: seq<AgentConfig>,
    durable: seq<AgentConfig>)

  datatype Action =
    | Persist(fails: bool)
    | Step(i: nat, runtime: seq<AgentConfig>, durable: seq<AgentConfig>)

  ghost predicate PersistEnabled(s: State) {
    match s.persister
    case Start => s.agentsLock.None?
    case HasAgents => s.orderLock.None?
    case HasMaps => s.barrier.None? || s.barrier.value.User?
    case HasAll => true
    case Computed(_) => true
    case Blocked(_) => s.barrier.None?
    case HasBarrierOnly => true
    case Done(_) => false
  }

  ghost predicate UseEnabled(s: State, i: nat) {
    && i < |s.others|
    && match s.others[i].pc
       case WantBarrier => s.barrier.None?
       case WantAgents => s.agentsLock.None?
       case WantOrder => s.orderLock.None?
       case Changing => true
       case Finished => false
  }

  ghost predicate Enabled(s: State, a: Action) {
    match a
    case Persist(_) => PersistEnabled(s)
    case Step(i, runtime, durable) =>
      && UseEnabled(s, i)
      // Only a holder of the maps changes the runtime roster, only a holder of
      // the barrier the durable one.
      && (s.others[i].use.FileOnly? || s.others[i].pc != Changing ==> runtime == s.runtime)
      && (s.others[i].use.MapsOnly? || s.others[i].pc != Changing ==> durable == s.durable)
      && DistinctIds(runtime)
  }

  /** An I/O error at the barrier, the read or the write returns early and drops
      every guard. */
  ghost function PersistStep(s: State, selected: seq<AgentConfig>, fails: bool): State
    requires PersistEnabled(s)
  {
    match s.persister
    case Start => s.(persister := HasAgents, agentsLock := Some(Persister))
    case HasAgents => s.(persister := HasMaps, orderLock := Some(Persister))
    case HasMaps =>
      if fails then Release(s).(persister := Done(false))
      else if s.barrier.None? then s.(persister := HasAll, barrier := Some(Persister))
      else s.(persister := Blocked(s.barrier.value.i), agentsLock := None, orderLock := None)
    case HasAll =>
      if fails then Release(s).(persister := Done(false))
      else s.(persister := Computed(Merged(s.runtime, selected, s.durable)))
    case Computed(merged) =>
      if fails then Release(s).(persister := Done(false))
      else Release(s).(persister := Done(true), durable := merged)
    case Blocked(_) =>
      if fails then s.(persister := Done(false))
      else s.(persister := HasBarrierOnly, barrier := Some(Persister))
    case HasBarrierOnly => s.(persister := Start, barrier := None)
  }

  ghost function Release(s: State): State {
    s.(agentsLock := None, orderLock := None,
       barrier := if s.barrier == Some(Persister) then None else s.barrier)
  }

  ghost function UseStep(s: State, i: nat, runtime: seq<AgentConfig>, durable: seq<AgentConfig>): State
    requires UseEnabled(s, i)
  {
    var o := s.others[i];
    match o.pc
    case WantBarrier =>
      s.(others := s.others[i := o.(pc := if o.use.FileOnly? then Changing else WantAgents)], barrier := Some(User(i)))
    case WantAgents => s.(others := s.others[i := o.(pc := WantOrder)], agentsLock := Some(User(i)))
    case WantOrder => s.(others := s.others[i := o.(pc := Changing)], orderLock := Some(User(i)))
    case Changing =>
      s.(others := s.others[i := o.(pc := Finished)],
         agentsLock := if o.use.FileOnly? then s.agentsLock else None,
         orderLock := if o.use.FileOnly? then s.orderLock else None,
         barrier := if o.use.MapsOnly? then s.barrier else None,
         runtime := runtime, durable := durable)
  }

  ghost function Apply(s: State, selected: seq<AgentConfig>, a: Action): State
    requires Enabled(s, a)
  {
    match a
    case Persist(fails) => PersistStep(s, selected, fails)
    case Step(i, runtime, durable) => UseStep(s, i, runtime, durable)
  }

  ghost predicate Initial(s: State) {
    && s.persister.Start?
    && s.agentsLock.None? && s.orderLock.None? && s.barrier.None?
    && DistinctIds(s.runtime)
    && forall i :: 0 <= i < |s.others| ==>
         s.others[i].pc == if s.others[i].use.MapsOnly? then WantAgents else WantBarrier
  }

  ghost predicate Runs(s: State, selected: seq<AgentConfig>, actions: seq<Action>, t: State)
    decreases |actions|
  {
    if actions == [] then s == t
    else Enabled(s, actions[0]) && Runs(Apply(s, selected, actions[0]), selected, actions[1..], t)
  }

  // ----- who holds what -----

  ghost predicate OtherHoldsAgents(o: Other) {
    !o.use.FileOnly? && (o.pc.WantOrder? || o.pc.Changing?)
  }

  ghost predicate OtherHoldsOrder(o: Other) {
    !o.use.FileOnly? && o.pc.Changing?
  }

  ghost predicate OtherHoldsBarrier(o: Other) {
    !o.use.MapsOnly? && (o.pc.WantAgents? || o.pc.WantOrder? || o.pc.Changing?)
  }

  ghost predicate PersisterHoldsAgents(pc: PersistPc) {
    pc.HasAgents? || PersisterHoldsOrder(pc)
  }

  ghost predicate PersisterHoldsOrder(pc: PersistPc) {
    pc.HasMaps? || pc.HasAll? || pc.Computed?
  }

  ghost predicate PersisterHoldsBarrier(pc: PersistPc) {
    pc.HasAll? || pc.Computed? || pc.HasBarrierOnly?
  }

  ghost predicate Held(lock: Option<Owner>, owner: Owner) {
    lock == Some(owner)
  }

  ghost predicate LocksMatch(s: State) {
    && (Held(s.agentsLock, Persister) <==> PersisterHoldsAgents(s.persister))
    && (Held(s.orderLock, Persister) <==> PersisterHoldsOrder(s.persister))
    && (Held(s.barrier, Persister) <==> PersisterHoldsBarrier(s.persister))
    && (forall i: nat :: Held(s.agentsLock, User(i)) <==> i < |s.others| && OtherHoldsAgents(s.others[i]))
    && (forall i: nat :: Held(s.orderLock, User(i)) <==> i < |s.others| && OtherHoldsOrder(s.others[i]))
    && (forall i: nat :: Held(s.barrier, User(i)) <==> i < |s.others| && OtherHoldsBarrier(s.others[i]))
    && (forall i :: 0 <= i < |s.others| ==>
          && (s.others[i].use.FileOnly? ==> !s.others[i].pc.WantAgents? && !s.others[i].pc.WantOrder?)
          && (s.others[i].use.MapsOnly? ==> !s.others[i].pc.WantBarrier?))
  }

  /** What the persister is about to write is the merge of the rosters as they
      are now. */
  ghost predicate SnapshotIsCurrent(s: State, selected: seq<AgentConfig>) {
    && DistinctIds(s.runtime)
    && (s.persister.Computed? ==> s.persister.merged == Merged(s.runtime, selected, s.durable))
  }

  /** The other that made the try fail has the barrier until it is finished. */
  ghost predicate BlameIsFresh(s: State) {
    s.persister.Blocked? ==>
      && s.persister.holder < |s.others|
      && (s.others[s.persister.holder].pc.Finished? || Held(s.barrier, User(s.persister.holder)))
  }

  ghost predicate Inv(s: State, selected: seq<AgentConfig>) {
    LocksMatch(s) && SnapshotIsCurrent(s, selected) && BlameIsFresh(s)
  }

  lemma InitialIsGood(s: State, selected: seq<AgentConfig>)
    requires Initial(s)
    ensures Inv(s, selected)
  {}

  lemma PersistKeepsInv(s: State, selected: seq<AgentConfig>, fails: bool)
    requires Inv(s, selected) && PersistEnabled(s)
    ensures Inv(PersistStep(s, selected, fails), selected)
  {
    hide Merged;
  }

  lemma UseKeepsInv(s: State, selected: seq<AgentConfig>, a: Action)
    requires Inv(s, selected) && a.Step? && Enabled(s, a)
    ensures Inv(Apply(s, selected, a), selected)
  {
    hide Merged, DistinctIds;
    if s.others[a.i].use.MapsOnly? {
      MapsUseKeepsLocks(s, selected, a);
    } else {
      BarrierUseKeepsLocks(s, selected, a);
    }
    hide UseStep;
    UseLeavesPersister(s, selected, a);
  }

  lemma MapsUseKeepsLocks(s: State, selected: seq<AgentConfig>, a: Action)
    requires LocksMatch(s) && a.Step? && Enabled(s, a) && s.others[a.i].use.MapsOnly?
    ensures LocksMatch(Apply(s, selected, a))
  {}

  lemma BarrierUseKeepsLocks(s: State, selected: seq<AgentConfig>, a: Action)
    requires LocksMatch(s) && a.Step? && Enabled(s, a) && !s.others[a.i].use.MapsOnly?
    ensures LocksMatch(Apply(s, selected, a))
  {}

  /** While the persister holds everything, no other step touches the rosters. */
  lemma UseLeavesPersister(s: State, selected: seq<AgentConfig>, a: Action)
    requires Inv(s, selected) && a.Step? && Enabled(s, a)
    ensures SnapshotIsCurrent(Apply(s, selected, a), selected) && BlameIsFresh(Apply(s, selected, a))
  {
    hide Merged, DistinctIds;
    assert Held(s.agentsLock, User(a.i)) <==> OtherHoldsAgents(s.others[a.i]);
    assert Held(s.barrier, User(a.i)) <==> OtherHoldsBarrier(s.others[a.i]);
  }

  lemma {:induction false} RunKeepsInv(s: State, selected: seq<AgentConfig>, actions: seq<Action>, t: State)
    requires Inv(s, selected) && Runs(s, selected, actions, t)
    ensures Inv(t, selected)
    decreases |actions|
  {
    hide Inv, PersistStep, UseStep;
    if actions != [] {
      if actions[0].Step? {
        UseKeepsInv(s, selected, actions[0]);
      } else {
        PersistKeepsInv(s, selected, actions[0].fails);
      }
      RunKeepsInv(Apply(s, selected, actions[0]), selected, actions[1..], t);
    }
  }

  // ----- the promises -----

  ghost predicate Complete(s: State) {
    s.persister.Done? && forall i :: 0 <= i < |s.others| ==> s.others[i].pc.Finished?
  }

  /** No reachable unfinished state is stuck, whatever the others do: the
      persister never waits for the barrier while it holds a map. */
  lemma NoDeadlock(start: State, selected: seq<AgentConfig>, actions: seq<Action>, s: State) returns (a: Action)
    requires Initial(start) && Runs(start, selected, actions, s)
    requires !Complete(s)
    ensures Enabled(s, a)
  {
    hide Merged, Runs;
    InitialIsGood(start, selected);
    RunKeepsInv(start, selected, actions, s);
    if PersistEnabled(s) {
      a := Persist(false);
    } else {
      var i := SomeOtherCanMove(s);
      a := Step(i, s.runtime, s.durable);
    }
  }

  /** The maps are locked in one order, so the second is never taken alone. */
  lemma OrderHolderHoldsAgents(s: State)
    requires LocksMatch(s) && s.orderLock.Some?
    ensures s.agentsLock == s.orderLock
  {
    var owner := s.orderLock.value;
    assert Held(s.orderLock, owner);
    assert Held(s.agentsLock, owner) by {
      if owner.User? {
        assert OtherHoldsOrder(s.others[owner.i]);
      }
    }
  }

  /** Follow the locks: whoever holds the maps can move; with the maps free, the
      holder of the barrier can; with everything free, anybody can. */
  lemma SomeOtherCanMove(s: State) returns (i: nat)
    requires LocksMatch(s) && !Complete(s) && !PersistEnabled(s)
    ensures UseEnabled(s, i)
  {
    if s.orderLock.Some? {
      OrderHolderHoldsAgents(s);
      assert Held(s.orderLock, s.orderLock.value);
    }
    if s.agentsLock.Some? {
      assert Held(s.agentsLock, s.agentsLock.value);
      assert s.barrier.Some? ==> Held(s.barrier, s.barrier.value);
      i := s.agentsLock.value.i;
    } else if s.barrier.Some? {
      assert Held(s.barrier, s.barrier.value);
      i := s.barrier.value.i;
      assert !Held(s.agentsLock, User(i));
    } else {
      i :| 0 <= i < |s.others| && !s.others[i].pc.Finished?;
      assert !Held(s.agentsLock, User(i)) && !Held(s.barrier, User(i));
    }
  }

  function UseWork(o: Other): nat {
    match o.pc
    case WantBarrier => 32
    case WantAgents => 24
    case WantOrder => 16
    case Changing => 8
    case Finished => 0
  }

  ghost function PersistWork(s: State): nat {
    match s.persister
    case Start => 6
    case HasAgents => 5
    case HasMaps => 4
    case HasAll => 3
    case Computed(_) => 2
    case Blocked(holder) => if holder < |s.others| && s.others[holder].pc.Finished? then 8 else 3
    case HasBarrierOnly => 7
    case Done(_) => 0
  }

  ghost function Work(s: State): nat {
    PersistWork(s) + Total(s.others, UseWork)
  }

  lemma StepUsesWork(s: State, selected: seq<AgentConfig>, a: Action)
    requires Inv(s, selected) && Enabled(s, a)
    ensures Work(Apply(s, selected, a)) < Work(s)
  {
    hide Merged, DistinctIds, Total;
    match a
    case Persist(_) =>
      if s.persister.HasMaps? && s.barrier.Some? {
        assert Held(s.barrier, s.barrier.value);
      }
    case Step(i, _, _) =>
      TotalOfUpdate(s.others, i, Apply(s, selected, a).others[i], UseWork);
  }

  /** The retry loop cannot go on for ever: every failed try uses up one tenure of
      the barrier, so with n other users a run has at most 32 n + 6 steps. */
  lemma {:induction false} RunsAreBounded(s: State, selected: seq<AgentConfig>, actions: seq<Action>, t: State)
    requires Inv(s, selected) && Runs(s, selected, actions, t)
    ensures |actions| + Work(t) <= Work(s)
    decreases |actions|
  {
    hide Inv, PersistStep, UseStep, Work;
    if actions != [] {
      StepUsesWork(s, selected, actions[0]);
      if actions[0].Step? {
        UseKeepsInv(s, selected, actions[0]);
      } else {
        PersistKeepsInv(s, selected, actions[0].fails);
      }
      RunsAreBounded(Apply(s, selected, actions[0]), selected, actions[1..], t);
    }
  }

  lemma PersistTerminates(start: State, selected: seq<AgentConfig>, actions: seq<Action>, t: State)
    requires Initial(start) && Runs(start, selected, actions, t)
    ensures |actions| <= 32 * |start.others| + 6
  {
    hide Runs;
    InitialIsGood(start, selected);
    RunsAreBounded(start, selected, actions, t);
    TotalAtMost(start.others);
  }

  lemma {:induction false} TotalAtMost(others: seq<Other>)
    ensures Total(others, UseWork) <= 32 * |others|
  {
    if others != [] {
      TotalAtMost(others[1..]);
    }
  }

  /** Every snapshot it writes is computed and written in one critical section: a
      step of the persister that changes the durable roster replaces it by the
      merge of the runtime and durable rosters of that very moment, with all
      three locks held, and no step of it changes the runtime roster. */
  lemma WritesAreAtomicMerges(start: State, selected: seq<AgentConfig>, actions: seq<Action>, s: State, fails: bool)
    requires Initial(start) && Runs(start, selected, actions, s)
    requires PersistEnabled(s)
    ensures var t := PersistStep(s, selected, fails);
            && t.runtime == s.runtime
            && (t.persister == Done(true) ==> t.durable == Merged(s.runtime, selected, s.durable))
            && (t.persister != Done(true) ==> t.durable == s.durable)
            && (t.persister == Done(true) ==> s.agentsLock == s.orderLock == s.barrier == Some(Persister))
  {
    hide Merged, Runs;
    InitialIsGood(start, selected);
    RunKeepsInv(start, selected, actions, s);
  }

  // ----- how a persist ends -----

  /** An I/O error met while the barrier is tried, awaited, or held for reading and
      writing. */
  ghost predicate MayFail(pc: PersistPc) {
    pc.HasMaps? || pc.HasAll? || pc.Computed? || pc.Blocked?
  }

  ghost predicate HoldsNothing(s: State) {
    s.agentsLock != Some(Persister) && s.orderLock != Some(Persister) && s.barrier != Some(Persister)
  }

  /** A failure ends the call, writes nothing and leaves no lock behind. */
  lemma FailureEndsCall(start: State, selected: seq<AgentConfig>, actions: seq<Action>, s: State)
    requires Initial(start) && Runs(start, selected, actions, s)
    requires PersistEnabled(s) && MayFail(s.persister)
    ensures var t := PersistStep(s, selected, true);
            t.persister == Done(false) && t.durable == s.durable && HoldsNothing(t)
  {
    hide Runs, Merged;
    InitialIsGood(start, selected);
    RunKeepsInv(start, selected, actions, s);
  }

  ghost predicate MeetsNoFailure(actions: seq<Action>) {
    forall k :: 0 <= k < |actions| ==> actions[k] != Persist(true)
  }

  /** The last step of a run. */
  ghost predicate Wrote(s: State, selected: seq<AgentConfig>, t: State) {
    s.persister.Computed? && t.persister == Done(true) && t.durable == Merged(s.runtime, selected, s.durable)
  }

  /** A persist that meets no failure never gives up, at a held barrier or elsewhere: it
      ends, if it has ended, with the merge of one moment written. */
  lemma {:induction false} NoFailureMeansWritten(s: State, selected: seq<AgentConfig>, actions: seq<Action>, t: State)
    requires Inv(s, selected) && Runs(s, selected, actions, t) && MeetsNoFailure(actions)
    requires !s.persister.Done?
    ensures t.persister.Done? ==>
      exists k :: 0 <= k < |actions| && WritesAt(s, selected, actions, k)
    ensures t.persister.Done? ==> t.persister.ok
    decreases |actions|
  {
    hide PersistStep, UseStep, Inv, Wrote, PersistEnabled, UseEnabled;
    if actions != [] {
      var a, u := actions[0], Apply(s, selected, actions[0]);
      StepKeepsInv(s, selected, a);
      assert actions[0] != Persist(true);
      StepWithoutFailure(s, selected, a);
      if u.persister.Done? {
        assert Runs(s, selected, actions[..0], s);
        assert WritesAt(s, selected, actions, 0);
        DoneStays(u, selected, actions[1..], t);
      } else {
        assert forall k :: 0 <= k < |actions| - 1 ==> actions[1..][k] == actions[k + 1];
        NoFailureMeansWritten(u, selected, actions[1..], t);
        if t.persister.Done? {
          var k :| 0 <= k < |actions[1..]| && WritesAt(u, selected, actions[1..], k);
          WritesLater(s, selected, actions, k);
        }
      }
    }
  }

  lemma StepKeepsInv(s: State, selected: seq<AgentConfig>, a: Action)
    requires Inv(s, selected) && Enabled(s, a)
    ensures Inv(Apply(s, selected, a), selected)
  {
    hide Inv, PersistStep, UseStep;
    if a.Step? {
      UseKeepsInv(s, selected, a);
    } else {
      PersistKeepsInv(s, selected, a.fails);
    }
  }

  /** The k-th step of the run writes the merge of the rosters of that moment. */
  ghost predicate WritesAt(s: State, selected: seq<AgentConfig>, actions: seq<Action>, k: nat)
    requires k < |actions|
  {
    exists m :: Runs(s, selected, actions[..k], m) && Enabled(m, actions[k]) && Wrote(m, selected, Apply(m, selected, actions[k]))
  }

  lemma WritesLater(s: State, selected: seq<AgentConfig>, actions: seq<Action>, k: nat)
    requires actions != [] && Enabled(s, actions[0]) && k < |actions[1..]|
    requires WritesAt(Apply(s, selected, actions[0]), selected, actions[1..], k)
    ensures WritesAt(s, selected, actions, k + 1)
  {
    hide Apply, Enabled, Wrote;
    var u := Apply(s, selected, actions[0]);
    var m :| Runs(u, selected, actions[1..][..k], m) && Enabled(m, actions[1..][k])
             && Wrote(m, selected, Apply(m, selected, actions[1..][k]));
    assert actions[..k + 1][0] == actions[0] && actions[..k + 1][1..] == actions[1..][..k];
    assert Runs(s, selected, actions[..k + 1], m);
  }

  lemma StepWithoutFailure(s: State, selected: seq<AgentConfig>, a: Action)
    requires Inv(s, selected) && Enabled(s, a) && a != Persist(true) && !s.persister.Done?
    ensures var t := Apply(s, selected, a);
            t.persister.Done? ==> t.persister.ok && Wrote(s, selected, t)
  {
    hide Merged, LocksMatch, UseEnabled;
  }

  lemma {:induction false} DoneStays(s: State, selected: seq<AgentConfig>, actions: seq<Action>, t: State)
    requires Runs(s, selected, actions, t) && s.persister.Done?
    ensures t.persister == s.persister
    decreases |actions|
  {
    if actions != [] {
      hide Runs;
      DoneStaysOneStep(s, selected, actions[0]);
      assert Runs(Apply(s, selected, actions[0]), selected, actions[1..], t) by {
        RunsStep(s, selected, actions, t);
      }
      DoneStays(Apply(s, selected, actions[0]), selected, actions[1..], t);
    }
  }

  lemma RunsStep(s: State, selected: seq<AgentConfig>, actions: seq<Action>, t: State)
    requires Runs(s, selected, actions, t) && actions != []
    ensures Enabled(s, actions[0]) && Runs(Apply(s, selected, actions[0]), selected, actions[1..], t)
  {}

  lemma DoneStaysOneStep(s: State, selected: seq<AgentConfig>, a: Action)
    requires Enabled(s, a) && s.persister.Done?
    ensures Apply(s, selected, a).persister == s.persister
  {}

  lemma PersistWrites(start: State, selected: seq<AgentConfig>, actions: seq<Action>, t: State)
    requires Initial(start) && Runs(start, selected, actions, t) && MeetsNoFailure(actions)
    ensures t.persister.Done? ==> t.persister.ok && exists k :: 0 <= k < |actions| && WritesAt(start, selected, actions, k)
  {
    hide Runs, WritesAt;
    InitialIsGood(start, selected);
    NoFailureMeansWritten(start, selected, actions, t);
  }

  /** Whoever changes the runtime roster holds both maps, and whoever changes the durable
      one holds the barrier. */
  lemma RostersChangeUnderLocks(start: State, selected: seq<AgentConfig>, actions: seq<Action>, s: State, a: Action)
    requires Initial(start) && Runs(start, selected, actions, s) && Enabled(s, a)
    ensures var t, owner := Apply(s, selected, a), if a.Persist? then Persister else User(a.i);
            && (t.runtime != s.runtime ==> s.agentsLock == Some(owner) && s.orderLock == Some(owner))
            && (t.durable != s.durable ==> s.barrier == Some(owner))
  {
    hide Runs, Merged;
    InitialIsGood(start, selected);
    RunKeepsInv(start, selected, actions, s);
    if a.Step? {
      assert Held(s.agentsLock, User(a.i)) <==> OtherHoldsAgents(s.others[a.i]);
      assert Held(s.orderLock, User(a.i)) <==> OtherHoldsOrder(s.others[a.i]);
      assert Held(s.barrier, User(a.i)) <==> OtherHoldsBarrier(s.others[a.i]);
    }
  }
}
