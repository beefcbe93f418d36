/** The blocking watch makes progress: it never stands still without a reason, it takes
    few steps, it times out in time, and what it waits for wakes it
    (src-tauri/src/control.rs, wait_for_watch_condition). */
module WatchProgress {
  import opened Common
  import opened AgentWatch
  import opened WatchWait

  /** The steps of the waiter itself. */
  predicate IsWaiterStep(a: Action) {
    a.Arm? || a.Look? || a.CheckClock? || a.Wake? || a.TimerFires?
  }

  /** Parked, with nothing pushed since and time left. */
  ghost predicate RestsInPeace(w: Watch, s: State) {
    s.pc.Parked? && s.notifications == s.pc.ticket && s.elapsed < w.timeout
  }

  /** A waiter that has not ended has a step to take, unless it is parked, nothing was
      pushed since its last look began, and there is time left. */
  lemma WaiterAdvances(w: Watch, start: State, actions: seq<Action>, s: State) returns (a: Action)
    requires Initial(w, start) && Runs(w, start, actions, s)
    requires !s.pc.Done? && !RestsInPeace(w, s)
    ensures IsWaiterStep(a) && Enabled(w, s, a)
  {
    match s.pc
    case Begin => a := Arm;
    case Armed(_) => a := Look;
    case Looked(_, _) => a := CheckClock;
    case Parked(ticket, _) => a := if s.notifications != ticket then Wake else TimerFires;
  }

  function WaiterWeight(a: Action): nat { if IsWaiterStep(a) then 1 else 0 }

  function PushWeight(a: Action): nat { if a.Push? then 1 else 0 }

  function TickWeight(a: Action): nat { if a.Tick? then 1 else 0 }

  /** The steps left if nothing more is pushed. */
  ghost function StepsLeft(s: State): nat {
    match s.pc
    case Begin => 4
    case Armed(ticket) => 3 + 4 * (if s.notifications > ticket then s.notifications - ticket else 0)
    case Looked(ticket, _) => 2 + 4 * (if s.notifications > ticket then s.notifications - ticket else 0)
    case Parked(ticket, _) => 1 + 4 * (if s.notifications > ticket then s.notifications - ticket else 0)
    case Done(_) => 0
  }

  lemma StepUsesStepsLeft(w: Watch, s: State, a: Action)
    requires Inv(w, s) && Enabled(w, s, a)
    ensures StepsLeft(Apply(w, s, a)) + WaiterWeight(a) <= StepsLeft(s) + 4 * PushWeight(a)
  {
    hide ValidLog, EventsOf, AnyMatches, GapAt, TrimOutput, Newest, SnapshotSince;
  }

  lemma {:induction false} StepsAreBounded(w: Watch, s: State, actions: seq<Action>, t: State)
    requires Inv(w, s) && Runs(w, s, actions, t)
    ensures Total(actions, WaiterWeight) + StepsLeft(t) <= StepsLeft(s) + 4 * Total(actions, PushWeight)
    decreases |actions|
  {
    hide Inv, Apply, Enabled, StepsLeft;
    if actions != [] {
      StepUsesStepsLeft(w, s, actions[0]);
      StepKeepsInv(w, s, actions[0]);
      StepsAreBounded(w, Apply(w, s, actions[0]), actions[1..], t);
    }
  }

  /** The waiter takes at most four steps, and four more for every push. */
  lemma WaiterStepsAreBounded(w: Watch, start: State, actions: seq<Action>, t: State)
    requires Initial(w, start) && Runs(w, start, actions, t)
    ensures Total(actions, WaiterWeight) <= 4 + 4 * Total(actions, PushWeight)
  {
    StepsAreBounded(w, start, actions, t);
  }

  // ----- time -----

  ghost predicate InTime(w: Watch, s: State) {
    s.pc.Done? && s.pc.outcome.TimedOut? ==> s.elapsed >= w.timeout
  }

  lemma StepKeepsTime(w: Watch, s: State, a: Action)
    requires InTime(w, s) && Enabled(w, s, a)
    ensures InTime(w, Apply(w, s, a)) && Apply(w, s, a).elapsed == s.elapsed + TickWeight(a)
  {
    hide Pushed, SnapshotSince, AnyMatches;
  }

  lemma {:induction false} RunKeepsTime(w: Watch, s: State, actions: seq<Action>, t: State)
    requires InTime(w, s) && Runs(w, s, actions, t)
    ensures InTime(w, t) && t.elapsed == s.elapsed + Total(actions, TickWeight)
    decreases |actions|
  {
    hide InTime, Apply, Enabled;
    if actions != [] {
      StepKeepsTime(w, s, actions[0]);
      RunKeepsTime(w, Apply(w, s, actions[0]), actions[1..], t);
    }
  }

  /** A watch never times out early. */
  lemma TimeoutIsNotEarly(w: Watch, start: State, actions: seq<Action>, s: State)
    requires Initial(w, start) && Runs(w, start, actions, s)
    requires s.pc.Done? && s.pc.outcome.TimedOut?
    ensures start.elapsed + Total(actions, TickWeight) >= w.timeout
  {
    RunKeepsTime(w, start, actions, s);
  }

  /** After a look without a match the clock alone decides: time left means that the
      waiter parks with what it saw, and no time left ends the wait. */
  lemma ClockDecides(w: Watch, s: State)
    requires s.pc.Looked?
    ensures Enabled(w, s, CheckClock)
    ensures var pc := Apply(w, s, CheckClock).pc;
            if s.elapsed < w.timeout then pc == Parked(s.pc.ticket, s.pc.snapshot)
            else pc == Done(TimedOut(s.pc.snapshot))
  {}

  /** How many of its own steps a waiter still takes when the time is over. */
  ghost function LastSteps(s: State): nat {
    match s.pc
    case Begin => 3
    case Armed(_) => 2
    case Looked(_, _) => 1
    case Parked(_, _) => 4
    case Done(_) => 0
  }

  lemma {:induction false} TimeIsUp(w: Watch, s: State, actions: seq<Action>, t: State)
    requires s.elapsed >= w.timeout && Runs(w, s, actions, t)
    requires forall k :: 0 <= k < |actions| ==> IsWaiterStep(actions[k])
    ensures |actions| + LastSteps(t) <= LastSteps(s)
    decreases |actions|
  {
    if actions != [] {
      LastStep(w, s, actions[0]);
      hide Apply, Enabled, LastSteps;
      assert forall k :: 0 <= k < |actions[1..]| ==> actions[1..][k] == actions[k + 1];
      TimeIsUp(w, Apply(w, s, actions[0]), actions[1..], t);
    }
  }

  /** So a watch ends within four of its own steps once its time is over. */
  lemma TimeoutIsNotLate(w: Watch, s: State, actions: seq<Action>, t: State)
    requires s.elapsed >= w.timeout && Runs(w, s, actions, t)
    requires forall k :: 0 <= k < |actions| ==> IsWaiterStep(actions[k])
    ensures |actions| <= 4
    ensures |actions| == 4 ==> t.pc.Done?
  {
    TimeIsUp(w, s, actions, t);
  }

  lemma LastStep(w: Watch, s: State, a: Action)
    requires s.elapsed >= w.timeout && Enabled(w, s, a) && IsWaiterStep(a)
    ensures var s' := Apply(w, s, a);
            s'.elapsed == s.elapsed && LastSteps(s') + 1 <= LastSteps(s)
  {
    hide SnapshotSince, AnyMatches;
  }

  // ----- being woken -----

  lemma ParkedWakes(w: Watch, s: State)
    requires s.pc.Parked? && s.notifications != s.pc.ticket
    ensures Enabled(w, s, Wake) && Apply(w, s, Wake) == s.(pc := Begin)
    ensures Enabled(w, s.(pc := Begin), Arm)
    ensures Apply(w, s.(pc := Begin), Arm) == s.(pc := Armed(s.notifications))
    ensures Enabled(w, s.(pc := Armed(s.notifications)), Look)
  {}

  lemma PushNotifies(w: Watch, s: State, kind: RecordKind)
    ensures Enabled(w, s, Push(kind))
    ensures var t := Apply(w, s, Push(kind));
            && t.notifications == s.notifications + 1 && t.pc == s.pc && t.elapsed == s.elapsed
            && t.log.history == s.log.history + [kind]
  {
    hide TrimOutput, Newest;
  }

  /** A push that the parked waiter waits for wakes it, and its next look ends the wait:
      with success, or with a gap if the log could not hold everything since. */
  lemma WantedPushEndsWait(w: Watch, start: State, actions: seq<Action>, s: State, kind: RecordKind)
    returns (more: seq<Action>, t: State)
    requires Initial(w, start) && Runs(w, start, actions, s)
    requires s.pc.Parked? && IsWanted(w, kind) && w.since.Cursor? && w.since.sequence <= |s.log.history|
    ensures more == [Push(kind), Wake, Arm, Look] && Runs(w, s, more, t)
    ensures t.pc.Done? && (t.pc.outcome.Success? || t.pc.outcome.GapDetected?)
    ensures t.pc.outcome.Success? <==> Oldest(t.log) <= w.since.sequence + 1
  {
    hide Inv, Apply, Enabled, Runs, IsWanted, Witness;
    Reachable(w, start, actions, s);
    ParkedIsAnchored(w, s);
    PushNotifies(w, s, kind);
    var pushed := Apply(w, s, Push(kind));
    ParkedWakes(w, pushed);
    var armed := pushed.(pc := Armed(pushed.notifications));
    t := Apply(w, armed, Look);
    more := [Push(kind), Wake, Arm, Look];
    RunsOfFour(w, s, more);
    ArmedRuns(w, start, actions, s, kind, armed);
    LookMissesNothing(w, start, actions + [Push(kind), Wake, Arm], armed);
    WantedIsWitness(w, armed, |armed.log.history|);
    LookKeepsLog(w, armed);
  }

  lemma ParkedIsAnchored(w: Watch, s: State)
    requires Inv(w, s) && s.pc.Parked?
    ensures Baseline(w) && s.pc.ticket <= s.notifications && s.notifications == |s.log.history|
  {
    hide ValidLog;
  }

  lemma WantedIsWitness(w: Watch, s: State, q: nat)
    requires Baseline(w) && w.since.sequence < q <= |s.log.history| && IsWanted(w, s.log.history[q - 1])
    ensures exists p: nat :: Witness(w, s.log, p)
  {
    hide IsWanted;
    assert Witness(w, s.log, q);
  }

  lemma LookKeepsLog(w: Watch, s: State)
    requires s.pc.Armed?
    ensures Apply(w, s, Look).log == s.log
  {
    hide SnapshotSince, AnyMatches;
  }

  lemma RunsOfFour(w: Watch, s: State, actions: seq<Action>)
    requires |actions| == 4
    requires Enabled(w, s, actions[0])
    requires Enabled(w, Apply(w, s, actions[0]), actions[1])
    requires Enabled(w, Apply(w, Apply(w, s, actions[0]), actions[1]), actions[2])
    requires Enabled(w, Apply(w, Apply(w, Apply(w, s, actions[0]), actions[1]), actions[2]), actions[3])
    ensures Runs(w, s, actions, Apply(w, Apply(w, Apply(w, Apply(w, s, actions[0]), actions[1]), actions[2]), actions[3]))
  {
    hide Enabled, Apply;
    var s1 := Apply(w, s, actions[0]);
    var s2 := Apply(w, s1, actions[1]);
    var s3 := Apply(w, s2, actions[2]);
    var s4 := Apply(w, s3, actions[3]);
    var r1, r2, r3 := actions[1..], actions[2..], actions[3..];
    assert r1[1..] == r2 && r2[1..] == r3 && r3[1..] == [] && r3[0] == actions[3] && r2[0] == actions[2] && r1[0] == actions[1];
    assert Runs(w, s4, [], s4);
    assert Runs(w, s3, r3, s4);
    assert Runs(w, s2, r2, s4);
    assert Runs(w, s1, r1, s4);
  }

  lemma {:induction false} RunsConcat(w: Watch, s: State, xs: seq<Action>, t: State, ys: seq<Action>, u: State)
    requires Runs(w, s, xs, t) && Runs(w, t, ys, u)
    ensures Runs(w, s, xs + ys, u)
    decreases |xs|
  {
    hide Apply, Enabled;
    if xs == [] {
      assert xs + ys == ys;
    } else {
      assert (xs + ys)[0] == xs[0] && (xs + ys)[1..] == xs[1..] + ys;
      RunsConcat(w, Apply(w, s, xs[0]), xs[1..], t, ys, u);
    }
  }

  lemma ArmedRuns(w: Watch, start: State, actions: seq<Action>, s: State, kind: RecordKind, armed: State)
    requires Runs(w, start, actions, s)
    requires s.pc.Parked? && s.pc.ticket <= s.notifications
    requires armed == Apply(w, s, Push(kind)).(pc := Armed(Apply(w, s, Push(kind)).notifications))
    ensures Runs(w, start, actions + [Push(kind), Wake, Arm], armed)
  {
    hide Apply, Enabled, Runs;
    PushNotifies(w, s, kind);
    var pushed := Apply(w, s, Push(kind));
    ParkedWakes(w, pushed);
    ThreeRun(w, s, Push(kind), Wake, Arm);
    RunsConcat(w, start, actions, s, [Push(kind), Wake, Arm], armed);
  }

  lemma ThreeRun(w: Watch, s: State, a: Action, b: Action, c: Action)
    requires Enabled(w, s, a) && Enabled(w, Apply(w, s, a), b) && Enabled(w, Apply(w, Apply(w, s, a), b), c)
    ensures Runs(w, s, [a, b, c], Apply(w, Apply(w, Apply(w, s, a), b), c))
  {
    hide Enabled, Apply;
    var u := Apply(w, Apply(w, Apply(w, s, a), b), c);
    assert [a, b, c][1..] == [b, c] && [b, c][1..] == [c] && [c][1..] == [];
    assert Runs(w, u, [], u);
    assert Runs(w, Apply(w, Apply(w, s, a), b), [c], u);
    assert Runs(w, Apply(w, s, a), [b, c], u);
  }

  // ----- where a watch begins -----

  /** A watch asked to start at a cursor finds what was pushed after it before the watch
      began, as long as the log goes back that far. */
  lemma AnchoredWatchSeesOldEvents(w: Watch, start: State, requested: Cursor, q: nat)
    requires Initial(w, start) && w.since == StartCursor(start.log, w.agentId, Some(requested))
    requires requested.Cursor? && requested.agentId == w.agentId && Oldest(start.log) <= requested.sequence + 1
    requires requested.sequence < q <= |start.log.history| && IsWanted(w, start.log.history[q - 1])
    ensures Enabled(w, start, Arm) && Enabled(w, Apply(w, start, Arm), Look)
    ensures var pc := Apply(w, Apply(w, start, Arm), Look).pc; pc.Done? && pc.outcome.Success?
  {
    hide IsWanted, SnapshotSince, AnyMatches, ValidLog;
    var armed := Apply(w, start, Arm);
    assert Runs(w, start, [Arm], armed) by {
      assert [Arm][1..] == [];
      assert Runs(w, armed, [], armed);
    }
    assert armed == start.(pc := Armed(start.notifications));
    hide Runs, Apply;
    WantedIsWitness(w, armed, q);
    LookMissesNothing(w, start, [Arm], armed);
  }

  /** A cursor of another agent, or none at all, is refused by the first look. */
  lemma ForeignCursorIsInvalid(w: Watch, s: State)
    requires s.pc.Armed? && !(w.since.Cursor? && w.since.agentId == w.agentId)
    ensures Apply(w, s, Look).pc == Done(Invalid)
  {}
}
