/** How interleaved `present` calls move and end, and what they do to the store, step by
    step and over whole runs (src-tauri/src/artifact_service.rs). */
module ArtifactCalls {
  import opened Common
  import opened ArtifactService

  // ----- where a call goes -----

  ghost predicate HasActive(threads: Threads, session: string, path: string) {
    exists a :: 0 <= a < |threads| && threads[a].active && MayTarget(threads, session, path, a)
  }

  /** The call, once its file is captured, may go to this thread; the place after the
      last one stands for a new thread. */
  ghost predicate MayGoTo(threads: Threads, call: Call, target: nat) {
    match call.request.artifact
    case Some(named) => target == named && MayTarget(threads, call.session, call.path, named)
    case None =>
      if !call.request.forceNew && HasActive(threads, call.session, call.path) then
        MayTarget(threads, call.session, call.path, target) && threads[target].active
      else
        target == |threads|
  }

  /** The phase after a look-up. */
  ghost predicate IsPhaseFor(threads: Threads, call: Call, phase: Phase) {
    match call.request.artifact
    case Some(named) =>
      if named >= |threads| then phase == Finished(NotStored("artifact_not_found"))
      else if !MayTarget(threads, call.session, call.path, named) then phase == Finished(NotStored("invalid_request"))
      else phase == ToAppend(named)
    case None =>
      if !call.request.forceNew && HasActive(threads, call.session, call.path) then
        phase.ToAppend? && MayGoTo(threads, call, phase.target)
      else
        phase == ToCreate
  }

  lemma ActiveIff(threads: Threads, session: string, path: string, found: Option<nat>)
    requires IsActiveThread(threads, session, path, found)
    ensures found.Some? <==> HasActive(threads, session, path)
    ensures found.Some? ==> MayTarget(threads, session, path, found.value) && threads[found.value].active
  {
    if found.None? {
      forall a | 0 <= a < |threads| && threads[a].active
        ensures !MayTarget(threads, session, path, a)
      {
        assert !(threads[a].active && Matches(threads[a], session, path));
      }
    }
  }

  lemma LookUpLeadsTo(s: State, c: nat, found: Option<nat>)
    requires Enabled(s, LookUp(c, found))
    ensures IsPhaseFor(s.threads, s.calls[c], Next(s, LookUp(c, found)).calls[c].phase)
  {
    var call := s.calls[c];
    if call.request.artifact.None? && !call.request.forceNew {
      ActiveIff(s.threads, call.session, call.path, found);
    }
    hide HasActive, IsActiveThread;
  }

  // ----- every step of a call -----

  /** The thread that storing goes to. */
  function Destination(s: State, c: nat): nat
    requires c < |s.calls|
  {
    if s.calls[c].phase.ToAppend? then s.calls[c].phase.target else |s.threads|
  }

  /** What a step does to its call: the table of phases. */
  ghost predicate MovesCall(s: State, a: Action, phase: Phase)
    requires !a.Begin? && !a.CloseThread? && a.call < |s.calls|
  {
    var call := s.calls[a.call];
    match a
    case CaptureFile(_, path) =>
      call.phase == Requested
      && phase == (match path case Ok(_) => Captured case Err(code) => Finished(NotStored(code)))
    case LookUp(_, _) => call.phase == Captured && IsPhaseFor(s.threads, call, phase)
    case LookUpFails(_) => call.phase == Captured && phase == Finished(NotStored("persistence_failed"))
    case Persist(_, fault) =>
      && (call.phase.ToAppend? || call.phase == ToCreate)
      && (fault == BeforeManifest ==> phase == Finished(NotStored("persistence_failed")))
      && (fault == InIndex ==> phase == Finished(IndexWriteFailed(Destination(s, a.call))))
      && (fault == NoFault ==> phase == Stored(Destination(s, a.call)))
    case Register(_, ok) =>
      call.phase.Stored?
      && phase == if ok then Registered(call.phase.stored) else Finished(DeliveryFailed(call.phase.stored))
    case Emit(_, ok) =>
      call.phase.Registered?
      && phase == if ok then Emitted(call.phase.stored) else Finished(DeliveryFailed(call.phase.stored))
    case Acknowledge(_, routed) =>
      call.phase.Emitted?
      && phase == if routed then Finished(Presented(call.phase.stored)) else Finished(DeliveryFailed(call.phase.stored))
  }

  /** A call begins as its request deserves. */
  ghost predicate BeginsAs(session: string, request: Request, phase: Phase) {
    if !IsOwnRequest(session, request) then phase == Finished(NotStored("invalid_origin"))
    else if !NamesPath(request) then phase == Finished(NotStored("unreadable_file"))
    else if !IsConsistent(request) then phase == Finished(NotStored("invalid_request"))
    else phase == Requested
  }

  /** Only storing adds a version, and only closing makes a thread inactive. */
  ghost predicate TouchesThreads(s: State, a: Action, s': State) {
    if a.Persist? && a.fault != BeforeManifest then
      && a.call < |s.calls|
      && HasStored(s.threads, s'.threads, Destination(s, a.call), s.calls[a.call].session, s.calls[a.call].path, a.call)
    else if a.CloseThread? then
      && a.artifact < |s.threads|
      && s'.threads == s.threads[a.artifact := s.threads[a.artifact].(active := false)]
      && s'.threads[a.artifact].versions == s.threads[a.artifact].versions
    else
      s'.threads == s.threads
  }

  ghost predicate TouchesEvents(s: State, a: Action, s': State) {
    if a.Emit? && a.ok then
      && a.call < |s.calls| && s.calls[a.call].phase.Registered?
      && s'.events == s.events + [Event(s.calls[a.call].phase.stored, a.call)]
    else
      s'.events == s.events
  }

  /** Capturing the file finds out its canonical path. */
  ghost function PathAfter(a: Action, path: string): string {
    match a
    case CaptureFile(_, Ok(canonical)) => canonical
    case _ => path
  }

  ghost predicate TouchesCalls(s: State, a: Action, s': State) {
    match a
    case Begin(session, request) =>
      && |s'.calls| == |s.calls| + 1 && s'.calls[..|s.calls|] == s.calls
      && s'.calls[|s.calls|].session == session && s'.calls[|s.calls|].request == request
      && BeginsAs(session, request, s'.calls[|s.calls|].phase)
    case CloseThread(_) => s'.calls == s.calls
    case _ =>
      && a.call < |s.calls| == |s'.calls|
      && (forall c :: 0 <= c < |s.calls| && c != a.call ==> s'.calls[c] == s.calls[c])
      && s'.calls[a.call].session == s.calls[a.call].session && s'.calls[a.call].request == s.calls[a.call].request
      && s'.calls[a.call].path == PathAfter(a, s.calls[a.call].path)
      && MovesCall(s, a, s'.calls[a.call].phase)
  }

  lemma StepTouchesThreads(s: State, a: Action)
    requires Inv(s) && Enabled(s, a)
    ensures TouchesThreads(s, a, Next(s, a)) && TouchesEvents(s, a, Next(s, a))
  {
    if a.Persist? {
      assert CallSound(s, a.call);
    }
    hide Inv;
  }

  lemma StepTouchesCalls(s: State, a: Action)
    requires Inv(s) && Enabled(s, a)
    ensures TouchesCalls(s, a, Next(s, a))
  {
    match a
    case LookUp(c, found) =>
      LookUpLeadsTo(s, c, found);
      hide Inv, IsPhaseFor, Selected, IsActiveThread;
    case Persist(c, _) =>
      assert CallSound(s, c);
      hide Inv;
    case Begin(_, _) => hide Inv;
    case _ => OtherStepTouchesCalls(s, a);
  }

  lemma OtherStepTouchesCalls(s: State, a: Action)
    requires Enabled(s, a) && !a.LookUp? && !a.Persist? && !a.Begin?
    ensures TouchesCalls(s, a, Next(s, a))
  {
    hide IsPhaseFor, IsActiveThread, Selected;
  }

  /** In every run each step does to calls, threads and events what the tables say. */
  lemma StepsFollowTables(run: Run, k: nat)
    requires IsRun(run) && k < |run.actions|
    ensures var s, a, s' := run.states[k], run.actions[k], run.states[k + 1];
            TouchesCalls(s, a, s') && TouchesThreads(s, a, s') && TouchesEvents(s, a, s')
  {
    hide Inv, Next, Enabled, TouchesCalls, TouchesThreads, TouchesEvents;
    assert StepsTo(run.states[k], run.actions[k], run.states[k + 1]);
    RunKeepsInv(run, k);
    StepTouchesCalls(run.states[k], run.actions[k]);
    StepTouchesThreads(run.states[k], run.actions[k]);
  }

  // ----- calls that meet no failure -----

  /** Nothing fails for the call: its file is captured, its thread is found, its version
      is written and its event is delivered. */
  ghost predicate Succeeds(s: State, a: Action, c: nat) {
    match a
    case CaptureFile(d, path) => d == c ==> path.Ok?
    case LookUp(d, _) =>
      d == c && c < |s.calls| && s.calls[c].request.artifact.Some? ==>
        MayTarget(s.threads, s.calls[c].session, s.calls[c].path, s.calls[c].request.artifact.value)
    case LookUpFails(d) => d != c
    case Persist(d, fault) => d == c ==> fault == NoFault
    case Register(d, ok) => d == c ==> ok
    case Emit(d, ok) => d == c ==> ok
    case Acknowledge(d, routed) => d == c ==> routed
    case _ => true
  }

  ghost predicate IsProper(session: string, request: Request) {
    IsOwnRequest(session, request) && NamesPath(request) && IsConsistent(request)
  }

  /** The call is underway or has reported success. */
  ghost predicate IsGoingWell(s: State, c: nat) {
    c < |s.calls| && (s.calls[c].phase.Finished? ==> s.calls[c].phase.outcome.Presented?)
  }

  lemma StepGoesWell(s: State, a: Action, s': State, c: nat)
    requires IsGoingWell(s, c) && TouchesCalls(s, a, s') && Succeeds(s, a, c)
    ensures IsGoingWell(s', c)
  {
    hide HasActive, BeginsAs;
    if a.Begin? {
      assert s'.calls[c] == s'.calls[..|s.calls|][c];
    }
  }

  /** So a proper call for which nothing fails can only end by reporting success. */
  lemma {:induction false} NoFailureMeansPresented(run: Run, i: nat, k: nat)
    requires IsRun(run) && i < k < |run.states| && run.actions[i].Begin?
    requires IsProper(run.actions[i].session, run.actions[i].request)
    requires forall j :: i < j < k ==> Succeeds(run.states[j], run.actions[j], |run.states[i].calls|)
    ensures IsGoingWell(run.states[k], |run.states[i].calls|)
  {
    hide TouchesThreads, TouchesEvents, TouchesCalls, IsGoingWell, Succeeds, IsProper, Inv, Next, Enabled;
    StepsFollowTables(run, k - 1);
    if i + 1 < k {
      NoFailureMeansPresented(run, i, k - 1);
      hide IsRun;
      StepGoesWell(run.states[k - 1], run.actions[k - 1], run.states[k], |run.states[i].calls|);
    } else {
      hide IsRun;
      ProperCallBegins(run.states[i], run.actions[i], run.states[k]);
    }
  }

  lemma ProperCallBegins(s: State, a: Action, s': State)
    requires a.Begin? && IsProper(a.session, a.request) && TouchesCalls(s, a, s')
    ensures IsGoingWell(s', |s.calls|)
  {
    hide IsOwnRequest, NamesPath, IsConsistent;
  }

  /** A call that ends without storing leaves nothing of itself in the store. */
  lemma NotStoredLeavesNothing(run: Run, k: nat, c: nat, artifact: nat)
    requires IsRun(run) && k < |run.states| && c < |run.states[k].calls| && artifact < |run.states[k].threads|
    requires run.states[k].calls[c].phase.Finished? && run.states[k].calls[c].phase.outcome.NotStored?
    ensures c !in run.states[k].threads[artifact].versions
  {
    RunKeepsInv(run, k);
    var s := run.states[k];
    hide IsRun;
    assert ThreadSound(s, artifact);
    assert c in s.threads[artifact].versions ==> VersionSound(s, artifact, c);
  }
}
