/** Artifact presentation (src-tauri/src/artifact_service.rs over
    crates/wardian-core/src/artifacts/store.rs): the store's threads, the capture
    retry loop, and any number of `present` calls that interleave between their
    locked store operations and awaits. */
module ArtifactService {
  import opened Common

  // ----- the request -----

  /** Threads stand for artifact ids by their place in the store. */
  datatype Request = Request(
    originSession: string,
    path: string,
    artifact: Option<nat>,
    forceNew: bool,
    comments: seq<string>)

  predicate IsBadComment(comment: string) {
    IsBlank(comment) || '/' in comment || '\\' in comment || comment == ".."
  }

  /** The request comes from the live session it names. */
  ghost predicate IsOwnRequest(session: string, request: Request) {
    HasInk(Some(session)) && request.originSession == session
  }

  ghost predicate NamesPath(request: Request) {
    HasInk(Some(request.path))
  }

  /** A comment id that can stand as the name of one entry of a directory. */
  ghost predicate IsProperComment(comment: string) {
    && HasInk(Some(comment)) && comment != ".."
    && forall i :: 0 <= i < |comment| ==> comment[i] != '/' && comment[i] != '\\'
  }

  /** Not both a target and a new thread, and proper comments only. */
  ghost predicate IsConsistent(request: Request) {
    && !(request.artifact != None && request.forceNew)
    && forall i :: 0 <= i < |request.comments| ==> IsProperComment(request.comments[i])
  }

  lemma CommentsAre(comments: seq<string>)
    ensures (exists k :: 0 <= k < |comments| && IsBadComment(comments[k]))
       <==> (exists k :: 0 <= k < |comments| && !IsProperComment(comments[k]))
  {
    forall k | 0 <= k < |comments|
      ensures IsBadComment(comments[k]) <==> !IsProperComment(comments[k])
    {
      BlankHasNoInk(comments[k]);
    }
  }

  /** A request is valid iff it comes from its own live session, names a path, does
      not ask for both a target and a new thread, and addresses proper comments. */
  function ValidateRequest(session: string, request: Request): (r: Option<string>)
    ensures r.None? <==> IsOwnRequest(session, request) && NamesPath(request) && IsConsistent(request)
    ensures r == Some("invalid_origin") <==> !IsOwnRequest(session, request)
    ensures r == Some("unreadable_file") <==> IsOwnRequest(session, request) && !NamesPath(request)
    ensures r == Some("invalid_request") <==>
      IsOwnRequest(session, request) && NamesPath(request) && !IsConsistent(request)
  {
    BlankHasNoInk(session);
    BlankHasNoInk(request.path);
    CommentsAre(request.comments);
    if IsBlank(session) || IsBlank(request.originSession) || session != request.originSession then Some("invalid_origin")
    else if IsBlank(request.path) then Some("unreadable_file")
    else if request.artifact.Some? && request.forceNew then Some("invalid_request")
    else if exists k :: 0 <= k < |request.comments| && IsBadComment(request.comments[k]) then Some("invalid_request")
    else None
  }

  // ----- capturing the file -----

  type Byte = x: int | 0 <= x < 256

  /** One try at a verified snapshot: an unstable file may have been copied in part. */
  datatype Try =
    | Stable(bytes: seq<Byte>)
    | Unstable(partial: seq<Byte>)
    | Broken(code: string)

  /** The time after try `k`, in milliseconds: each try takes its time, each retry
      another 40. */
  function Elapsed(took: nat -> nat, k: nat): nat {
    if k == 0 then took(0) else Elapsed(took, k - 1) + 40 + took(k)
  }

  /** The time spent in the first tries. */
  function TimeInTries(took: nat -> nat, tries: nat): nat {
    if tries == 0 then 0 else TimeInTries(took, tries - 1) + took(tries - 1)
  }

  lemma {:induction false} ElapsedIs(took: nat -> nat, k: nat)
    ensures Elapsed(took, k) == TimeInTries(took, k + 1) + 40 * k
  {
    if k > 0 {
      ElapsedIs(took, k - 1);
    } else {
      assert TimeInTries(took, 0) == 0;
    }
  }

  /** The retry loop. It returns the bytes of the one stable try, never of several;
      it gives up at the first unstable try that ends after the timeout, so within
      one try more than the timeout holds delays. */
  method Capture(attempt: nat -> Try, took: nat -> nat, timeout: nat) returns (r: Result<seq<Byte>, string>, tries: nat)
    ensures 0 < tries && 40 * tries < timeout + 80
    ensures forall k :: 0 <= k < tries - 1 ==>
      attempt(k).Unstable? && TimeInTries(took, k + 1) + 40 * k < timeout
    ensures attempt(tries - 1).Unstable? ==> TimeInTries(took, tries) + 40 * (tries - 1) >= timeout
    ensures match attempt(tries - 1)
            case Stable(bytes) => r == Ok(bytes)
            case Broken(code) => r == Err(code)
            case Unstable(_) => r == Err("unstable_file_timeout")
  {
    tries := 0;
    var elapsed := 0;
    while true
      invariant elapsed == if tries == 0 then 0 else Elapsed(took, tries - 1) + 40
      invariant 40 * tries <= elapsed < timeout + 40 || tries == 0
      invariant forall k :: 0 <= k < tries ==>
        attempt(k).Unstable? && TimeInTries(took, k + 1) + 40 * k < timeout
      decreases timeout + 40 - elapsed
    {
      var bytes: seq<Byte> := [];
      elapsed := elapsed + took(tries);
      ElapsedIs(took, tries);
      tries := tries + 1;
      match attempt(tries - 1) {
        case Stable(copied) =>
          bytes := bytes + copied;
          assert bytes == copied;
          return Ok(bytes), tries;
        case Broken(code) =>
          return Err(code), tries;
        case Unstable(partial) =>
          bytes := bytes + partial;
          if elapsed >= timeout {
            return Err("unstable_file_timeout"), tries;
          }
      }
      elapsed := elapsed + 40;
    }
  }

  // ----- the store -----

  /** A version is named after the call that presented it. */
  datatype Thread = Thread(session: string, path: string, active: bool, versions: seq<nat>)

  type Threads = seq<Thread>

  predicate Matches(thread: Thread, session: string, path: string) {
    thread.session == session && thread.path == path
  }

  /** find_active_thread: some active thread of the session and path, if any. The
      index is rebuilt whenever it differs from the manifests. */
  predicate IsActiveThread(threads: Threads, session: string, path: string, found: Option<nat>) {
    match found
    case Some(artifact) =>
      artifact < |threads| && threads[artifact].active && Matches(threads[artifact], session, path)
    case None => forall a :: 0 <= a < |threads| ==> !(threads[a].active && Matches(threads[a], session, path))
  }

  function Created(threads: Threads, session: string, path: string, version: nat): Threads {
    threads + [Thread(session, path, true, [version])]
  }

  function Appended(threads: Threads, artifact: nat, version: nat): Threads
    requires artifact < |threads|
  {
    var thread := threads[artifact];
    threads[artifact := thread.(active := true, versions := thread.versions + [version])]
  }

  /** How a call ends. Of the errors, only a failed index write leaves a version in
      the store without saying so: the manifest is written before the index. */
  datatype Outcome =
    | Presented(artifact: nat)
    | DeliveryFailed(artifact: nat)
    | IndexWriteFailed(artifact: nat)
    | NotStored(code: string)

  datatype Event = Event(artifact: nat, version: nat)

  /** Where a store operation fails. */
  datatype Fault = NoFault | BeforeManifest | InIndex

  /** What the surroundings answer during one call. */
  datatype World = World(
    captured: Result<string, string>,
    lookupFails: bool,
    fault: Fault,
    registers: bool,
    emits: bool,
    routed: bool)

  /** The request names an existing thread of the session and path. */
  ghost predicate MayTarget(threads: Threads, session: string, path: string, artifact: nat) {
    artifact < |threads| && threads[artifact].session == session && threads[artifact].path == path
  }

  /** Why a call stores nothing. */
  ghost predicate IsRefusedWith(threads: Threads, session: string, request: Request, w: World, code: string) {
    if !IsOwnRequest(session, request) then code == "invalid_origin"
    else if !NamesPath(request) then code == "unreadable_file"
    else if !IsConsistent(request) then code == "invalid_request"
    else
      match w.captured
      case Err(error) => code == error
      case Ok(path) =>
        if w.lookupFails && !request.forceNew then code == "persistence_failed"
        else if request.artifact.Some? && !MayTarget(threads, session, path, request.artifact.value) then
          code == if request.artifact.value < |threads| then "invalid_request" else "artifact_not_found"
        else
          w.fault == BeforeManifest && code == "persistence_failed"
  }

  /** The version is the newest of its thread, which is active and of this session and
      path; an existing thread only gains it, and every other thread stays. */
  ghost predicate HasStored(before: Threads, after: Threads, artifact: nat, session: string, path: string, version: nat) {
    && artifact <= |before| && |after| == (if artifact < |before| then |before| else |before| + 1)
    && (forall a :: 0 <= a < |before| && a != artifact ==> after[a] == before[a])
    && (artifact < |before| ==> MayTarget(before, session, path, artifact))
    && after[artifact] == Thread(session, path, true, (if artifact < |before| then before[artifact].versions else []) + [version])
  }

  /** The named thread, a new one, or an active one of the session and path if there is
      any. */
  ghost predicate IsTarget(before: Threads, request: Request, session: string, path: string, artifact: nat) {
    match request.artifact
    case Some(named) => artifact == named
    case None =>
      if request.forceNew then artifact == |before|
      else if exists a :: 0 <= a < |before| && before[a].active && MayTarget(before, session, path, a) then
        artifact < |before| && before[artifact].active && MayTarget(before, session, path, artifact)
      else
        artifact == |before|
  }

  class Service {
    var threads: Threads
    var events: seq<Event>

    constructor ()
      ensures threads == [] && events == []
    {
      threads, events := [], [];
    }

    method FindActiveThread(session: string, path: string) returns (found: Option<nat>)
      ensures IsActiveThread(threads, session, path, found)
    {
      for a := 0 to |threads|
        invariant forall i :: 0 <= i < a ==> !(threads[i].active && Matches(threads[i], session, path))
      {
        if threads[a].active && Matches(threads[a], session, path) {
          return Some(a);
        }
      }
      found := None;
    }

    /** One call with nothing in between; `version` is its new version id. */
    method Present(session: string, request: Request, version: nat, w: World) returns (outcome: Outcome)
      modifies this
      ensures forall code :: IsRefusedWith(old(threads), session, request, w, code) <==> outcome == NotStored(code)
      ensures outcome.NotStored? ==> threads == old(threads)
      ensures !outcome.NotStored? ==>
        && w.captured.Ok?
        && HasStored(old(threads), threads, outcome.artifact, session, w.captured.value, version)
        && IsTarget(old(threads), request, session, w.captured.value, outcome.artifact)
      ensures outcome.IndexWriteFailed? <==> !outcome.NotStored? && w.fault.InIndex?
      ensures outcome.Presented? <==>
        !outcome.NotStored? && w.fault.NoFault? && w.registers && w.emits && w.routed
      ensures events == old(events)
                        + if (outcome.Presented? || outcome.DeliveryFailed?) && w.registers && w.emits
                          then [Event(outcome.artifact, version)] else []
    {
      var failure := ValidateRequest(session, request);
      if failure.Some? {
        return NotStored(failure.value);
      }
      if w.captured.Err? {
        return NotStored(w.captured.error);
      }
      var path := w.captured.value;
      var target: Option<nat> := None;
      if request.artifact.Some? {
        if w.lookupFails {
          return NotStored("persistence_failed");
        }
        if request.artifact.value >= |threads| {
          return NotStored("artifact_not_found");
        }
        if !Matches(threads[request.artifact.value], session, path) {
          return NotStored("invalid_request");
        }
        target := request.artifact;
      } else if !request.forceNew {
        if w.lookupFails {
          return NotStored("persistence_failed");
        }
        target := FindActiveThread(session, path);
      }
      if w.fault.BeforeManifest? {
        return NotStored("persistence_failed");
      }
      var artifact := if target.Some? then target.value else |threads|;
      if target.Some? {
        threads := Appended(threads, artifact, version);
      } else {
        threads := Created(threads, session, path, version);
      }
      if w.fault.InIndex? {
        return IndexWriteFailed(artifact);
      }
      if !w.registers || !w.emits {
        return DeliveryFailed(artifact);
      }
      events := events + [Event(artifact, version)];
      outcome := if w.routed then Presented(artifact) else DeliveryFailed(artifact);
    }
  }

  // ----- calls -----

  datatype Phase =
    | Requested
    | Captured
    | ToAppend(target: nat)
    | ToCreate
    | Stored(stored: nat)
    | Registered(stored: nat)
    | Emitted(stored: nat)
    | Finished(outcome: Outcome)

  datatype Call = Call(session: string, request: Request, path: string, phase: Phase)

  datatype State = State(threads: Threads, calls: seq<Call>, events: seq<Event>)

  datatype Action =
    | Begin(session: string, request: Request)
    | CaptureFile(call: nat, path: Result<string, string>)
    | LookUp(call: nat, found: Option<nat>)
    | LookUpFails(call: nat)
    | Persist(call: nat, fault: Fault)
    | Register(call: nat, ok: bool)
    | Emit(call: nat, ok: bool)
    | Acknowledge(call: nat, routed: bool)
    | CloseThread(artifact: nat)

  predicate Enabled(s: State, a: Action) {
    match a
    case Begin(_, _) => true
    case CaptureFile(c, _) => c < |s.calls| && s.calls[c].phase.Requested?
    case LookUp(c, found) =>
      && c < |s.calls| && s.calls[c].phase.Captured?
      && var call := s.calls[c];
         (call.request.artifact.None? && !call.request.forceNew ==>
            IsActiveThread(s.threads, call.session, call.path, found))
    case LookUpFails(c) => c < |s.calls| && s.calls[c].phase.Captured? && !s.calls[c].request.forceNew
    case Persist(c, _) => c < |s.calls| && (s.calls[c].phase.ToAppend? || s.calls[c].phase.ToCreate?)
    case Register(c, _) => c < |s.calls| && s.calls[c].phase.Stored?
    case Emit(c, _) => c < |s.calls| && s.calls[c].phase.Registered?
    case Acknowledge(c, _) => c < |s.calls| && s.calls[c].phase.Emitted?
    case CloseThread(artifact) => artifact < |s.threads|
  }

  /** What the explicit, reuse and new branches decide before they store. */
  function Selected(threads: Threads, call: Call, found: Option<nat>): Phase {
    match call.request.artifact
    case Some(artifact) =>
      if artifact >= |threads| then Finished(NotStored("artifact_not_found"))
      else if !Matches(threads[artifact], call.session, call.path) then Finished(NotStored("invalid_request"))
      else ToAppend(artifact)
    case None =>
      if call.request.forceNew || found.None? then ToCreate else ToAppend(found.value)
  }

  function WithPhase(s: State, c: nat, phase: Phase): State
    requires c < |s.calls|
  {
    s.(calls := s.calls[c := s.calls[c].(phase := phase)])
  }

  function AfterPersist(fault: Fault, artifact: nat): Phase {
    if fault.InIndex? then Finished(IndexWriteFailed(artifact)) else Stored(artifact)
  }

  function Next(s: State, a: Action): State
    requires Enabled(s, a)
  {
    match a
    case Begin(session, request) =>
      var failure := ValidateRequest(session, request);
      s.(calls := s.calls + [Call(session, request, "",
                                  if failure.Some? then Finished(NotStored(failure.value)) else Requested)])
    case CaptureFile(c, path) =>
      (match path
       case Ok(canonical) => s.(calls := s.calls[c := s.calls[c].(path := canonical, phase := Captured)])
       case Err(code) => WithPhase(s, c, Finished(NotStored(code))))
    case LookUp(c, found) => WithPhase(s, c, Selected(s.threads, s.calls[c], found))
    case LookUpFails(c) => WithPhase(s, c, Finished(NotStored("persistence_failed")))
    case Persist(c, fault) =>
      if fault.BeforeManifest? then WithPhase(s, c, Finished(NotStored("persistence_failed")))
      else if s.calls[c].phase.ToAppend? then
        var artifact := s.calls[c].phase.target;
        if artifact >= |s.threads| then WithPhase(s, c, Finished(NotStored("artifact_not_found")))
        else WithPhase(s, c, AfterPersist(fault, artifact)).(threads := Appended(s.threads, artifact, c))
      else
        WithPhase(s, c, AfterPersist(fault, |s.threads|)).(
          threads := Created(s.threads, s.calls[c].session, s.calls[c].path, c))
    case Register(c, ok) =>
      var artifact := s.calls[c].phase.stored;
      WithPhase(s, c, if ok then Registered(artifact) else Finished(DeliveryFailed(artifact)))
    case Emit(c, ok) =>
      var artifact := s.calls[c].phase.stored;
      if ok then WithPhase(s, c, Emitted(artifact)).(events := s.events + [Event(artifact, c)])
      else WithPhase(s, c, Finished(DeliveryFailed(artifact)))
    case Acknowledge(c, routed) =>
      var artifact := s.calls[c].phase.stored;
      WithPhase(s, c, Finished(if routed then Presented(artifact) else DeliveryFailed(artifact)))
    case CloseThread(artifact) => s.(threads := s.threads[artifact := s.threads[artifact].(active := false)])
  }

  // ----- the invariant -----

  /** The thread a call's version went to, if it has been stored. */
  function StoredIn(phase: Phase): Option<nat> {
    match phase
    case Stored(artifact) => Some(artifact)
    case Registered(artifact) => Some(artifact)
    case Emitted(artifact) => Some(artifact)
    case Finished(outcome) => if outcome.NotStored? then None else Some(outcome.artifact)
    case _ => None
  }

  predicate Holds(s: State, artifact: nat, version: nat) {
    artifact < |s.threads| && version in s.threads[artifact].versions
  }

  /** A call's own session and canonical path are its thread's. */
  predicate CallSound(s: State, c: nat)
    requires c < |s.calls|
  {
    var call := s.calls[c];
    && (call.phase.ToAppend? ==>
          call.phase.target < |s.threads| && Matches(s.threads[call.phase.target], call.session, call.path))
    && (StoredIn(call.phase).Some? ==> Holds(s, StoredIn(call.phase).value, c))
    && (call.phase.Emitted? || (call.phase.Finished? && call.phase.outcome.Presented?) ==>
          Event(StoredIn(call.phase).value, c) in s.events)
  }

  predicate VersionSound(s: State, artifact: nat, version: nat)
    requires artifact < |s.threads|
  {
    && version < |s.calls|
    && StoredIn(s.calls[version].phase) == Some(artifact)
    && Matches(s.threads[artifact], s.calls[version].session, s.calls[version].path)
  }

  ghost predicate ThreadSound(s: State, artifact: nat)
    requires artifact < |s.threads|
  {
    && s.threads[artifact].versions != []
    && forall v :: v in s.threads[artifact].versions ==> VersionSound(s, artifact, v)
  }

  function VersionCount(thread: Thread): nat {
    |thread.versions|
  }

  function StoredCount(call: Call): nat {
    if StoredIn(call.phase).Some? then 1 else 0
  }

  ghost predicate Inv(s: State) {
    && (forall c :: 0 <= c < |s.calls| ==> CallSound(s, c))
    && (forall a :: 0 <= a < |s.threads| ==> ThreadSound(s, a))
    && (forall e :: e in s.events ==> Holds(s, e.artifact, e.version))
    && Total(s.threads, VersionCount) == Total(s.calls, StoredCount)
  }

  lemma PhaseChangeCounts(s: State, c: nat, call: Call)
    requires c < |s.calls|
    ensures Total(s.calls[c := call], StoredCount) + StoredCount(s.calls[c]) == Total(s.calls, StoredCount) + StoredCount(call)
  {
    TotalOfUpdate(s.calls, c, call, StoredCount);
  }

  /** A call moves on without storing anything. */
  lemma MoveKeepsInv(s: State, s': State, c: nat, call: Call)
    requires Inv(s) && c < |s.calls|
    requires s' == s.(calls := s.calls[c := call])
    requires call.session == s.calls[c].session
    requires StoredIn(call.phase) == StoredIn(s.calls[c].phase)
    requires StoredIn(call.phase).Some? ==> call.path == s.calls[c].path
    requires CallSound(s', c)
    ensures Inv(s')
  {
    PhaseChangeCounts(s, c, call);
    forall i | 0 <= i < |s'.calls|
      ensures CallSound(s', i)
    {
      if i != c {
        assert CallSound(s, i);
      }
    }
    forall a | 0 <= a < |s'.threads|
      ensures ThreadSound(s', a)
    {
      assert ThreadSound(s, a);
      forall v | v in s'.threads[a].versions
        ensures VersionSound(s', a, v)
      {
        assert VersionSound(s, a, v);
      }
    }
  }

  /** An event for a stored version. */
  lemma EventKeepsInv(s: State, event: Event)
    requires Inv(s) && Holds(s, event.artifact, event.version)
    ensures Inv(s.(events := s.events + [event]))
  {
    var s' := s.(events := s.events + [event]);
    forall i | 0 <= i < |s'.calls|
      ensures CallSound(s', i)
    {
      assert CallSound(s, i);
    }
    forall a | 0 <= a < |s'.threads|
      ensures ThreadSound(s', a)
    {
      assert ThreadSound(s, a);
      forall v | v in s'.threads[a].versions
        ensures VersionSound(s', a, v)
      {
        assert VersionSound(s, a, v);
      }
    }
  }

  lemma EmitKeepsInv(s: State, c: nat, ok: bool)
    requires Inv(s) && Enabled(s, Emit(c, ok))
    ensures Inv(Next(s, Emit(c, ok)))
  {
    assert CallSound(s, c);
    var s' := Next(s, Emit(c, ok));
    var artifact := s.calls[c].phase.stored;
    var announced := if ok then s.(events := s.events + [Event(artifact, c)]) else s;
    if ok {
      EventKeepsInv(s, Event(artifact, c));
    }
    hide Inv;
    assert CallSound(s', c);
    MoveKeepsInv(announced, s', c, s'.calls[c]);
  }

  lemma BeginKeepsInv(s: State, session: string, request: Request)
    requires Inv(s)
    ensures Inv(Next(s, Begin(session, request)))
  {
    var s' := Next(s, Begin(session, request));
    var call := s'.calls[|s.calls|];
    TotalOfConcat(s.calls, [call], StoredCount);
    assert Total([call], StoredCount) == 0 by {
      assert [call][1..] == [];
    }
    forall i | 0 <= i < |s'.calls|
      ensures CallSound(s', i)
    {
      if i < |s.calls| {
        assert CallSound(s, i);
      }
    }
    forall a | 0 <= a < |s'.threads|
      ensures ThreadSound(s', a)
    {
      assert ThreadSound(s, a);
      forall v | v in s'.threads[a].versions
        ensures VersionSound(s', a, v)
      {
        assert VersionSound(s, a, v);
      }
    }
  }

  /** Storing a version: one more version, one more stored call. */
  lemma StoringKeepsInv(s: State, s': State, c: nat, phase: Phase, artifact: nat)
    requires Inv(s) && c < |s.calls| && StoredIn(s.calls[c].phase).None? && s'.events == s.events
    requires s'.calls == s.calls[c := s.calls[c].(phase := phase)]
    requires phase == Stored(artifact) || phase == Finished(IndexWriteFailed(artifact))
    requires |s.threads| <= |s'.threads| && artifact < |s'.threads|
    requires forall a :: 0 <= a < |s'.threads| && a != artifact ==> a < |s.threads| && s'.threads[a] == s.threads[a]
    requires Matches(s'.threads[artifact], s.calls[c].session, s.calls[c].path)
    requires s'.threads[artifact].versions == (if artifact < |s.threads| then s.threads[artifact].versions else []) + [c]
    requires artifact < |s.threads| ==>
               Matches(s.threads[artifact], s'.threads[artifact].session, s'.threads[artifact].path)
    requires Total(s'.threads, VersionCount) == Total(s.threads, VersionCount) + 1
    ensures Inv(s')
  {
    PhaseChangeCounts(s, c, s'.calls[c]);
    forall i | 0 <= i < |s'.calls|
      ensures CallSound(s', i)
    {
      assert CallSound(s, i);
      assert forall a, v :: Holds(s, a, v) ==> Holds(s', a, v);
    }
    forall a | 0 <= a < |s'.threads|
      ensures ThreadSound(s', a)
    {
      assert a < |s.threads| ==> ThreadSound(s, a);
      forall v | v in s'.threads[a].versions
        ensures VersionSound(s', a, v)
      {
        if !(a == artifact && v == c) {
          assert VersionSound(s, a, v);
        }
      }
    }
  }

  lemma PersistKeepsInv(s: State, c: nat, fault: Fault)
    requires Inv(s) && Enabled(s, Persist(c, fault)) && !fault.BeforeManifest?
    ensures Inv(Next(s, Persist(c, fault)))
  {
    var s' := Next(s, Persist(c, fault));
    assert CallSound(s, c);
    if s.calls[c].phase.ToAppend? {
      var artifact := s.calls[c].phase.target;
      TotalOfUpdate(s.threads, artifact, s'.threads[artifact], VersionCount);
      StoringKeepsInv(s, s', c, s'.calls[c].phase, artifact);
    } else {
      var thread := s'.threads[|s.threads|];
      TotalOfConcat(s.threads, [thread], VersionCount);
      assert Total([thread], VersionCount) == 1 by {
        assert [thread][1..] == [];
      }
      StoringKeepsInv(s, s', c, s'.calls[c].phase, |s.threads|);
    }
  }

  lemma CloseKeepsInv(s: State, artifact: nat)
    requires Inv(s) && artifact < |s.threads|
    ensures Inv(Next(s, CloseThread(artifact)))
  {
    var s' := Next(s, CloseThread(artifact));
    TotalOfUpdate(s.threads, artifact, s'.threads[artifact], VersionCount);
    forall i | 0 <= i < |s'.calls|
      ensures CallSound(s', i)
    {
      assert CallSound(s, i);
    }
    forall a | 0 <= a < |s'.threads|
      ensures ThreadSound(s', a)
    {
      assert ThreadSound(s, a);
      forall v | v in s'.threads[a].versions
        ensures VersionSound(s', a, v)
      {
        assert VersionSound(s, a, v);
      }
    }
  }

  /** The call an action belongs to, when it only moves that call on. */
  predicate OnlyMoves(a: Action) {
    || a.CaptureFile? || a.LookUp? || a.LookUpFails? || a.Register? || a.Acknowledge?
    || (a.Persist? && a.fault.BeforeManifest?)
  }

  lemma OnlyMovesKeepsInv(s: State, a: Action)
    requires Inv(s) && Enabled(s, a) && OnlyMoves(a)
    ensures Inv(Next(s, a))
  {
    var s' := Next(s, a);
    assert CallSound(s, a.call);
    hide Inv;
    MoveKeepsInv(s, s', a.call, s'.calls[a.call]);
  }

  lemma StepKeepsInv(s: State, a: Action)
    requires Inv(s) && Enabled(s, a)
    ensures Inv(Next(s, a))
  {
    hide Inv, Next;
    match a
    case Begin(session, request) => BeginKeepsInv(s, session, request);
    case CloseThread(artifact) => CloseKeepsInv(s, artifact);
    case Emit(c, ok) => EmitKeepsInv(s, c, ok);
    case Persist(c, fault) =>
      if fault.BeforeManifest? {
        OnlyMovesKeepsInv(s, a);
      } else {
        PersistKeepsInv(s, c, fault);
      }
    case _ => OnlyMovesKeepsInv(s, a);
  }

  // ----- runs -----

  datatype Run = Run(states: seq<State>, actions: seq<Action>)

  ghost predicate StepsTo(s: State, a: Action, s': State) {
    Enabled(s, a) && s' == Next(s, a)
  }

  /** From an empty store, any interleaving of calls, their failures and closings. */
  ghost predicate IsRun(run: Run) {
    && |run.states| == |run.actions| + 1
    && run.states[0] == State([], [], [])
    && forall k :: 0 <= k < |run.actions| ==> StepsTo(run.states[k], run.actions[k], run.states[k + 1])
  }

  lemma {:induction false} RunKeepsInv(run: Run, k: nat)
    requires IsRun(run) && k < |run.states|
    ensures Inv(run.states[k])
  {
    if k > 0 {
      RunKeepsInv(run, k - 1);
      assert StepsTo(run.states[k - 1], run.actions[k - 1], run.states[k]);
      hide Inv, Next, Enabled;
      StepKeepsInv(run.states[k - 1], run.actions[k - 1]);
    }
  }

  // ----- what runs promise -----

  /** Every version of a thread was presented by a call of the thread's own session
      for its own canonical path, whichever branch stored it. */
  lemma VersionsComeFromTheirThread(run: Run, k: nat, artifact: nat, version: nat)
    requires IsRun(run) && k < |run.states|
    requires artifact < |run.states[k].threads| && version in run.states[k].threads[artifact].versions
    ensures version < |run.states[k].calls|
    ensures run.states[k].threads[artifact].session == run.states[k].calls[version].session
    ensures run.states[k].threads[artifact].path == run.states[k].calls[version].path
  {
    RunKeepsInv(run, k);
    assert ThreadSound(run.states[k], artifact);
    assert VersionSound(run.states[k], artifact, version);
  }

  /** Events name stored versions, and a call that reports success has announced its
      version. */
  lemma EventsNameStoredVersions(run: Run, k: nat)
    requires IsRun(run) && k < |run.states|
    ensures var s := run.states[k];
            && (forall e :: e in s.events ==> Holds(s, e.artifact, e.version))
            && (forall c :: 0 <= c < |s.calls| && s.calls[c].phase.Finished? && s.calls[c].phase.outcome.Presented? ==>
                  Event(s.calls[c].phase.outcome.artifact, c) in s.events)
  {
    RunKeepsInv(run, k);
    var s := run.states[k];
    forall c | 0 <= c < |s.calls| && s.calls[c].phase.Finished? && s.calls[c].phase.outcome.Presented?
      ensures Event(s.calls[c].phase.outcome.artifact, c) in s.events
    {
      assert CallSound(s, c);
    }
  }

  function PresentedCount(call: Call): nat {
    if call.phase.Finished? && call.phase.outcome.Presented? then 1 else 0
  }

  function DeliveryFailedCount(call: Call): nat {
    if call.phase.Finished? && call.phase.outcome.DeliveryFailed? then 1 else 0
  }

  function IndexFailedCount(call: Call): nat {
    if call.phase.Finished? && call.phase.outcome.IndexWriteFailed? then 1 else 0
  }

  ghost predicate AllFinished(calls: seq<Call>) {
    forall c :: 0 <= c < |calls| ==> calls[c].phase.Finished?
  }

  lemma {:induction false} StoredCallsByOutcome(calls: seq<Call>)
    requires AllFinished(calls)
    ensures Total(calls, StoredCount)
         == Total(calls, PresentedCount) + Total(calls, DeliveryFailedCount) + Total(calls, IndexFailedCount)
  {
    if calls != [] {
      assert calls[0].phase.Finished?;
      StoredCallsByOutcome(calls[1..]);
    }
  }

  predicate IsIndexFault(a: Action) {
    a.Persist? && a.fault.InIndex?
  }

  function FaultWeight(a: Action): nat {
    if IsIndexFault(a) then 1 else 0
  }

  ghost predicate NoIndexFault(actions: seq<Action>) {
    forall j :: 0 <= j < |actions| ==> !IsIndexFault(actions[j])
  }

  lemma {:induction false} NoFaultsCounted(actions: seq<Action>)
    ensures Total(actions, FaultWeight) == 0 <==> NoIndexFault(actions)
  {
    if actions != [] {
      NoFaultsCounted(actions[1..]);
      assert forall j :: 0 < j < |actions| ==> actions[j] == actions[1..][j - 1];
      assert forall j :: 0 <= j < |actions[1..]| ==> actions[1..][j] == actions[j + 1];
    }
  }

  /** Exactly the steps that meet an index fault end a call that way. */
  lemma IndexFaultEndsCall(s: State, a: Action)
    requires Inv(s) && Enabled(s, a)
    ensures Total(Next(s, a).calls, IndexFailedCount) == Total(s.calls, IndexFailedCount) + FaultWeight(a)
  {
    hide Inv, CallOf;
    var s' := Next(s, a);
    match a
    case Begin(_, _) =>
      var call := s'.calls[|s.calls|];
      TotalOfConcat(s.calls, [call], IndexFailedCount);
      assert [call][1..] == [];
    case CloseThread(_) =>
    case _ =>
      CallMovesOn(s, a);
      TotalOfUpdate(s.calls, CallOf(a), s'.calls[CallOf(a)], IndexFailedCount);
  }

  lemma CallMovesOn(s: State, a: Action)
    requires Inv(s) && Enabled(s, a) && !a.Begin? && !a.CloseThread?
    ensures var c, s' := CallOf(a), Next(s, a);
            && c < |s.calls| == |s'.calls| && s'.calls == s.calls[c := s'.calls[c]]
            && IndexFailedCount(s.calls[c]) == 0 && IndexFailedCount(s'.calls[c]) == FaultWeight(a)
  {
    var c := CallOf(a);
    assert c < |s.calls| && CallSound(s, c);
    hide Inv;
  }

  function CallOf(a: Action): nat
    requires !a.Begin? && !a.CloseThread?
  {
    a.call
  }

  lemma {:induction false} FaultsEndCalls(run: Run, k: nat)
    requires IsRun(run) && k < |run.states|
    ensures Total(run.states[k].calls, IndexFailedCount) == Total(run.actions[..k], FaultWeight)
  {
    if k > 0 {
      FaultsEndCalls(run, k - 1);
      RunKeepsInv(run, k - 1);
      assert StepsTo(run.states[k - 1], run.actions[k - 1], run.states[k]);
      hide Inv, Next, Enabled, IndexFailedCount;
      IndexFaultEndsCall(run.states[k - 1], run.actions[k - 1]);
      var last := [run.actions[k - 1]];
      assert run.actions[..k] == run.actions[..k - 1] + last;
      TotalOfConcat(run.actions[..k - 1], last, FaultWeight);
      assert last[1..] == [];
    }
  }

  ghost function Reported(s: State): nat {
    Total(s.calls, PresentedCount) + Total(s.calls, DeliveryFailedCount)
  }

  /** With no call in flight, the versions in the store number the calls that
      returned Ok or ui_delivery_failed and the index writes that failed. So they
      number the calls alone iff no index write failed in the whole run. */
  lemma VersionsAreAccounted(run: Run, k: nat)
    requires IsRun(run) && k < |run.states| && AllFinished(run.states[k].calls)
    ensures var s := run.states[k];
            && Total(s.threads, VersionCount) == Reported(s) + Total(run.actions[..k], FaultWeight)
            && (Total(s.threads, VersionCount) == Reported(s) <==> NoIndexFault(run.actions[..k]))
  {
    RunKeepsInv(run, k);
    StoredCallsByOutcome(run.states[k].calls);
    FaultsEndCalls(run, k);
    NoFaultsCounted(run.actions[..k]);
  }

  // ----- runs that meet the fault -----

  function LastState(run: Run): State
    requires run.states != []
  {
    run.states[|run.states| - 1]
  }

  lemma Extended(run: Run, a: Action) returns (longer: Run)
    requires IsRun(run) && Enabled(LastState(run), a)
    ensures IsRun(longer) && longer.actions == run.actions + [a]
    ensures longer.states == run.states + [Next(LastState(run), a)]
  {
    hide Next, Enabled;
    longer := Run(run.states + [Next(LastState(run), a)], run.actions + [a]);
    forall k | 0 <= k < |longer.actions|
      ensures StepsTo(longer.states[k], longer.actions[k], longer.states[k + 1])
    {
      if k < |run.actions| {
        assert StepsTo(run.states[k], run.actions[k], run.states[k + 1]);
      }
    }
  }

  lemma TotalOfOne<T>(x: T, weight: T -> nat)
    ensures Total([x], weight) == weight(x)
  {
    assert [x][1..] == [];
  }

  lemma TotalOfTwo<T>(x: T, y: T, weight: T -> nat)
    ensures Total([x, y], weight) == weight(x) + weight(y)
  {
    assert [x, y][1..] == [y];
    TotalOfOne(y, weight);
  }

  ghost predicate HasTotals(s: State, versions: nat, reported: nat) {
    AllFinished(s.calls) && Total(s.threads, VersionCount) == versions && Reported(s) == reported
  }

  /** A call on its own reaches the store: the thread it appends to, or a new one. */
  lemma CallReachesStore(run: Run, session: string, request: Request, path: string, found: Option<nat>)
    returns (longer: Run)
    requires IsRun(run) && ValidateRequest(session, request).None?
    requires request.artifact.None? && !request.forceNew
    requires IsActiveThread(LastState(run).threads, session, path, found)
    ensures IsRun(longer)
    ensures var s, c := LastState(run), |LastState(run).calls|;
            LastState(longer) == s.(calls := s.calls
              + [Call(session, request, path, if found.Some? then ToAppend(found.value) else ToCreate)])
            && |longer.actions| == |run.actions| + 3
  {
    var s, c := LastState(run), |LastState(run).calls|;
    var first := Extended(run, Begin(session, request));
    assert LastState(first) == s.(calls := s.calls + [Call(session, request, "", Requested)]);
    var second := Extended(first, CaptureFile(c, Ok(path)));
    assert LastState(second) == s.(calls := s.calls + [Call(session, request, path, Captured)]);
    longer := Extended(second, LookUp(c, found));
  }

  /** For every valid request, a run stores a version and reports nothing stored: the
      index write fails when the thread is created. */
  lemma FaultOnCreateIsReachable(session: string, request: Request, path: string) returns (run: Run)
    requires ValidateRequest(session, request).None? && request.artifact.None? && !request.forceNew
    ensures IsRun(run) && HasTotals(LastState(run), 1, 0)
  {
    var start := Run([State([], [], [])], []);
    var asked := CallReachesStore(start, session, request, path, None);
    run := Extended(asked, Persist(0, InIndex));
    var s := LastState(run);
    assert s.threads == [Thread(session, path, true, [0])];
    var call := Call(session, request, path, Finished(IndexWriteFailed(0)));
    assert s.calls == [call];
    TotalOfOne(s.threads[0], VersionCount);
    TotalOfOne(call, PresentedCount);
    TotalOfOne(call, DeliveryFailedCount);
  }

  /** And so does a run whose second call appends to the thread of its first. */
  lemma FaultOnAppendIsReachable(session: string, request: Request, path: string) returns (run: Run)
    requires ValidateRequest(session, request).None? && request.artifact.None? && !request.forceNew
    ensures IsRun(run) && HasTotals(LastState(run), 2, 1)
  {
    var start := Run([State([], [], [])], []);
    var asked := CallReachesStore(start, session, request, path, None);
    var presented := PresentedRun(asked, session, request, path);
    var again := CallReachesStore(presented, session, request, path, Some(0));
    run := Extended(again, Persist(1, InIndex));
    var s := LastState(run);
    assert [0] + [1] == [0, 1];
    assert s.threads == [Thread(session, path, true, [0, 1])];
    var first := Call(session, request, path, Finished(Presented(0)));
    var second := Call(session, request, path, Finished(IndexWriteFailed(0)));
    assert s.calls == [first, second];
    TotalOfOne(s.threads[0], VersionCount);
    TotalOfTwo(first, second, PresentedCount);
    TotalOfTwo(first, second, DeliveryFailedCount);
  }

  lemma PresentedRun(run: Run, session: string, request: Request, path: string) returns (longer: Run)
    requires IsRun(run) && LastState(run) == State([], [Call(session, request, path, ToCreate)], [])
    ensures IsRun(longer)
    ensures LastState(longer) == State([Thread(session, path, true, [0])],
                                       [Call(session, request, path, Finished(Presented(0)))], [Event(0, 0)])
  {
    var stored := Extended(run, Persist(0, NoFault));
    var registered := Extended(stored, Register(0, true));
    var emitted := Extended(registered, Emit(0, true));
    longer := Extended(emitted, Acknowledge(0, true));
    assert [] + [Event(0, 0)] == [Event(0, 0)];
  }
}
