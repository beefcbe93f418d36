/** The automation builder's store (src/store/useBuilderStore.ts). Every action is
    atomic; `load`, `validate` and `save` are split at their await into a request
    and a response, and any other action may come in between. */
module BuilderStore {
  import opened Common

  /** A blueprint object: `ref` is the object's identity, `id` its automation id. */
  datatype Blueprint = Blueprint(ref: nat, id: string)

  type Diagnostics = seq<string>

  datatype Store = Store(
    blueprint: Option<Blueprint>,
    baseline: Option<Blueprint>,
    baselineDiagnostics: Diagnostics,
    path: Option<string>,
    diagnostics: Diagnostics,
    dirty: bool,
    editRevision: nat,
    resourceRevision: nat,
    identityRevision: nat)

  const InitialStore := Store(None, None, [], None, [], false, 0, 0, 0)

  /** What a pending save remembers of the moment it was requested. */
  datatype PendingSave = PendingSave(blueprint: Blueprint, path: string, editRevision: nat, identityRevision: nat)

  function IdOf(blueprint: Option<Blueprint>): Option<string> {
    if blueprint.Some? then Some(blueprint.value.id) else None
  }

  // ----- the actions on values -----

  function Loaded(s: Store, path: string, blueprint: Blueprint, diagnostics: Diagnostics): Store {
    Store(Some(blueprint), Some(blueprint), diagnostics, Some(path), diagnostics, false, 0,
          s.resourceRevision + 1, s.identityRevision + 1)
  }

  function Edited(s: Store, blueprint: Blueprint): Store {
    s.(blueprint := Some(blueprint),
       dirty := true,
       editRevision := s.editRevision + 1,
       resourceRevision := s.resourceRevision + 1,
       identityRevision := if IdOf(s.blueprint) == Some(blueprint.id) then s.identityRevision else s.identityRevision + 1)
  }

  function Discarded(s: Store): Store {
    s.(blueprint := s.baseline,
       diagnostics := s.baselineDiagnostics,
       dirty := false,
       editRevision := s.editRevision + 1,
       resourceRevision := s.resourceRevision + 1)
  }

  function Initialized(s: Store, blueprint: Blueprint): Store {
    if s.blueprint.Some? then s
    else
      s.(blueprint := Some(blueprint),
         baseline := Some(blueprint),
         baselineDiagnostics := [],
         dirty := false,
         editRevision := 0,
         resourceRevision := s.resourceRevision + 1,
         identityRevision := s.identityRevision + 1)
  }

  function WasReset(s: Store): Store {
    InitialStore.(resourceRevision := s.resourceRevision + 1, identityRevision := s.identityRevision + 1)
  }

  function SaveRequested(s: Store): Option<PendingSave> {
    if s.blueprint.None? || s.path.None? || s.path.value == "" then None
    else Some(PendingSave(s.blueprint.value, s.path.value, s.editRevision, s.identityRevision))
  }

  predicate Accepts(s: Store, pending: PendingSave) {
    && s.path == Some(pending.path)
    && s.identityRevision == pending.identityRevision
    && IdOf(s.blueprint) == Some(pending.blueprint.id)
  }

  predicate EditedSince(s: Store, pending: PendingSave) {
    s.editRevision != pending.editRevision || s.blueprint.None? || s.blueprint.value.ref != pending.blueprint.ref
  }

  function SaveAnswered(s: Store, pending: PendingSave, written: bool, diagnostics: Diagnostics): Store {
    if !Accepts(s, pending) then s
    else
      s.(diagnostics := diagnostics,
         dirty := !written || EditedSince(s, pending),
         baseline := if written then Some(pending.blueprint) else s.baseline,
         baselineDiagnostics := if written then diagnostics else s.baselineDiagnostics,
         resourceRevision := s.resourceRevision + 1)
  }

  /** What the save returns. */
  predicate SaveSucceeds(s: Store, pending: PendingSave, written: bool) {
    Accepts(s, pending) && written && !EditedSince(s, pending)
  }

  predicate CleanIsBaseline(s: Store) {
    !s.dirty ==> s.blueprint == s.baseline
  }

  // ----- the store itself -----

  class Builder {
    var blueprint: Option<Blueprint>
    var baseline: Option<Blueprint>
    var baselineDiagnostics: Diagnostics
    var path: Option<string>
    var diagnostics: Diagnostics
    var dirty: bool
    var editRevision: nat
    var resourceRevision: nat
    var identityRevision: nat

    ghost function State(): Store
      reads this
    {
      Store(blueprint, baseline, baselineDiagnostics, path, diagnostics, dirty,
            editRevision, resourceRevision, identityRevision)
    }

    ghost predicate Valid()
      reads this
    {
      CleanIsBaseline(State())
    }

    constructor ()
      ensures Valid() && State() == InitialStore
    {
      blueprint, baseline, baselineDiagnostics, path, diagnostics := None, None, [], None, [];
      dirty, editRevision, resourceRevision, identityRevision := false, 0, 0, 0;
    }

    method LoadResponse(from: string, loaded: Blueprint, found: Diagnostics)
      requires Valid()
      modifies this
      ensures Valid() && State() == Loaded(old(State()), from, loaded, found)
    {
      blueprint, baseline, baselineDiagnostics := Some(loaded), Some(loaded), found;
      path, diagnostics, dirty, editRevision := Some(from), found, false, 0;
      resourceRevision := resourceRevision + 1;
      identityRevision := identityRevision + 1;
    }

    method ValidateResponse(found: Diagnostics)
      requires Valid()
      modifies this`diagnostics
      ensures Valid() && State() == old(State()).(diagnostics := found)
    {
      diagnostics := found;
    }

    method SaveRequest() returns (pending: Option<PendingSave>)
      requires Valid()
      ensures pending == SaveRequested(State())
      ensures pending.Some? ==> Accepts(State(), pending.value) && !EditedSince(State(), pending.value)
    {
      if blueprint.None? || path.None? || path.value == "" {
        return None;
      }
      pending := Some(PendingSave(blueprint.value, path.value, editRevision, identityRevision));
    }

    /** A save answers true only when the written value is still current and has
        become the baseline; a response it does not accept changes nothing. */
    method SaveResponse(pending: PendingSave, written: bool, found: Diagnostics) returns (saved: bool)
      requires Valid()
      modifies this
      ensures Valid() && State() == SaveAnswered(old(State()), pending, written, found)
      ensures saved <==> SaveSucceeds(old(State()), pending, written)
      ensures saved ==> written && !dirty && blueprint == baseline == Some(pending.blueprint)
      ensures !Accepts(old(State()), pending) ==> State() == old(State())
    {
      if path != Some(pending.path) || identityRevision != pending.identityRevision
         || IdOf(blueprint) != Some(pending.blueprint.id)
      {
        return false;
      }
      var editChangedDuringSave := editRevision != pending.editRevision || blueprint.value.ref != pending.blueprint.ref;
      diagnostics := found;
      dirty := !written || editChangedDuringSave;
      if written {
        baseline := Some(pending.blueprint);
        baselineDiagnostics := found;
      }
      resourceRevision := resourceRevision + 1;
      saved := written && !editChangedDuringSave;
    }

    method Initialize(first: Blueprint)
      requires Valid()
      modifies this
      ensures Valid() && State() == Initialized(old(State()), first)
    {
      if blueprint.None? {
        blueprint, baseline, baselineDiagnostics := Some(first), Some(first), [];
        dirty, editRevision := false, 0;
        resourceRevision := resourceRevision + 1;
        identityRevision := identityRevision + 1;
      }
    }

    method SetBlueprint(next: Blueprint)
      requires Valid()
      modifies this
      ensures Valid() && State() == Edited(old(State()), next)
    {
      if IdOf(blueprint) != Some(next.id) {
        identityRevision := identityRevision + 1;
      }
      blueprint, dirty := Some(next), true;
      editRevision := editRevision + 1;
      resourceRevision := resourceRevision + 1;
    }

    method Discard()
      requires Valid()
      modifies this
      ensures Valid() && State() == Discarded(old(State()))
    {
      blueprint, diagnostics, dirty := baseline, baselineDiagnostics, false;
      editRevision := editRevision + 1;
      resourceRevision := resourceRevision + 1;
    }

    method Reset()
      requires Valid()
      modifies this
      ensures Valid() && State() == WasReset(old(State()))
    {
      blueprint, baseline, baselineDiagnostics, path, diagnostics := None, None, [], None, [];
      dirty, editRevision := false, 0;
      resourceRevision := resourceRevision + 1;
      identityRevision := identityRevision + 1;
    }
  }

  // ----- runs -----

  /** `requestAt` is the position of the request a response answers. */
  datatype Event =
    | LoadStarts(path: string)
    | LoadArrives(requestAt: nat, blueprint: Blueprint, diagnostics: Diagnostics)
    | ValidateStarts
    | ValidateArrives(requestAt: nat, diagnostics: Diagnostics)
    | SaveStarts
    | SaveArrives(requestAt: nat, written: bool, diagnostics: Diagnostics)
    | Initializes(blueprint: Blueprint)
    | Edits(blueprint: Blueprint)
    | Discards
    | Resets

  datatype Run = Run(states: seq<Store>, events: seq<Event>)

  ghost predicate WellShaped(run: Run) {
    |run.states| == |run.events| + 1
  }

  ghost predicate AnswersLoad(run: Run, at: nat)
    requires WellShaped(run) && at < |run.events|
  {
    && run.events[at].LoadArrives?
    && run.events[at].requestAt < at
    && run.events[run.events[at].requestAt].LoadStarts?
  }

  /** A validation without a blueprint asks nothing. */
  ghost predicate AnswersValidate(run: Run, at: nat)
    requires WellShaped(run) && at < |run.events|
  {
    && run.events[at].ValidateArrives?
    && run.events[at].requestAt < at
    && run.events[run.events[at].requestAt] == ValidateStarts
    && run.states[run.events[at].requestAt].blueprint.Some?
  }

  ghost predicate AnswersSave(run: Run, at: nat)
    requires WellShaped(run) && at < |run.events|
  {
    && run.events[at].SaveArrives?
    && run.events[at].requestAt < at
    && run.events[run.events[at].requestAt] == SaveStarts
    && SaveRequested(run.states[run.events[at].requestAt]).Some?
  }

  ghost function Pending(run: Run, requestAt: nat): PendingSave
    requires WellShaped(run) && requestAt < |run.states|
    requires SaveRequested(run.states[requestAt]).Some?
  {
    SaveRequested(run.states[requestAt]).value
  }

  /** The path of the load that a response answers. */
  ghost function LoadedPath(run: Run, at: nat): string
    requires WellShaped(run) && at < |run.events| && AnswersLoad(run, at)
  {
    run.events[run.events[at].requestAt].path
  }

  ghost predicate Steps(run: Run, k: nat)
    requires WellShaped(run) && k < |run.events|
  {
    var s, s' := run.states[k], run.states[k + 1];
    match run.events[k]
    case LoadStarts(_) => s' == s
    case LoadArrives(_, blueprint, diagnostics) =>
      AnswersLoad(run, k) && s' == Loaded(s, LoadedPath(run, k), blueprint, diagnostics)
    case ValidateStarts => s' == s
    case ValidateArrives(_, diagnostics) =>
      AnswersValidate(run, k) && s' == s.(diagnostics := diagnostics)
    case SaveStarts => s' == s
    case SaveArrives(requestAt, written, diagnostics) =>
      AnswersSave(run, k) && s' == SaveAnswered(s, Pending(run, requestAt), written, diagnostics)
    case Initializes(blueprint) => s' == Initialized(s, blueprint)
    case Edits(blueprint) => s' == Edited(s, blueprint)
    case Discards => s' == Discarded(s)
    case Resets => s' == WasReset(s)
  }

  /** A request has one response at most. */
  ghost predicate AnsweredOnce(run: Run) {
    forall i, j :: 0 <= i < j < |run.events| && run.events[i].LoadArrives? && run.events[j].LoadArrives? ==>
      run.events[i].requestAt != run.events[j].requestAt
  }

  /** Any interleaving of actions and responses from the initial store. */
  ghost predicate IsRun(run: Run) {
    && WellShaped(run)
    && run.states[0] == InitialStore
    && forall k :: 0 <= k < |run.events| ==> Steps(run, k)
  }

  lemma {:induction false} CleanMeansBaseline(run: Run, k: nat)
    requires IsRun(run) && k < |run.states|
    ensures !run.states[k].dirty ==> run.states[k].blueprint == run.states[k].baseline
  {
    if k > 0 {
      CleanMeansBaseline(run, k - 1);
      assert Steps(run, k - 1);
    }
  }

  lemma {:induction false} RevisionsGrow(run: Run, i: nat, j: nat)
    requires IsRun(run) && i <= j < |run.states|
    ensures run.states[i].identityRevision <= run.states[j].identityRevision
    ensures run.states[i].resourceRevision <= run.states[j].resourceRevision
    decreases j
  {
    if i < j {
      RevisionsGrow(run, i, j - 1);
      assert Steps(run, j - 1);
    }
  }

  /** An unchanged resource revision means that nothing but the diagnostics has
      changed: no sequence of actions restores an earlier revision. */
  lemma {:induction false} RevisionIdentifiesContent(run: Run, i: nat, j: nat)
    requires IsRun(run) && i <= j < |run.states|
    requires run.states[i].resourceRevision == run.states[j].resourceRevision
    ensures run.states[j].(diagnostics := run.states[i].diagnostics) == run.states[i]
    decreases j
  {
    if i < j {
      RevisionsGrow(run, i, j - 1);
      RevisionsGrow(run, j - 1, j);
      assert Steps(run, j - 1);
      RevisionIdentifiesContent(run, i, j - 1);
    }
  }

  /** The step leaves the automation that is open in the builder in place. */
  ghost predicate KeepsResource(run: Run, k: nat)
    requires WellShaped(run) && k < |run.events|
  {
    && !run.events[k].LoadArrives? && !run.events[k].Resets?
    && !(run.events[k].Initializes? && run.states[k].blueprint.None?)
    && IdOf(run.states[k + 1].blueprint) == IdOf(run.states[k].blueprint)
  }

  ghost predicate ResourceKept(run: Run, i: nat, j: nat)
    requires WellShaped(run) && i <= j < |run.states|
  {
    forall k :: i <= k < j ==> KeepsResource(run, k)
  }

  ghost predicate Untouched(run: Run, i: nat, j: nat)
    requires WellShaped(run) && i <= j < |run.states|
  {
    forall k :: i <= k < j ==> !run.events[k].Edits? && !run.events[k].Discards?
  }

  /** What the counters know of the time since `i`: while the identity revision
      stands, either the resource was kept all along, or a discard went back to a
      baseline with another id and nothing returned to the old id since. */
  ghost predicate Tracked(run: Run, i: nat, j: nat)
    requires WellShaped(run) && i <= j < |run.states|
  {
    var s, t := run.states[i], run.states[j];
    && (ResourceKept(run, i, j) ==>
          && s.identityRevision == t.identityRevision
          && IdOf(t.blueprint) == IdOf(s.blueprint))
    && (s.identityRevision == t.identityRevision ==>
          && s.path == t.path
          && s.editRevision <= t.editRevision
          && (s.editRevision == t.editRevision <==> Untouched(run, i, j))
          && (Untouched(run, i, j) ==> t.blueprint == s.blueprint)
          && (ResourceKept(run, i, j)
              || (IdOf(t.blueprint) == IdOf(t.baseline) && IdOf(t.baseline) != IdOf(s.blueprint))))
  }

  lemma {:induction false} CountersTrackHistory(run: Run, i: nat, j: nat)
    requires IsRun(run) && i <= j < |run.states| && run.states[i].blueprint.Some?
    ensures Tracked(run, i, j)
    decreases j
  {
    if i < j {
      CountersTrackHistory(run, i, j - 1);
      RevisionsGrow(run, i, j - 1);
      TrackingStep(run, i, j - 1);
    }
  }

  lemma TrackingStep(run: Run, i: nat, j: nat)
    requires IsRun(run) && i <= j < |run.events| && run.states[i].blueprint.Some?
    requires Tracked(run, i, j) && run.states[i].identityRevision <= run.states[j].identityRevision
    ensures Tracked(run, i, j + 1)
  {
    assert Steps(run, j);
    assert ResourceKept(run, i, j + 1) <==> (ResourceKept(run, i, j) && KeepsResource(run, j));
    assert Untouched(run, i, j + 1) <==>
             (Untouched(run, i, j) && !run.events[j].Edits? && !run.events[j].Discards?);
  }

  /** A save response is accepted iff the same automation stayed open, under the
      same id, at every step from the request to the response. A response that is
      not accepted changes nothing and answers false. */
  lemma ResponseIsAcceptedIffResourceKept(run: Run, at: nat)
    requires IsRun(run) && at < |run.events| && AnswersSave(run, at)
    ensures var requestAt := run.events[at].requestAt;
            Accepts(run.states[at], Pending(run, requestAt)) <==> ResourceKept(run, requestAt, at)
    ensures !ResourceKept(run, run.events[at].requestAt, at) ==> run.states[at + 1] == run.states[at]
  {
    CountersTrackHistory(run, run.events[at].requestAt, at);
    assert Steps(run, at);
    RevisionsGrow(run, run.events[at].requestAt, at);
  }

  /** A save returns true iff the value was written, the automation stayed open and
      nobody edited or discarded since the request; the written value is then both
      current and the baseline. */
  lemma SaveSucceedsIffUntouched(run: Run, at: nat)
    requires IsRun(run) && at < |run.events| && AnswersSave(run, at)
    ensures var e, after := run.events[at], run.states[at + 1];
            var pending := Pending(run, e.requestAt);
            && (SaveSucceeds(run.states[at], pending, e.written)
                <==> (e.written && ResourceKept(run, e.requestAt, at) && Untouched(run, e.requestAt, at)))
            && (SaveSucceeds(run.states[at], pending, e.written) ==>
                  after.blueprint == after.baseline == Some(pending.blueprint) && !after.dirty)
  {
    ResponseIsAcceptedIffResourceKept(run, at);
    CountersTrackHistory(run, run.events[at].requestAt, at);
    assert Steps(run, at);
  }

  /** Comparing the blueprint objects adds nothing to comparing the revisions. */
  lemma ObjectComparisonIsRedundant(run: Run, at: nat)
    requires IsRun(run) && at < |run.events| && AnswersSave(run, at)
    requires Accepts(run.states[at], Pending(run, run.events[at].requestAt))
    ensures EditedSince(run.states[at], Pending(run, run.events[at].requestAt))
       <==> run.states[at].editRevision != run.states[run.events[at].requestAt].editRevision
  {
    CountersTrackHistory(run, run.events[at].requestAt, at);
  }

  // ----- responses without a guard -----

  ghost predicate ReplacesPath(e: Event) {
    e.LoadArrives? || e.Resets?
  }

  /** The last load response to arrive decides what is open. */
  lemma {:induction false} LastResponseWins(run: Run, at: nat, k: nat)
    requires IsRun(run) && at < k < |run.states| && run.events[at].LoadArrives?
    requires forall i :: at < i < k ==> !ReplacesPath(run.events[i])
    ensures AnswersLoad(run, at) && run.states[k].path == Some(LoadedPath(run, at))
    decreases k
  {
    assert Steps(run, at);
    if at + 1 < k {
      LastResponseWins(run, at, k - 1);
      assert Steps(run, k - 1);
    }
  }

  /** `r` is the last load requested before `k`, and it was answered at `at`. */
  ghost predicate LastRequest(run: Run, r: nat, at: nat, k: nat)
    requires IsRun(run) && k < |run.states|
  {
    && r < at < k && run.events[r].LoadStarts?
    && run.events[at].LoadArrives? && run.events[at].requestAt == r
    && (forall i :: r < i < k ==> !run.events[i].LoadStarts? && !run.events[i].Resets?)
  }

  /** Every response brings an object of its own. */
  ghost predicate ResponsesAreFresh(run: Run) {
    forall i, j :: 0 <= i < j < |run.events| && run.events[i].LoadArrives? && run.events[j].LoadArrives? ==>
      run.events[i].blueprint.ref != run.events[j].blueprint.ref
  }

  ghost predicate NoLoadArrives(run: Run, i: nat, j: nat)
    requires j <= |run.events|
  {
    forall k :: i <= k < j ==> !run.events[k].LoadArrives?
  }

  ghost predicate NothingIsWritten(run: Run, i: nat, j: nat)
    requires j <= |run.events|
  {
    forall k :: i <= k < j && run.events[k].SaveArrives? ==> !run.events[k].written
  }

  /** Until a save is written the last load response to arrive is the baseline, and
      until an edit it is what is shown. */
  lemma {:induction false} LastResponseIsBaseline(run: Run, at: nat, k: nat)
    requires IsRun(run) && at < k < |run.states| && run.events[at].LoadArrives?
    requires NothingIsWritten(run, at, k)
    requires forall i :: at < i < k ==> !ReplacesPath(run.events[i])
    ensures run.states[k].baseline == Some(run.events[at].blueprint) && run.states[k].blueprint.Some?
    ensures Untouched(run, at + 1, k) ==> run.states[k].blueprint == Some(run.events[at].blueprint)
    decreases k
  {
    assert Steps(run, at);
    if at + 1 < k {
      LastResponseIsBaseline(run, at, k - 1);
      assert Steps(run, k - 1);
    }
  }

  /** The store shows what the response to the last request brought iff no response to
      an earlier load arrives after it, be that of another automation or of the same:
      nothing guards a load against being stale. */
  lemma LastRequestIsShownIffAnsweredLast(run: Run, r: nat, at: nat, k: nat)
    requires IsRun(run) && AnsweredOnce(run) && k < |run.states| && LastRequest(run, r, at, k)
    ensures ResponsesAreFresh(run) && NothingIsWritten(run, at, k) ==>
              (run.states[k].baseline == Some(run.events[at].blueprint) <==> NoLoadArrives(run, at + 1, k))
    ensures ResponsesAreFresh(run) && NothingIsWritten(run, at, k) && Untouched(run, at + 1, k) ==>
              (run.states[k].blueprint == Some(run.events[at].blueprint) <==> NoLoadArrives(run, at + 1, k))
    ensures (forall i :: 0 <= i < r && run.events[i].LoadStarts? ==> run.events[i].path != run.events[r].path) ==>
              (run.states[k].path == Some(run.events[r].path) <==> NoLoadArrives(run, at + 1, k))
  {
    var last := LastArrival(run, at, k);
    LastResponseWins(run, last, k);
    if NothingIsWritten(run, at, k) {
      LastResponseIsBaseline(run, last, k);
    }
    if last > at {
      var older := run.events[last].requestAt;
      assert older < last && run.events[older].LoadStarts? && older != r;
      assert older < r;
    }
  }

  lemma {:induction false} LastArrival(run: Run, at: nat, k: nat) returns (last: nat)
    requires at < k <= |run.events| && run.events[at].LoadArrives?
    ensures at <= last < k && run.events[last].LoadArrives? && NoLoadArrives(run, last + 1, k)
  {
    if run.events[k - 1].LoadArrives? {
      last := k - 1;
    } else {
      last := LastArrival(run, at, k - 1);
    }
  }

  /** The counters that tell one content of the open automation from another. */
  predicate SameRevision(s: Store, t: Store) {
    s.identityRevision == t.identityRevision && s.editRevision == t.editRevision
  }

  /** The diagnostics a validation brings belong to the shown revision iff the same
      automation stayed open and nobody edited or discarded since the request; the
      response takes effect either way. */
  lemma ValidationIsCurrentIffUntouched(run: Run, at: nat)
    requires IsRun(run) && at < |run.events| && AnswersValidate(run, at)
    ensures var requestAt := run.events[at].requestAt;
            && (SameRevision(run.states[requestAt], run.states[at])
                <==> ResourceKept(run, requestAt, at) && Untouched(run, requestAt, at))
            && (SameRevision(run.states[requestAt], run.states[at]) ==>
                  run.states[at + 1].blueprint == run.states[requestAt].blueprint)
            && run.states[at + 1].diagnostics == run.events[at].diagnostics
  {
    CountersTrackHistory(run, run.events[at].requestAt, at);
    assert Steps(run, at);
  }

  // ----- runs in which they do harm -----

  /** The automation requested first ends up open, because its response is late. */
  lemma OlderLoadCanWin(first: string, second: string, a: Blueprint, b: Blueprint) returns (run: Run)
    requires first != second
    ensures IsRun(run) && AnsweredOnce(run) && |run.events| == 4 && LastRequest(run, 1, 2, 4)
    ensures run.events[1] == LoadStarts(second) && run.states[4].path == Some(first) && run.states[4].blueprint == Some(a)
  {
    var loaded := Loaded(InitialStore, second, b, []);
    run := Run([InitialStore, InitialStore, InitialStore, loaded, Loaded(loaded, first, a, [])],
               [LoadStarts(first), LoadStarts(second), LoadArrives(1, b, []), LoadArrives(0, a, [])]);
  }

  /** The diagnostics of one blueprint are shown beside another. */
  lemma OlderValidationCanWin(a: Blueprint, b: Blueprint, found: Diagnostics) returns (run: Run)
    ensures IsRun(run) && |run.events| == 4 && AnswersValidate(run, 3)
    ensures run.states[run.events[3].requestAt].blueprint == Some(a)
    ensures run.states[4].blueprint == Some(b) && run.states[4].diagnostics == found
  {
    var started := Initialized(InitialStore, a);
    var edited := Edited(started, b);
    run := Run([InitialStore, started, started, edited, edited.(diagnostics := found)],
               [Initializes(a), ValidateStarts, Edits(b), ValidateArrives(1, found)]);
  }
}
