/** The builder's fields in terms of what has happened: which event set the path, the
    baseline, the dirty flag and the diagnostics that are shown. */
module BuilderHistory {
  import opened Common
  import opened BuilderStore

  /** The save request found something to write and somewhere to write it. */
  ghost predicate AsksForSave(run: Run, r: nat)
    requires WellShaped(run) && r < |run.events|
  {
    && run.events[r] == SaveStarts && run.states[r].blueprint.Some?
    && run.states[r].path.Some? && |run.states[r].path.value| > 0
  }

  /** The save response reaches the automation it was asked for. */
  ghost predicate SavesHere(run: Run, k: nat)
    requires WellShaped(run) && k < |run.events|
  {
    && run.events[k].SaveArrives? && run.events[k].requestAt < k
    && AsksForSave(run, run.events[k].requestAt)
    && ResourceKept(run, run.events[k].requestAt, k)
  }

  /** An empty builder is initialised. */
  ghost predicate BeginsHere(run: Run, k: nat)
    requires WellShaped(run) && k < |run.events|
  {
    run.events[k].Initializes? && run.states[k].blueprint == None
  }

  ghost predicate CleansAt(run: Run, k: nat)
    requires WellShaped(run) && k < |run.events|
  {
    || run.events[k].LoadArrives? || run.events[k].Discards? || run.events[k].Resets? || BeginsHere(run, k)
    || (SavesHere(run, k) && run.events[k].written && Untouched(run, run.events[k].requestAt, k))
  }

  ghost predicate DirtiesAt(run: Run, k: nat)
    requires WellShaped(run) && k < |run.events|
  {
    || run.events[k].Edits?
    || (SavesHere(run, k) && !(run.events[k].written && Untouched(run, run.events[k].requestAt, k)))
  }

  ghost predicate PathFollows(run: Run, k: nat)
    requires WellShaped(run) && k < |run.events|
  {
    var e, s, s' := run.events[k], run.states[k], run.states[k + 1];
    if e.LoadArrives? then
      && e.requestAt < k && run.events[e.requestAt].LoadStarts?
      && s'.path == Some(run.events[e.requestAt].path)
    else s'.path == if e.Resets? then None else s.path
  }

  ghost predicate BlueprintFollows(run: Run, k: nat)
    requires WellShaped(run) && k < |run.events|
  {
    var e, s, s' := run.events[k], run.states[k], run.states[k + 1];
    if e.LoadArrives? then s'.blueprint == Some(e.blueprint)
    else if e.Edits? then s'.blueprint == Some(e.blueprint)
    else if BeginsHere(run, k) then s'.blueprint == Some(e.blueprint)
    else if e.Discards? then s'.blueprint == s.baseline
    else if e.Resets? then s'.blueprint == None
    else s'.blueprint == s.blueprint
  }

  ghost predicate BaselineFollows(run: Run, k: nat)
    requires WellShaped(run) && k < |run.events|
  {
    var e, s, s' := run.events[k], run.states[k], run.states[k + 1];
    if e.LoadArrives? then
      s'.baseline == Some(e.blueprint) && s'.baselineDiagnostics == e.diagnostics
    else if BeginsHere(run, k) then
      s'.baseline == Some(e.blueprint) && s'.baselineDiagnostics == []
    else if SavesHere(run, k) && e.written then
      s'.baseline == run.states[e.requestAt].blueprint && s'.baselineDiagnostics == e.diagnostics
    else if e.Resets? then
      s'.baseline == None && s'.baselineDiagnostics == []
    else
      s'.baseline == s.baseline && s'.baselineDiagnostics == s.baselineDiagnostics
  }

  ghost predicate DiagnosticsFollow(run: Run, k: nat)
    requires WellShaped(run) && k < |run.events|
  {
    var e, s, s' := run.events[k], run.states[k], run.states[k + 1];
    if e.LoadArrives? then s'.diagnostics == e.diagnostics
    else if e.ValidateArrives? then s'.diagnostics == e.diagnostics
    else if SavesHere(run, k) then s'.diagnostics == e.diagnostics
    else if e.Discards? then s'.diagnostics == s.baselineDiagnostics
    else if e.Resets? then s'.diagnostics == []
    else s'.diagnostics == s.diagnostics
  }

  ghost predicate DirtyFollows(run: Run, k: nat)
    requires WellShaped(run) && k < |run.events|
  {
    && (CleansAt(run, k) ==> !run.states[k + 1].dirty)
    && (DirtiesAt(run, k) ==> run.states[k + 1].dirty)
    && (!CleansAt(run, k) && !DirtiesAt(run, k) ==> (run.states[k + 1].dirty <==> run.states[k].dirty))
  }

  /** A change of any kind counts; opening starts the edits anew under a new identity. */
  ghost predicate RevisionsFollow(run: Run, k: nat)
    requires WellShaped(run) && k < |run.events|
  {
    var e, s, s' := run.events[k], run.states[k], run.states[k + 1];
    var opens := e.LoadArrives? || e.Resets? || BeginsHere(run, k);
    && s'.editRevision == (if opens then 0 else if e.Edits? || e.Discards? then s.editRevision + 1 else s.editRevision)
    && s'.resourceRevision == (if opens || e.Edits? || e.Discards? || SavesHere(run, k)
                               then s.resourceRevision + 1 else s.resourceRevision)
    && s'.identityRevision == (if opens || (e.Edits? && IdOf(s.blueprint) != Some(e.blueprint.id))
                               then s.identityRevision + 1 else s.identityRevision)
  }

  /** A save response answers a request iff there was something to write and somewhere to
      write it, and it remembers what was shown then. */
  lemma SaveIsAskedFor(run: Run, at: nat)
    requires WellShaped(run) && at < |run.events| && run.events[at].SaveArrives?
    ensures var r := run.events[at].requestAt;
            && (AnswersSave(run, at) <==> r < at && AsksForSave(run, r))
            && (AnswersSave(run, at) ==>
                  Some(Pending(run, r).blueprint) == run.states[r].blueprint && Some(Pending(run, r).path) == run.states[r].path)
  {}

  /** Each field follows the events that concern it, and a save response counts iff the
      automation it was asked for stayed open. */
  lemma FieldsFollowEvents(run: Run, k: nat)
    requires IsRun(run) && k < |run.events|
    ensures PathFollows(run, k) && BlueprintFollows(run, k) && BaselineFollows(run, k)
    ensures DiagnosticsFollow(run, k) && DirtyFollows(run, k) && RevisionsFollow(run, k)
  {
    assert Steps(run, k);
    if run.events[k].SaveArrives? {
      ResponseIsAcceptedIffResourceKept(run, k);
      SaveSucceedsIffUntouched(run, k);
      hide ResourceKept, Untouched, IsRun;
    } else {
      hide ResourceKept, Untouched, IsRun;
    }
  }

  /** The store is dirty iff the last event that cleans or dirties it dirties it: an edit,
      or a save that was not written or was overtaken by an edit or a discard. */
  lemma {:induction false} DirtyIffLastDirties(run: Run, k: nat)
    requires IsRun(run) && k < |run.states|
    ensures run.states[k].dirty <==>
      exists j: nat :: j < k && DirtiesAt(run, j) && forall i :: j < i < k ==> !CleansAt(run, i)
  {
    hide DirtiesAt, CleansAt, Steps;
    if k > 0 {
      DirtyIffLastDirties(run, k - 1);
      FieldsFollowEvents(run, k - 1);
      NotBoth(run, k - 1);
      hide IsRun;
      if !DirtiesAt(run, k - 1) && run.states[k].dirty {
        var j: nat :| j < k - 1 && DirtiesAt(run, j) && forall i :: j < i < k - 1 ==> !CleansAt(run, i);
        assert forall i :: j < i < k ==> !CleansAt(run, i);
      }
    } else {
      StartsClean(run);
    }
  }

  lemma StartsClean(run: Run)
    requires IsRun(run)
    ensures !run.states[0].dirty && run.states[0].blueprint.None? && run.states[0].path.None?
  {}

  lemma NotBoth(run: Run, k: nat)
    requires WellShaped(run) && k < |run.events|
    ensures !(CleansAt(run, k) && DirtiesAt(run, k))
  {
    hide SavesHere, Untouched;
    SavesArrive(run, k);
  }

  lemma SavesArrive(run: Run, k: nat)
    requires WellShaped(run) && k < |run.events|
    ensures SavesHere(run, k) ==> run.events[k].SaveArrives?
  {}
}
