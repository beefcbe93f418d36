/** What the queue promises over whole runs from a committed load on: loads lose no
    local change, and each automation run is shown once at most and not again
    after it was dismissed. */
module QueueTheorems {
  import opened Common
  import opened QueueMerge
  import opened QueueStore
  import opened QueueProtocol
  import opened QueueInvariant
  import opened QueueSteps
  import opened QueueLoad

  // ----- runs -----

  /** A run begins with a load that commits, to whatever the store shows by then. */
  ghost predicate Started(s: State) {
    exists before, listing, order, at ::
      && CommitReady(before) && Enabled(before, FinishLoad(listing, order, at))
      && s == Next(before, FinishLoad(listing, order, at))
  }

  datatype Run = Run(states: seq<State>, actions: seq<Action>)

  ghost predicate StepsTo(s: State, a: Action, s': State) {
    Enabled(s, a) && s' == Next(s, a)
  }

  ghost predicate IsRun(run: Run) {
    && |run.states| == |run.actions| + 1
    && Started(run.states[0])
    && forall k :: 0 <= k < |run.actions| ==> StepsTo(run.states[k], run.actions[k], run.states[k + 1])
  }

  lemma {:induction false} RunKeepsInv(run: Run, k: nat)
    requires IsRun(run) && k < |run.states|
    ensures Inv(run.states[k])
  {
    hide Inv, Next, Enabled, CommitReady;
    if k == 0 {
      var before, listing, order, at :|
        && CommitReady(before) && Enabled(before, FinishLoad(listing, order, at))
        && run.states[0] == Next(before, FinishLoad(listing, order, at));
      CommitEstablishesInv(before, listing, order, at);
    } else {
      RunKeepsInv(run, k - 1);
      assert StepsTo(run.states[k - 1], run.actions[k - 1], run.states[k]);
      StepKeepsInv(run.states[k - 1], run.actions[k - 1]);
    }
  }

  /** At every moment each automation run has one completion at most, and none when
      it counts as dismissed. */
  lemma OneCompletionPerRun(run: Run, k: nat)
    requires IsRun(run) && k < |run.states|
    ensures RunsAreUnique(run.states[k].local.items, run.states[k].local.dismissed)
  {
    RunKeepsInv(run, k);
    hide IsRun;
  }

  // ----- no local change is lost -----

  /** A saved item that is not expired is in the committed load, still read. */
  predicate ItemSurvives(s: State, s': State, at: int, id: Id) {
    id in s.local.items && IsLegacy(s.local.items[id]) && !id.NoticeId? && s.local.items[id].timestamp > at - MaxAge ==>
      id in s'.local.items && SameRecord(s.local.items[id], s'.local.items[id])
  }

  /** An item that was removed does not return, but for runs the backend lists and
      the file has no unexpired record of. */
  predicate NothingReturns(s: State, s': State, listing: Listing, id: Id) {
    id in s'.local.items && IsLegacy(s'.local.items[id]) && !id.NoticeId? ==>
      || id in s.local.items
      || (id.CompletionId? && id.pair in listing.terminals && id.pair !in s'.local.dismissed)
  }

  /** A provider notice stays, still read, unless it is expired or dismissed. */
  predicate NoticeSurvives(s: State, s': State, at: int, id: Id) {
    id.NoticeId? && id in s.local.items ==>
      && id in s.file
      && (s.file[id].dismissed ==> id !in s'.local.items)
      && (!s.file[id].dismissed && s.file[id].timestamp > at - MaxAge ==>
            id in s'.local.items && (s.local.items[id].read ==> s'.local.items[id].read))
  }

  /** An acknowledged notification has its record on disk, and any fresh record keeps
      it acknowledged. */
  ghost predicate ReadSurvives(s: State, s': State, at: int, n: string) {
    && (n in s.local.readIds ==> exists id :: IsReadRecordOf(At(s.file, id), n))
    && (forall id :: IsReadRecordOf(At(s.file, id), n) && s.file[id].timestamp > at - MaxAge ==> n in s'.local.readIds)
  }

  /** Any fresh marker on disk keeps its run dismissed. */
  ghost predicate MarkersCount(s: State, s': State, at: int, p: Pair) {
    forall id :: IsDismissalOf(At(s.file, id), p) && s.file[id].timestamp > at - MaxAge ==> p in s'.local.dismissed
  }

  ghost predicate NothingIsLost(s: State, s': State, listing: Listing, at: int) {
    && (forall id :: ItemSurvives(s, s', at, id) && NothingReturns(s, s', listing, id) && NoticeSurvives(s, s', at, id))
    && (forall n :: ReadSurvives(s, s', at, n))
    && (forall p :: MarkersCount(s, s', at, p))
  }

  /** A committed load agrees with every mutation issued before its commit. A load
      that a mutation overtakes leaves the store as it is. */
  lemma NoLocalChangeIsLost(run: Run, k: nat)
    requires IsRun(run) && k < |run.actions| && run.actions[k].FinishLoad?
    ensures var s, s', a := run.states[k], run.states[k + 1], run.actions[k];
            if LoadCommits(s.local) then NothingIsLost(s, s', a.listing, a.at)
            else s'.local == s.local.(load := Idle)
  {
    RunKeepsInv(run, k);
    var s, s', a := run.states[k], run.states[k + 1], run.actions[k];
    assert StepsTo(s, a, s');
    hide IsRun;
    if LoadCommits(s.local) {
      CommitLosesNothing(s, s', a.listing, a.order, a.at);
    }
  }

  /** The committing step, as far as the store's own memory goes. */
  ghost predicate CommitsTo(s: State, s': State, listing: Listing, order: seq<Pair>, at: int)
    requires s.local.load.AwaitingLists?
  {
    && s.local.load.since <= at <= s.now && ListsRuns(listing)
    && s'.local.items == LoadedItems(PersistedOf(s, at), listing)
    && s'.local.readIds == Acknowledged(PersistedOf(s, at))
    && s'.local.dismissed == order && Lists(order, DismissedOf(PersistedOf(s, at)))
  }

  lemma CommitStepCommits(s: State, listing: Listing, order: seq<Pair>, at: int)
    requires CommitReady(s) && Enabled(s, FinishLoad(listing, order, at))
    ensures CommitsTo(s, Next(s, FinishLoad(listing, order, at)), listing, order, at)
  {
    hide LoadedItems, PersistedOf, Acknowledged, DismissedOf, Reconciled, RunsOf, SavedForm;
    CommitIs(s, listing, order, at);
    hide Next, CommitReady;
  }

  lemma CommitLosesNothing(s: State, s': State, listing: Listing, order: seq<Pair>, at: int)
    requires Inv(s) && StepsTo(s, FinishLoad(listing, order, at), s') && LoadCommits(s.local)
    ensures NothingIsLost(s, s', listing, at)
  {
    hide Settled, ItemSurvives, NothingReturns, NoticeSurvives, ReadSurvives, MarkersCount, Inv, CommitReady,
         CommitsTo, Next;
    InvGivesReady(s);
    CommitStepCommits(s, listing, order, at);
    forall id
      ensures ItemSurvives(s, s', at, id) && NothingReturns(s, s', listing, id) && NoticeSurvives(s, s', at, id)
    {
      CommitKeepsItem(s, s', listing, order, at, id);
      CommitRestoresNothing(s, s', listing, order, at, id);
      CommitKeepsNotice(s, s', listing, order, at, id);
    }
    forall n
      ensures ReadSurvives(s, s', at, n)
    {
      CommitKeepsRead(s, s', listing, order, at, n);
    }
    forall p
      ensures MarkersCount(s, s', at, p)
    {
      CommitCountsMarkers(s, s', listing, order, at, p);
    }
  }

  lemma InvGivesReady(s: State)
    requires Inv(s) && s.local.load.AwaitingLists? && LoadCommits(s.local)
    ensures CommitReady(s)
  {}

  /** The invariant at one id, at the moment of a commit. */
  lemma AtCommit(s: State, id: Id)
    requires Inv(s) && s.local.load.AwaitingLists? && LoadCommits(s.local)
    ensures AgreesAt(s, id) && NoticeWasRead(s, s.local.load.raw, id)
    ensures ReadAgrees(At(s.local.load.raw, id), At(s.file, id), id)
    ensures s.cutoff + MaxAge <= s.local.load.since
  {}

  lemma CommitKeepsItem(s: State, s': State, listing: Listing, order: seq<Pair>, at: int, id: Id)
    requires Inv(s) && s.local.load.AwaitingLists? && LoadCommits(s.local) && CommitsTo(s, s', listing, order, at)
    ensures ItemSurvives(s, s', at, id)
  {
    hide Inv, LoadedItems, PersistedOf, Settled, SaneItem, CommitReady, Acknowledged, DismissedOf;
    InvGivesReady(s);
    AtCommit(s, id);
    PersistedIsFile(s, at, id);
    var persisted := PersistedOf(s, at);
    assert id in persisted && IsLegacy(persisted[id]) ==> id in s'.local.items && s'.local.items[id] == persisted[id] by {
      LoadedFrom(persisted, listing, id);
    }
  }

  lemma CommitRestoresNothing(s: State, s': State, listing: Listing, order: seq<Pair>, at: int, id: Id)
    requires Inv(s) && s.local.load.AwaitingLists? && LoadCommits(s.local) && CommitsTo(s, s', listing, order, at)
    ensures NothingReturns(s, s', listing, id)
  {
    hide Inv, LoadedItems, PersistedOf, Settled, SaneItem, CommitReady, Acknowledged, DismissedOf, Reconciled, RunsOf;
    InvGivesReady(s);
    AtCommit(s, id);
    PersistedIsFile(s, at, id);
    var persisted := PersistedOf(s, at);
    PersistedIsFresh(s, at, id);
    LoadedFrom(persisted, listing, id);
    ReconciledIs(listing.terminals, RunsOf(persisted), id);
    if id in Reconciled(listing.terminals, RunsOf(persisted)) {
      UnknownIsNotDismissed(s, at, id.pair);
    }
  }

  lemma PersistedIsFresh(s: State, at: int, id: Id)
    requires s.local.load.AwaitingLists?
    ensures id in PersistedOf(s, at) ==> PersistedOf(s, at)[id].timestamp > at - MaxAge
  {}

  lemma LoadedNotice(persisted: Items, listing: Listing, id: Id)
    requires id.NoticeId? && ListsRuns(listing)
    ensures var items := LoadedItems(persisted, listing);
            && (id in items ==> id in persisted && items[id] == persisted[id])
            && (id in persisted && IsLegacy(persisted[id]) ==> id in items)
  {
    hide LoadedItems, Reconciled, RunsOf;
    LoadedFrom(persisted, listing, id);
    ReconciledIs(listing.terminals, RunsOf(persisted), id);
  }

  lemma CommitKeepsNotice(s: State, s': State, listing: Listing, order: seq<Pair>, at: int, id: Id)
    requires Inv(s) && s.local.load.AwaitingLists? && LoadCommits(s.local) && CommitsTo(s, s', listing, order, at)
    ensures NoticeSurvives(s, s', at, id)
  {
    if id.NoticeId? && id in s.local.items {
      hide Inv, LoadedItems, PersistedOf, Settled, CommitReady, Acknowledged, DismissedOf;
      InvGivesReady(s);
      AtCommit(s, id);
      PersistedIsFile(s, at, id);
      NoticeIsSane(s, id);
      LoadedNotice(PersistedOf(s, at), listing, id);
      if id in s.local.load.raw && s.file[id].timestamp > at - MaxAge {
        ReadNoticeIsPersisted(s, at, id);
      }
      hide CommitsTo;
    }
  }

  lemma NoticeIsSane(s: State, id: Id)
    requires Inv(s) && id in s.file
    ensures SaneItem(id, s.file[id])
  {
    assert SaneCell(id, CellOf(s.file, s.base, id));
  }

  lemma ReadNoticeIsPersisted(s: State, at: int, id: Id)
    requires s.local.load.AwaitingLists? && id in s.local.load.raw
    requires s.local.load.raw[id].timestamp > at - MaxAge && !s.local.load.raw[id].dismissed
    ensures id in PersistedOf(s, at) && PersistedOf(s, at)[id] == s.local.load.raw[id]
  {}

  lemma UnknownIsNotDismissed(s: State, at: int, p: Pair)
    requires CommitReady(s) && p !in RunsOf(PersistedOf(s, at))
    ensures p !in DismissedOf(PersistedOf(s, at))
  {
    var persisted := PersistedOf(s, at);
    hide RunsOf, PersistedOf;
    forall d | d in persisted
      ensures KeyOf(persisted[d]) != Some(p)
    {
      PersistedIsFile(s, at, d);
      if KeyOf(persisted[d]).Some? {
        KnownRun(persisted, d);
      }
    }
  }

  lemma ReadRecord(s: State, n: string) returns (id: Id)
    requires Inv(s) && n in s.local.readIds
    ensures IsReadRecordOf(Settled(s, id).item, n)
  {
    hide Settled, StoredSane, LocalSane, RunsAreUnique, LoadSound, AgreesAt, RecordsAreUnique;
    assert ReadIsSaved(s, n);
    id :| IsReadRecordOf(Settled(s, id).item, n);
  }

  lemma AcknowledgedHas(persisted: Items, id: Id, n: string)
    requires IsReadRecordOf(At(persisted, id), n)
    ensures n in Acknowledged(persisted)
  {}

  lemma CommitKeepsRead(s: State, s': State, listing: Listing, order: seq<Pair>, at: int, n: string)
    requires Inv(s) && s.local.load.AwaitingLists? && LoadCommits(s.local) && CommitsTo(s, s', listing, order, at)
    ensures ReadSurvives(s, s', at, n)
  {
    hide Inv, Settled, CommitReady, PersistedOf, LoadedItems, DismissedOf, Acknowledged, Lists;
    InvGivesReady(s);
    if n in s.local.readIds {
      var id := ReadRecord(s, n);
      PersistedIsFile(s, at, id);
      assert IsReadRecordOf(At(s.file, id), n);
    }
    forall id | IsReadRecordOf(At(s.file, id), n) && s.file[id].timestamp > at - MaxAge
      ensures n in s'.local.readIds
    {
      PersistedIsFile(s, at, id);
      NoticeIsSane(s, id);
      AcknowledgedHas(PersistedOf(s, at), id, n);
    }
  }

  lemma DismissedHas(persisted: Items, id: Id, p: Pair)
    requires IsDismissalOf(At(persisted, id), p)
    ensures p in DismissedOf(persisted)
  {}

  lemma CommitCountsMarkers(s: State, s': State, listing: Listing, order: seq<Pair>, at: int, p: Pair)
    requires Inv(s) && s.local.load.AwaitingLists? && LoadCommits(s.local) && CommitsTo(s, s', listing, order, at)
    ensures MarkersCount(s, s', at, p)
  {
    hide Inv, Settled, CommitReady, PersistedOf, LoadedItems, DismissedOf, Acknowledged;
    InvGivesReady(s);
    forall id | IsDismissalOf(At(s.file, id), p) && s.file[id].timestamp > at - MaxAge
      ensures p in s'.local.dismissed
    {
      PersistedIsFile(s, at, id);
      NoticeIsSane(s, id);
      DismissedHas(PersistedOf(s, at), id, p);
    }
  }
}
