/** The committing step of a load, and with it the invariant of the whole queue
    protocol. */
module QueueLoad {
  import opened Common
  import opened QueueMerge
  import opened QueueStore
  import opened QueueProtocol
  import opened QueueInvariant
  import opened QueueSteps

  /** A load is about to commit: nothing is chained and nothing happened since it
      began. Whether the store agreed with the file before does not matter. */
  ghost predicate CommitReady(s: State) {
    && s.local.load.AwaitingLists? && s.local.load.revision == s.local.revision
    && StoredSane(s) && LoadSound(s) && RecordsAreUnique(s)
  }

  function PersistedOf(s: State, at: int): Items
    requires s.local.load.AwaitingLists?
  {
    Unexpired(s.local.load.raw, at - MaxAge)
  }

  /** An unexpired record that the load reads is the file's own. */
  lemma PersistedIsFile(s: State, at: int, id: Id)
    requires CommitReady(s)
    ensures Settled(s, id).item == At(s.file, id)
    ensures id in PersistedOf(s, at) ==>
              id in s.file && PersistedOf(s, at)[id] == s.file[id] && SaneItem(id, s.file[id])
              && !(id.NoticeId? && s.file[id].dismissed)
    ensures !id.NoticeId? && id in s.file && s.file[id].timestamp > at - MaxAge ==> id in PersistedOf(s, at)
  {
    assert ReadAgrees(At(s.local.load.raw, id), At(s.file, id), id);
    assert SaneCell(id, CellOf(s.file, s.base, id));
  }

  /** Where an item of a committed load comes from. */
  lemma LoadedFrom(persisted: Items, listing: Listing, id: Id)
    ensures var items := LoadedItems(persisted, listing);
            var reconciled := Reconciled(listing.terminals, RunsOf(persisted));
            && (id in persisted && IsLegacy(persisted[id]) ==> id in items && items[id] == persisted[id])
            && (id in items && !(id in persisted && IsLegacy(persisted[id])) ==>
                  || (id in reconciled && items[id] == reconciled[id])
                  || (id.NotificationId? && items[id].inbox == Some(id.notification)
                      && (items[id].kind.AgentUpdate? || items[id].kind.ApprovalRequest?)
                      && items[id].id == id && !items[id].dismissed && items[id].approval.None?)
                  || (id.ApprovalId? && items[id].approval.Some? && items[id].inbox.None?
                      && items[id].kind.ApprovalRequest? && items[id].id == id && !items[id].dismissed))
  {
    hide Reconciled, RunsOf;
  }

  lemma ReconciledIs(terminals: map<Pair, int>, known: set<Pair>, id: Id)
    requires forall p :: p in terminals ==> p.0 != "" && p.1 != ""
    ensures id in Reconciled(terminals, known) ==>
              && id.CompletionId? && id.pair in terminals && id.pair !in known
              && Reconciled(terminals, known)[id] == TerminalItem(id.pair, terminals[id.pair])
              && KeyOf(Reconciled(terminals, known)[id]) == Some(id.pair)
  {}

  lemma KnownRun(persisted: Items, id: Id)
    requires id in persisted && SaneItem(id, persisted[id]) && KeyOf(persisted[id]).Some?
    ensures KeyOf(persisted[id]).value in RunsOf(persisted)
  {
    var plain := map id | id in persisted && persisted[id].inbox.None? && persisted[id].approval.None? :: persisted[id];
    assert id in plain;
  }

  ghost predicate PersistedSane(persisted: Items) {
    forall id :: id in persisted ==> PersistedItemSane(id, persisted[id])
  }

  predicate PersistedItemSane(id: Id, item: QueueItem) {
    SaneItem(id, item) && !(id.NoticeId? && item.dismissed)
  }

  ghost predicate KeysAreUnique(items: Items) {
    forall i, j :: i in items && j in items && KeyOf(items[i]).Some? && KeyOf(items[i]) == KeyOf(items[j]) ==> i == j
  }

  predicate ListsRuns(listing: Listing) {
    forall p :: p in listing.terminals ==> p.0 != "" && p.1 != ""
  }

  lemma LoadedItemIsSane(persisted: Items, listing: Listing, id: Id)
    requires PersistedSane(persisted) && ListsRuns(listing)
    requires id in LoadedItems(persisted, listing)
    ensures LocalItemSane(id, LoadedItems(persisted, listing)[id])
  {
    hide LoadedItems, Reconciled, RunsOf;
    assert id in persisted ==> PersistedItemSane(id, persisted[id]);
    LoadedFrom(persisted, listing, id);
    ReconciledIs(listing.terminals, RunsOf(persisted), id);
  }

  /** A keyed item of a committed load is the file's record of its run, or a listed
      run that the file does not know. */
  predicate ComesFrom(persisted: Items, known: set<Pair>, id: Id, item: QueueItem)
    requires KeyOf(item).Some?
  {
    || (id in persisted && IsLegacy(persisted[id]) && item == persisted[id] && KeyOf(item).value in known)
    || (id == CompletionId(KeyOf(item).value) && KeyOf(item).value !in known)
  }

  lemma LoadedKey(persisted: Items, listing: Listing, id: Id)
    requires PersistedSane(persisted) && ListsRuns(listing)
    requires id in LoadedItems(persisted, listing) && KeyOf(LoadedItems(persisted, listing)[id]).Some?
    ensures ComesFrom(persisted, RunsOf(persisted), id, LoadedItems(persisted, listing)[id])
  {
    hide LoadedItems, Reconciled, RunsOf;
    LoadedFrom(persisted, listing, id);
    ReconciledIs(listing.terminals, RunsOf(persisted), id);
    if id in persisted && IsLegacy(persisted[id]) {
      assert PersistedItemSane(id, persisted[id]);
      KnownRun(persisted, id);
    }
  }

  lemma LoadedRunsAreUnique(persisted: Items, listing: Listing, order: seq<Pair>)
    requires PersistedSane(persisted) && KeysAreUnique(persisted) && ListsRuns(listing)
    requires Lists(order, DismissedOf(persisted))
    ensures RunsAreUnique(LoadedItems(persisted, listing), order)
  {
    hide LoadedItems, RunsOf, DismissedOf;
    var items := LoadedItems(persisted, listing);
    forall i, j | i in items && j in items && KeyOf(items[i]).Some? && KeyOf(items[i]) == KeyOf(items[j])
      ensures i == j
    {
      LoadedKey(persisted, listing, i);
      LoadedKey(persisted, listing, j);
    }
    forall p | p in order
      ensures p.0 != "" && p.1 != ""
      ensures forall i :: i in items ==> KeyOf(items[i]) != Some(p)
    {
      DismissedRunIsNotLoaded(persisted, listing, p);
    }
  }

  lemma DismissedRunIsNotLoaded(persisted: Items, listing: Listing, p: Pair)
    requires PersistedSane(persisted) && KeysAreUnique(persisted) && ListsRuns(listing)
    requires p in DismissedOf(persisted)
    ensures p.0 != "" && p.1 != ""
    ensures var items := LoadedItems(persisted, listing); forall i :: i in items ==> KeyOf(items[i]) != Some(p)
  {
    hide LoadedItems, RunsOf;
    var items := LoadedItems(persisted, listing);
    var d :| d in persisted && persisted[d].dismissed && KeyOf(persisted[d]) == Some(p);
    assert PersistedItemSane(d, persisted[d]);
    KnownRun(persisted, d);
    forall i | i in items
      ensures KeyOf(items[i]) != Some(p)
    {
      if KeyOf(items[i]).Some? {
        LoadedKey(persisted, listing, i);
      }
    }
  }

  lemma PersistedIsSane(s: State, at: int)
    requires CommitReady(s)
    ensures PersistedSane(PersistedOf(s, at)) && KeysAreUnique(PersistedOf(s, at))
  {
    var persisted := PersistedOf(s, at);
    hide CommitReady, PersistedOf, Settled;
    forall id | id in persisted
      ensures PersistedItemSane(id, persisted[id]) && KeyAt(Settled(s, id).item) == KeyOf(persisted[id])
    {
      PersistedIsFile(s, at, id);
    }
    assert RecordsAreUnique(s) by {
      ReadyRecordsAreUnique(s);
    }
  }

  lemma ReadyRecordsAreUnique(s: State)
    requires CommitReady(s)
    ensures RecordsAreUnique(s)
  {}

  // ----- the commit -----

  function Committed(s: State, items: Items, readIds: set<string>, dismissed: seq<Pair>, at: int): State {
    s.(local := s.local.(load := Idle, items := items, readIds := readIds, dismissed := dismissed),
       cutoff := at - MaxAge)
  }

  lemma CommitIs(s: State, listing: Listing, order: seq<Pair>, at: int)
    requires CommitReady(s) && Enabled(s, FinishLoad(listing, order, at))
    ensures Lists(order, DismissedOf(PersistedOf(s, at)))
    ensures var persisted := PersistedOf(s, at);
            var items, readIds := LoadedItems(persisted, listing), Acknowledged(persisted);
            var quiet := Committed(s, items, readIds, order, at);
            Next(s, FinishLoad(listing, order, at))
            == if Reconciled(listing.terminals, RunsOf(persisted)).Keys == {} then quiet
               else quiet.(local := quiet.local.(chain := s.local.chain + [SaveItems(SavedForm(items, readIds, order, s.now))]))
  {
    hide LoadedItems, Reconciled, RunsOf, DismissedOf, Acknowledged, SavedForm, Unexpired, Lists;
  }

  lemma CommitEstablishesInv(s: State, listing: Listing, order: seq<Pair>, at: int)
    requires CommitReady(s) && Enabled(s, FinishLoad(listing, order, at))
    ensures Inv(Next(s, FinishLoad(listing, order, at)))
  {
    hide LoadedItems, Reconciled, RunsOf, DismissedOf, Acknowledged, SavedForm, RunsAreUnique, PersistedOf;
    var s' := Next(s, FinishLoad(listing, order, at));
    var persisted := PersistedOf(s, at);
    var items := LoadedItems(persisted, listing);
    CommitIs(s, listing, order, at);
    assert ListsRuns(listing);
    hide Next;
    PersistedIsSane(s, at);
    LoadedRunsAreUnique(persisted, listing, order);
    forall id | id in items
      ensures LocalItemSane(id, items[id])
    {
      LoadedItemIsSane(persisted, listing, id);
    }
    if Reconciled(listing.terminals, RunsOf(persisted)).Keys == {} {
      UnsavedCommitAgrees(s, listing, order, at, s');
    } else {
      assert s.(local := s.local.(chain := s.local.chain)) == s;
      SavingSettles(s, s.local.chain, s');
    }
  }

  ghost predicate LeavesQuietly(s: State, listing: Listing, order: seq<Pair>, at: int, s': State)
    requires s.local.load.AwaitingLists?
  {
    var persisted := PersistedOf(s, at);
    && ListsRuns(listing)
    && Reconciled(listing.terminals, RunsOf(persisted)).Keys == {}
    && Lists(order, DismissedOf(persisted))
    && s' == Committed(s, LoadedItems(persisted, listing), Acknowledged(persisted), order, at)
  }

  lemma QuietSettles(s: State, listing: Listing, order: seq<Pair>, at: int, s': State, id: Id)
    requires CommitReady(s) && LeavesQuietly(s, listing, order, at, s')
    ensures Settled(s', id) == Settled(s, id)
  {
    hide LoadedItems, RunsOf, PersistedOf, Reconciled, Acknowledged, DismissedOf;
    assert CellOf(s'.file, s'.base, id) == CellOf(s.file, s.base, id);
  }

  lemma QuietlyLoadedItem(persisted: Items, listing: Listing, id: Id)
    requires Reconciled(listing.terminals, RunsOf(persisted)).Keys == {}
    ensures var items := LoadedItems(persisted, listing);
            && (id in items && (IsLegacy(items[id]) || id.NoticeId?) ==> id in persisted && items[id] == persisted[id])
            && (id in persisted && IsLegacy(persisted[id]) ==> id in items)
  {
    hide LoadedItems, RunsOf, Reconciled;
    LoadedFrom(persisted, listing, id);
  }

  lemma QuietFields(s: State, listing: Listing, order: seq<Pair>, at: int, s': State)
    requires s.local.load.AwaitingLists? && LeavesQuietly(s, listing, order, at, s')
    ensures s'.local.items == LoadedItems(PersistedOf(s, at), listing) && s'.cutoff == at - MaxAge
    ensures Reconciled(listing.terminals, RunsOf(PersistedOf(s, at))).Keys == {}
  {
    hide LoadedItems, PersistedOf, RunsOf, Reconciled, Acknowledged, DismissedOf, Lists;
  }

  lemma UnsavedAgreesAt(s: State, listing: Listing, order: seq<Pair>, at: int, s': State, id: Id)
    requires CommitReady(s) && LeavesQuietly(s, listing, order, at, s')
    ensures AgreesAt(s', id)
  {
    hide LoadedItems, PersistedOf, RunsOf, Settled, SaneItem, Reconciled, LeavesQuietly, StoredSane, LoadSound,
      RecordsAreUnique;
    QuietFields(s, listing, order, at, s');
    QuietlyLoadedItem(PersistedOf(s, at), listing, id);
    QuietSettles(s, listing, order, at, s', id);
    PersistedIsFile(s, at, id);
    hide CommitReady;
  }

  lemma UnsavedReadIsSaved(s: State, listing: Listing, order: seq<Pair>, at: int, s': State, n: string)
    requires CommitReady(s) && LeavesQuietly(s, listing, order, at, s')
    ensures ReadIsSaved(s', n)
  {
    var persisted := PersistedOf(s, at);
    assert s'.local.readIds == Acknowledged(persisted);
    hide LoadedItems, CommitReady, Settled, PersistedOf, Reconciled, LeavesQuietly;
    if n in Acknowledged(persisted) {
      var id :| id in persisted && IsReadUpdate(persisted[id]) && persisted[id].inbox.value == n;
      QuietSettles(s, listing, order, at, s', id);
      PersistedIsFile(s, at, id);
      assert IsReadRecordOf(Settled(s', id).item, n);
    }
  }

  lemma UnsavedDismissalIsSaved(s: State, listing: Listing, order: seq<Pair>, at: int, s': State, p: Pair)
    requires CommitReady(s) && LeavesQuietly(s, listing, order, at, s')
    ensures DismissalIsSaved(s', p)
  {
    var persisted := PersistedOf(s, at);
    assert s'.local.dismissed == order;
    hide LoadedItems, CommitReady, Settled, PersistedOf, Reconciled, LeavesQuietly;
    if p in order {
      var id :| id in persisted && persisted[id].dismissed && KeyOf(persisted[id]) == Some(p);
      QuietSettles(s, listing, order, at, s', id);
      PersistedIsFile(s, at, id);
      assert IsDismissalOf(Settled(s', id).item, p);
    }
  }

  lemma UnsavedCommitAgrees(s: State, listing: Listing, order: seq<Pair>, at: int, s': State)
    requires CommitReady(s) && LeavesQuietly(s, listing, order, at, s')
    ensures StoredSane(s') && Agreement(s')
  {
    ReadyRecordsAreUnique(s);
    assert StoredSane(s') by {
      StoredDependsOn(s, s');
    }
    hide LeavesQuietly, CommitReady, AgreesAt, ReadIsSaved, Settled, StoredSane;
    forall id
      ensures AgreesAt(s', id) && Settled(s', id) == Settled(s, id)
    {
      UnsavedAgreesAt(s, listing, order, at, s', id);
      QuietSettles(s, listing, order, at, s', id);
    }
    forall n
      ensures ReadIsSaved(s', n)
    {
      UnsavedReadIsSaved(s, listing, order, at, s', n);
    }
  }

  lemma FinishLoadKeepsInv(s: State, listing: Listing, order: seq<Pair>, at: int)
    requires Inv(s) && Enabled(s, FinishLoad(listing, order, at))
    ensures Inv(Next(s, FinishLoad(listing, order, at)))
  {
    if s.local.load.revision == s.local.revision {
      CommitEstablishesInv(s, listing, order, at);
    } else {
      QuietStepKeepsInv(s, Next(s, FinishLoad(listing, order, at)));
    }
  }

  /** Every step keeps the invariant. */
  lemma StepKeepsInv(s: State, a: Action)
    requires Inv(s) && Enabled(s, a)
    ensures Inv(Next(s, a))
  {
    hide Agreement, StoredSane, LocalSane, RunsAreUnique;
    match a
    case AddCompletion(automation, run, newId) => AddCompletionKeepsInv(s, automation, run, newId);
    case Dismiss(id) => DismissKeepsInv(s, id);
    case ClearRead(order) => DiscardKeepsInv(s, ClearedIds(s.local.items), order);
    case MarkRead(id) => MarkReadKeepsInv(s, id);
    case MarkAllRead => MarkAllReadKeepsInv(s);
    case NeedAction(newId) => NeedActionKeepsInv(s, newId);
    case RecordChoice(id, choice) => RecordChoiceKeepsInv(s, id, choice);
    case ApplyNotice(item) => ApplyNoticeKeepsInv(s, item);
    case LoadMore(page, readIds) => LoadMoreKeepsInv(s, page, readIds);
    case StartLoad => QuietStepKeepsInv(s, Next(s, a));
    case FinishSaves => QuietStepKeepsInv(s, Next(s, a));
    case ReadFile => ReadFileKeepsInv(s);
    case FinishLoad(listing, order, at) => FinishLoadKeepsInv(s, listing, order, at);
    case RunCall => RunCallKeepsInv(s);
    case WriteNotice(item) => WriteNoticeKeepsInv(s, item);
    case Tick(now) =>
      LoadStaysSound(s, Next(s, a));
      QuietStepKeepsInv(s, Next(s, a));
  }
}
