/** Every step of the queue protocol keeps the invariant. */
module QueueSteps {
  import opened Common
  import opened QueueMerge
  import opened QueueStore
  import opened QueueProtocol
  import opened QueueInvariant

  // ----- mutations -----

  /** A mutation keeps the invariant whatever it does to the items, as long as ids
      stay sane and runs unique. `l` is the store after any notice dismissals. */
  lemma MutationKeepsInv(s: State, l: Local, items: Items, readIds: set<string>, dismissed: seq<Pair>)
    requires Inv(s) && l == s.local.(chain := l.chain)
    requires l.chain == s.local.chain || exists op :: SaneOp(op) && l.chain == s.local.chain + [op]
    requires LocalSane(items) && RunsAreUnique(items, dismissed)
    ensures Inv(s.(local := Mutated(l, items, readIds, dismissed, s.now)))
  {
    var s' := s.(local := Mutated(l, items, readIds, dismissed, s.now));
    assert StoredSane(s.(local := s.local.(chain := l.chain))) by {
      assert forall id :: CellOf(s.file, s.base, id) == CellOf(s.(local := s.local.(chain := l.chain)).file, s.base, id);
    }
    SavingSettles(s, l.chain, s');
    hide SavedForm, StoredSane, Agreement, LocalSane, RunsAreUnique;
    assert LoadSound(s');
  }

  ghost predicate KeysCarryOver(items: Items, items': Items) {
    forall id :: id in items' && KeyOf(items'[id]).Some? ==> id in items && KeyOf(items'[id]) == KeyOf(items[id])
  }

  lemma CarriedKeysStayUnique(items: Items, items': Items, dismissed: seq<Pair>)
    requires RunsAreUnique(items, dismissed) && KeysCarryOver(items, items')
    ensures RunsAreUnique(items', dismissed)
  {}

  lemma AddCompletionKeepsInv(s: State, automation: string, run: Option<string>, newId: Id)
    requires Inv(s) && Enabled(s, AddCompletion(automation, run, newId))
    ensures Inv(Next(s, AddCompletion(automation, run, newId)))
  {
    var l := s.local;
    if !CompletionIsKnown(l, automation, run) {
      var kept := WithoutApprovalsOf(l.items, automation, run);
      var item := CompletionItem(newId, automation, run, s.now);
      var items := kept[newId := item];
      assert LocalSane(items) by {
        assert LocalItemSane(newId, item);
        assert forall id :: id in kept ==> LocalItemSane(id, l.items[id]);
      }
      assert RunsAreUnique(items, l.dismissed) by {
        CarriedKeysStayUnique(l.items, kept, l.dismissed);
        forall id | id in kept
          ensures KeyOf(item).Some? ==> KeyOf(kept[id]) != KeyOf(item)
        {
          assert !IsCompletionOf(l.items[id], automation, run);
        }
      }
      MutationKeepsInv(s, l, items, l.readIds, l.dismissed);
    }
  }

  lemma DiscardKeepsInv(s: State, ids: set<Id>, runs: seq<Pair>)
    requires Inv(s) && Lists(runs, KeysOf(Chosen(s.local.items, ids)))
    ensures Inv(s.(local := Discarded(s.local, ids, runs, s.now)))
  {
    var l := s.local;
    var items := Removed(l.items, ids);
    var dismissing := DismissingNotices(l, NoticesAmong(l.items, ids));
    assert LocalSane(items) by {
      assert forall id :: id in items ==> LocalItemSane(id, l.items[id]);
    }
    DiscardedRunsAreUnique(l.items, ids, runs, l.dismissed);
    assert dismissing.chain != l.chain ==>
        SaneOp(DismissNotices(NoticesAmong(l.items, ids)))
        && dismissing.chain == l.chain + [DismissNotices(NoticesAmong(l.items, ids))];
    MutationKeepsInv(s, dismissing, items, l.readIds, Remembered(l.dismissed, runs));
  }

  lemma DiscardedRunsAreUnique(items: Items, ids: set<Id>, runs: seq<Pair>, dismissed: seq<Pair>)
    requires RunsAreUnique(items, dismissed) && Lists(runs, KeysOf(Chosen(items, ids)))
    ensures RunsAreUnique(Removed(items, ids), Remembered(dismissed, runs))
  {
    var kept, chosen := Removed(items, ids), Chosen(items, ids);
    forall id | id in kept && KeyOf(kept[id]).Some?
      ensures KeyOf(kept[id]).value !in Remembered(dismissed, runs)
    {
      assert forall other :: other in chosen ==> other in items && other != id;
    }
    forall p | p in Remembered(dismissed, runs)
      ensures p.0 != "" && p.1 != ""
    {}
  }

  lemma DismissKeepsInv(s: State, id: Id)
    requires Inv(s)
    ensures Inv(Next(s, Dismiss(id)))
  {
    DiscardKeepsInv(s, {id}, RunOf(s.local.items, id));
  }

  lemma UpdateKeepsInv(s: State, items: Items, readIds: set<string>)
    requires Inv(s) && LocalSane(items) && KeysCarryOver(s.local.items, items)
    ensures Inv(s.(local := Mutated(s.local, items, readIds, s.local.dismissed, s.now)))
  {
    CarriedKeysStayUnique(s.local.items, items, s.local.dismissed);
    MutationKeepsInv(s, s.local, items, readIds, s.local.dismissed);
  }

  lemma MarkReadKeepsInv(s: State, id: Id)
    requires Inv(s)
    ensures Inv(Next(s, MarkRead(id)))
  {
    var l := s.local;
    assert id in l.items ==> LocalItemSane(id, l.items[id]);
    var items := if id in l.items then l.items[id := l.items[id].(read := true)] else l.items;
    var readIds := if id in l.items && l.items[id].inbox.Some? then l.readIds + {l.items[id].inbox.value} else l.readIds;
    UpdateKeepsInv(s, items, readIds);
  }

  lemma MarkAllReadKeepsInv(s: State)
    requires Inv(s)
    ensures Inv(Next(s, MarkAllRead))
  {
    var l := s.local;
    var items := AllRead(l.items);
    forall id | id in items
      ensures LocalItemSane(id, items[id]) && KeyOf(items[id]) == KeyOf(l.items[id])
    {
      assert LocalItemSane(id, l.items[id]);
    }
    UpdateKeepsInv(s, items, l.readIds + Acknowledged(items));
  }

  lemma NeedActionKeepsInv(s: State, newId: Id)
    requires Inv(s) && Enabled(s, NeedAction(newId))
    ensures Inv(Next(s, NeedAction(newId)))
  {
    var item: QueueItem := Item(newId, ActionNeeded, s.now, false, false, None, None, None, None, false, None, None);
    assert LocalItemSane(newId, item) && KeyOf(item).None?;
    UpdateKeepsInv(s, s.local.items[newId := item], s.local.readIds);
  }

  lemma RecordChoiceKeepsInv(s: State, id: Id, choice: string)
    requires Inv(s)
    ensures Inv(Next(s, RecordChoice(id, choice)))
  {
    var l := s.local;
    assert id in l.items ==> LocalItemSane(id, l.items[id]);
    UpdateKeepsInv(s, if id in l.items then l.items[id := l.items[id].(choiceSent := Some(choice))] else l.items, l.readIds);
  }

  // ----- steps that save nothing -----

  lemma AgreementCarries(s: State, s': State)
    requires Agreement(s)
    requires forall id :: AgreesAt(s', id)
    requires forall id :: SettlesAlike(s, s', id)
    requires s'.local.readIds == s.local.readIds
    ensures Agreement(s')
  {
    hide Settled;
    forall n
      ensures ReadIsSaved(s', n)
    {
      assert ReadIsSaved(s, n);
      if n in s.local.readIds {
        var id :| IsReadRecordOf(Settled(s, id).item, n);
        assert SettlesAlike(s, s', id);
        assert IsReadRecordOf(Settled(s', id).item, n);
      }
    }
    forall i, j | KeyAt(Settled(s', i).item).Some? && KeyAt(Settled(s', i).item) == KeyAt(Settled(s', j).item)
      ensures i == j
    {
      assert SettlesAlike(s, s', i) && SettlesAlike(s, s', j);
    }
  }

  /** The same record, or a notice in both states. */
  predicate SettlesAlike(s: State, s': State, id: Id) {
    || Settled(s', id).item == Settled(s, id).item
    || (id.NoticeId? && HoldsNoticeOnly(Settled(s, id).item) && HoldsNoticeOnly(Settled(s', id).item))
  }

  predicate HoldsNoticeOnly(item: Option<QueueItem>) {
    item.Some? ==> IsProviderTurnNotice(item.value)
  }

  lemma AgreementTransfers(s: State, s': State)
    requires Agreement(s)
    requires forall id :: Settled(s', id).item == Settled(s, id).item
    requires s'.local.items == s.local.items && s'.local.readIds == s.local.readIds && s'.cutoff == s.cutoff
    ensures Agreement(s')
  {
    hide Settled;
    forall id
      ensures AgreesAt(s', id) && SettlesAlike(s, s', id)
    {
      assert AgreesAt(s, id);
    }
    AgreementCarries(s, s');
  }

  lemma StoredDependsOn(s: State, s': State)
    requires StoredSane(s) && s'.file == s.file && s'.base == s.base && s'.local.chain == s.local.chain
    ensures StoredSane(s')
    ensures forall id :: Settled(s', id) == Settled(s, id)
  {
    assert forall id :: CellOf(s'.file, s'.base, id) == CellOf(s.file, s.base, id);
  }

  lemma ApplyNoticeKeepsInv(s: State, item: QueueItem)
    requires Inv(s) && Enabled(s, ApplyNotice(item))
    ensures Inv(Next(s, ApplyNotice(item)))
  {
    var s' := Next(s, ApplyNotice(item));
    if item.id !in s.local.items {
      assert SaneItem(item.id, item);
      assert SaneCell(item.id, CellOf(s.file, s.base, item.id));
      NoticesOnlyGrow(s.local.chain, item.id, CellOf(s.file, s.base, item.id), true);
      StoredDependsOn(s, s');
      CarriedKeysStayUnique(s.local.items, s'.local.items, s.local.dismissed);
      hide Settled, StoredSane, RunsAreUnique;
      forall id
        ensures AgreesAt(s', id) && SettlesAlike(s, s', id)
      {
        assert AgreesAt(s, id);
      }
      AgreementCarries(s, s');
    }
  }

  /** A load in flight does not notice time, other pages or new notices on disk. */
  lemma LoadStaysSound(s: State, s': State)
    requires LoadSound(s) && s'.cutoff == s.cutoff && s.now <= s'.now
    requires s'.local == s.local.(items := s'.local.items)
    requires forall id :: id in s'.local.items && id.NoticeId? ==> id in s.local.items
    requires forall id :: id in s.file ==> id in s'.file && s'.file[id] == s.file[id]
    requires forall id :: id in s'.file && id !in s.file ==> id.NoticeId?
    ensures LoadSound(s')
  {
    if s.local.load.AwaitingLists? && s.local.load.revision == s.local.revision {
      var raw := s.local.load.raw;
      forall id
        ensures ReadAgrees(At(raw, id), At(s'.file, id), id) && NoticeWasRead(s', raw, id)
      {
        assert ReadAgrees(At(raw, id), At(s.file, id), id) && NoticeWasRead(s, raw, id);
      }
    }
  }

  predicate IsShownNotification(id: Id, item: QueueItem) {
    id.NotificationId? && LocalItemSane(id, item) && KeyOf(item).None? && !IsLegacy(item)
  }

  lemma NotificationsAreSane(page: map<string, Notification>, readIds: set<string>, id: Id)
    requires id in NotificationItems(page, readIds)
    ensures IsShownNotification(id, NotificationItems(page, readIds)[id])
  {}

  lemma ShowingNotificationsKeepsInv(s: State, s': State, shown: Items)
    requires Inv(s) && s' == s.(local := s.local.(items := s.local.items + shown))
    requires forall id :: id in shown ==> IsShownNotification(id, shown[id])
    ensures Inv(s')
  {
    StoredDependsOn(s, s');
    assert LoadSound(s') by {
      LoadStaysSound(s, s');
    }
    hide Settled, StoredSane, LocalItemSane, LoadSound;
    assert forall id :: id in s'.local.items ==>
             s'.local.items[id] == if id in shown then shown[id] else s.local.items[id];
    assert LocalSane(s'.local.items);
    CarriedKeysStayUnique(s.local.items, s'.local.items, s.local.dismissed);
    hide RunsAreUnique, LocalSane;
    forall id
      ensures AgreesAt(s', id) && SettlesAlike(s, s', id)
    {
      assert AgreesAt(s, id);
    }
    AgreementCarries(s, s');
  }

  lemma LoadMoreKeepsInv(s: State, page: map<string, Notification>, readIds: set<string>)
    requires Inv(s)
    ensures Inv(Next(s, LoadMore(page, readIds)))
  {
    hide Inv, NotificationItems, IsShownNotification;
    var shown := NotificationItems(page, readIds);
    forall id | id in shown
      ensures IsShownNotification(id, shown[id])
    {
      NotificationsAreSane(page, readIds, id);
    }
    ShowingNotificationsKeepsInv(s, s.(local := s.local.(items := s.local.items + shown)), shown);
  }

  /** Starting a load, waiting for the saves and the passing of time. */
  lemma QuietStepKeepsInv(s: State, s': State)
    requires Inv(s) && LoadSound(s')
    requires s' == s.(local := s.local.(load := s'.local.load), now := s'.now)
    ensures Inv(s')
  {
    StoredDependsOn(s, s');
    AgreementTransfers(s, s');
  }

  lemma ReadFileKeepsInv(s: State)
    requires Inv(s) && Enabled(s, ReadFile)
    ensures Inv(Next(s, ReadFile))
  {
    var s' := Next(s, ReadFile);
    forall id
      ensures Settled(s', id).item == Settled(s, id).item && SaneCell(id, CellOf(s'.file, s'.base, id))
    {
      var c, c' := CellOf(s.file, s.base, id), CellOf(s'.file, s'.base, id);
      assert SaneCell(id, c);
      if id.NoticeId? && id in s.file {
        NoticesOnlyGrow(s.local.chain, id, c, c'.inBase);
        assert c' == Cell(c'.inBase, c.item);
      } else {
        assert c' == c;
      }
    }
    AgreementTransfers(s, s');
    assert LoadSound(s') by {
      var raw := s'.local.load.raw;
      forall id
        ensures ReadAgrees(At(raw, id), At(s'.file, id), id)
      {
        assert SaneCell(id, CellOf(s.file, s.base, id));
      }
      forall id
        ensures s'.local.load.revision == s'.local.revision ==> NoticeWasRead(s', raw, id)
      {
        assert AgreesAt(s, id);
      }
    }
    hide Agreement, Settled;
    assert StoredSane(s');
  }

  lemma RunCallKeepsInv(s: State)
    requires Inv(s) && Enabled(s, RunCall)
    ensures Inv(Next(s, RunCall))
  {
    var s' := Next(s, RunCall);
    var op := s.local.chain[0];
    forall id
      ensures Settled(s', id) == Settled(s, id) && SaneCell(id, CellOf(s'.file, s'.base, id))
    {
      RunCallKeepsSettled(s, id);
      assert SaneCell(id, CellOf(s.file, s.base, id));
      assert CellOf(s'.file, s'.base, id) == StepAt(op, id, CellOf(s.file, s.base, id));
      assert SaneOp(op);
      StepKeepsSane(op, id, CellOf(s.file, s.base, id));
    }
    AgreementTransfers(s, s');
    assert StoredSane(s') by {
      forall k | 0 <= k < |s'.local.chain|
        ensures SaneOp(s'.local.chain[k])
      {
        assert s'.local.chain[k] == s.local.chain[k + 1];
      }
    }
    hide Agreement, Settled, StoredSane;
    assert LoadSound(s');
  }

  lemma WriteNoticeKeepsInv(s: State, item: QueueItem)
    requires Inv(s) && Enabled(s, WriteNotice(item))
    ensures Inv(Next(s, WriteNotice(item)))
  {
    var s' := Next(s, WriteNotice(item));
    forall id
      ensures SaneCell(id, CellOf(s'.file, s'.base, id)) && (id != item.id ==> Settled(s', id) == Settled(s, id))
    {
      assert SaneCell(id, CellOf(s.file, s.base, id));
      assert id != item.id ==> CellOf(s'.file, s'.base, id) == CellOf(s.file, s.base, id);
      assert SaneItem(item.id, item);
    }
    assert StoredSane(s');
    SettledIsSane(s, item.id);
    SettledIsSane(s', item.id);
    LoadStaysSound(s, s');
    hide Settled, StoredSane, LoadSound;
    forall id
      ensures AgreesAt(s', id) && SettlesAlike(s, s', id)
    {
      assert AgreesAt(s, id);
    }
    AgreementCarries(s, s');
  }
}
