/** What every step of the queue protocol keeps: the store and the settled queue
    file agree, run by run and id by id. */
module QueueInvariant {
  import opened Common
  import opened QueueMerge
  import opened QueueStore
  import opened QueueProtocol

  // ----- the invariant -----

  predicate LocalItemSane(id: Id, item: QueueItem) {
    SaneItem(id, item) && !item.dismissed && !id.ReadId?
  }

  ghost predicate LocalSane(items: Items) {
    forall id :: id in items ==> LocalItemSane(id, items[id])
  }

  /** One completion at most for each run, and none for a dismissed one. */
  ghost predicate RunsAreUnique(items: Items, dismissed: seq<Pair>) {
    && (forall i, j :: i in items && j in items && KeyOf(items[i]).Some? && KeyOf(items[i]) == KeyOf(items[j]) ==> i == j)
    && (forall i :: i in items && KeyOf(items[i]).Some? ==> KeyOf(items[i]).value !in dismissed)
    && AreRuns(dismissed)
  }

  ghost predicate AreRuns(pairs: seq<Pair>) {
    forall p :: p in pairs ==> p.0 != "" && p.1 != ""
  }

  ghost predicate StoredSane(s: State) {
    && SaneChain(s.local.chain)
    && forall id :: SaneCell(id, CellOf(s.file, s.base, id))
  }

  /** The saved record is the shown item, possibly read already. */
  predicate SameRecord(shown: QueueItem, saved: QueueItem) {
    && saved == shown.(read := saved.read, choiceSent := saved.choiceSent, choicePending := saved.choicePending)
    && (shown.read ==> saved.read)
  }

  predicate ShownIsSaved(s: State, id: Id) {
    id in s.local.items && IsLegacy(s.local.items[id]) && !id.NoticeId? ==>
      Settled(s, id).item.Some? && SameRecord(s.local.items[id], Settled(s, id).item.value)
  }

  predicate SavedIsShown(s: State, id: Id) {
    var saved := Settled(s, id).item;
    !id.NoticeId? && saved.Some? && IsLegacy(saved.value) && saved.value.timestamp > s.cutoff ==> id in s.local.items
  }

  predicate NoticeIsSaved(s: State, id: Id) {
    id.NoticeId? && id in s.local.items ==>
      Settled(s, id).item.Some? && (s.local.items[id].read ==> Settled(s, id).item.value.read)
  }

  predicate AgreesAt(s: State, id: Id) {
    ShownIsSaved(s, id) && SavedIsShown(s, id) && NoticeIsSaved(s, id)
  }

  predicate IsReadRecordOf(item: Option<QueueItem>, n: string) {
    item.Some? && IsReadUpdate(item.value) && item.value.inbox == Some(n)
  }

  ghost predicate ReadIsSaved(s: State, n: string) {
    n in s.local.readIds ==> exists id :: IsReadRecordOf(Settled(s, id).item, n)
  }

  predicate IsDismissalOf(item: Option<QueueItem>, p: Pair) {
    item.Some? && item.value.dismissed && KeyOf(item.value) == Some(p)
  }

  ghost predicate DismissalIsSaved(s: State, p: Pair) {
    p in s.local.dismissed ==> exists id :: IsDismissalOf(Settled(s, id).item, p)
  }

  function KeyAt(item: Option<QueueItem>): Option<Pair> {
    if item.Some? then KeyOf(item.value) else None
  }

  ghost predicate RecordsAreUnique(s: State) {
    forall i, j :: KeyAt(Settled(s, i).item).Some? && KeyAt(Settled(s, i).item) == KeyAt(Settled(s, j).item) ==> i == j
  }

  ghost predicate Agreement(s: State) {
    && (forall id :: AgreesAt(s, id))
    && (forall n :: ReadIsSaved(s, n))
    && RecordsAreUnique(s)
  }

  ghost predicate DismissalsSaved(s: State) {
    forall p :: DismissalIsSaved(s, p)
  }

  /** What a load read is what the file holds, but for notices of the backend. */
  predicate ReadAgrees(raw: Option<QueueItem>, file: Option<QueueItem>, id: Id) {
    if id.NoticeId? then raw.Some? ==> raw == file && !raw.value.dismissed
    else raw == file
  }

  /** A shown notice is among what the load read, unless it is dismissed on disk. */
  predicate NoticeWasRead(s: State, raw: Items, id: Id) {
    id.NoticeId? && id in s.local.items ==> id in s.file && (s.file[id].dismissed || id in raw)
  }

  ghost predicate LoadSound(s: State) {
    var l := s.local;
    && s.cutoff + MaxAge <= s.now
    && (match l.load
        case Idle => true
        case AwaitingSaves(revision, ahead) =>
          && revision <= l.revision && ahead <= |l.chain|
          && (revision == l.revision ==> ahead == |l.chain|)
        case AwaitingFile(revision) =>
          revision <= l.revision && (revision == l.revision ==> l.chain == [])
        case AwaitingLists(revision, raw, since) =>
          && revision <= l.revision
          && s.cutoff + MaxAge <= since <= s.now
          && (revision == l.revision ==>
                && l.chain == []
                && (forall id :: ReadAgrees(At(raw, id), At(s.file, id), id))
                && (forall id :: NoticeWasRead(s, raw, id))))
  }

  ghost predicate Inv(s: State) {
    && LocalSane(s.local.items)
    && RunsAreUnique(s.local.items, s.local.dismissed)
    && StoredSane(s)
    && Agreement(s)
    && LoadSound(s)
  }

  lemma SettledIsSane(s: State, id: Id)
    requires StoredSane(s)
    ensures SaneCell(id, Settled(s, id))
  {
    RunKeepsSane(s.local.chain, id, CellOf(s.file, s.base, id));
  }

  // ----- what a save settles -----

  lemma SavedFormAt(items: Items, readIds: set<string>, dismissed: seq<Pair>, now: int, id: Id)
    requires LocalSane(items)
    ensures At(SavedForm(items, readIds, dismissed, now), id) ==
            match id
            case DismissalId(_) => At(DismissalMarkers(dismissed, now), id)
            case ReadId(n) => if n in readIds + Acknowledged(items) then Some(ReadItem(n, now)) else None
            case _ => if id in items && IsLegacy(items[id]) then Some(items[id]) else None
  {
    assert id in items ==> LocalItemSane(id, items[id]);
    MarkersAt(dismissed, now, id);
    hide DismissalMarkers;
  }

  /** The markers by id: one of a dismissed run with that marker id. */
  lemma {:induction false} MarkersAt(runs: seq<Pair>, now: int, id: Id)
    ensures var marker := At(DismissalMarkers(runs, now), id);
            && (marker.Some? ==> exists p :: p in runs && id == DismissalIdOf(p) && marker.value == Marker(id, p, now))
            && (forall p :: p in runs && id == DismissalIdOf(p) ==> marker.Some?)
            && (marker.Some? ==> id.DismissalId?)
  {
    hide MarkerText;
    if runs != [] {
      var front, last := runs[..|runs| - 1], runs[|runs| - 1];
      MarkersAt(front, now, id);
      assert runs == front + [last];
      if id == DismissalIdOf(last) {
        assert last in runs;
      }
    }
  }

  /** No other dismissed run has the marker text of this one. */
  ghost predicate NoTwin(dismissed: seq<Pair>, p: Pair) {
    forall q :: q in dismissed && MarkerText(q) == MarkerText(p) ==> q == p
  }

  lemma MarkerWithoutTwin(runs: seq<Pair>, now: int, p: Pair)
    requires p in runs && NoTwin(runs, p)
    ensures At(DismissalMarkers(runs, now), DismissalIdOf(p)) == Some(Marker(DismissalIdOf(p), p, now))
  {
    hide MarkerText, DismissalMarkers;
    MarkersAt(runs, now, DismissalIdOf(p));
  }

  /** Appending a save of the local state makes everything agree again, whatever
      the chain held before. */
  lemma SavingSettles(s: State, chain: seq<Op>, s': State)
    requires var l := s'.local;
             && l.chain == chain + [SaveItems(SavedForm(l.items, l.readIds, l.dismissed, s.now))]
             && LocalSane(l.items) && RunsAreUnique(l.items, l.dismissed)
    requires StoredSane(s.(local := s.local.(chain := chain)))
    requires s'.file == s.file && s'.base == s.base && s'.now == s.now
    ensures StoredSane(s') && Agreement(s')
  {
    var l := s'.local;
    var incoming := SavedForm(l.items, l.readIds, l.dismissed, s.now);
    forall id
      ensures SavedCell(s', id)
    {
      CellAfterSave(s, chain, s', id);
    }
    SavedFormIsSane(l.items, l.readIds, l.dismissed, s.now);
    forall k | 0 <= k < |l.chain|
      ensures SaneOp(l.chain[k])
    {
      assert k < |chain| ==> l.chain[k] == chain[k] && SaneOp(s.local.(chain := chain).chain[k]);
    }
    assert forall id :: CellOf(s'.file, s'.base, id) == CellOf(s.file, s.base, id);
    AgreementFromSavedCells(s');
  }

  lemma SavedFormIsSane(items: Items, readIds: set<string>, dismissed: seq<Pair>, now: int)
    requires LocalSane(items) && AreRuns(dismissed)
    ensures SaneItems(SavedForm(items, readIds, dismissed, now))
  {
    hide SavedForm;
    forall id | id in SavedForm(items, readIds, dismissed, now)
      ensures SaneItem(id, SavedForm(items, readIds, dismissed, now)[id])
    {
      SentIsSane(items, readIds, dismissed, now, id);
    }
  }

  lemma SentIsSane(items: Items, readIds: set<string>, dismissed: seq<Pair>, now: int, id: Id)
    requires LocalSane(items) && AreRuns(dismissed)
    ensures var sent := At(SavedForm(items, readIds, dismissed, now), id);
            sent.Some? ==> SaneItem(id, sent.value)
  {
    SavedFormAt(items, readIds, dismissed, now, id);
    MarkersAt(dismissed, now, id);
    hide SavedForm, DismissalMarkers, MarkerText;
    assert id in items ==> LocalItemSane(id, items[id]);
  }

  /** Right after a save each id settles to what was sent, read if it was read
      before; a notice on disk keeps its own record. */
  predicate SavedAt(id: Id, sent: Option<QueueItem>, settled: Option<QueueItem>) {
    && (sent.Some? ==> settled.Some? && (sent.value.read ==> settled.value.read))
    && (settled.Some? ==> SaneItem(id, settled.value))
    && (!id.NoticeId? ==> (settled.Some? <==> sent.Some?) && (sent.Some? ==> SameRecord(sent.value, settled.value)))
  }

  predicate SavedCell(s: State, id: Id) {
    SavedAt(id, At(SavedForm(s.local.items, s.local.readIds, s.local.dismissed, s.now), id), Settled(s, id).item)
  }

  lemma MergeSaves(id: Id, sent: Option<QueueItem>, c: Cell)
    requires SaneCell(id, c) && (sent.Some? ==> SaneItem(id, sent.value))
    ensures SavedAt(id, sent, MergedAt(c.inBase, sent, c.item))
  {}

  lemma CellAfterSave(s: State, chain: seq<Op>, s': State, id: Id)
    requires var l := s'.local;
             && l.chain == chain + [SaveItems(SavedForm(l.items, l.readIds, l.dismissed, s.now))]
             && LocalSane(l.items) && RunsAreUnique(l.items, l.dismissed)
    requires StoredSane(s.(local := s.local.(chain := chain)))
    requires s'.file == s.file && s'.base == s.base && s'.now == s.now
    ensures SavedCell(s', id)
  {
    var l := s'.local;
    var incoming := SavedForm(l.items, l.readIds, l.dismissed, s.now);
    SettledIsSane(s.(local := s.local.(chain := chain)), id);
    RunOfAppend(chain, SaveItems(incoming), id, CellOf(s.file, s.base, id));
    SentIsSane(l.items, l.readIds, l.dismissed, s.now, id);
    hide SavedForm, RunAt, LocalSane, SavedAt, SaneItem, StoredSane;
    MergeSaves(id, At(incoming, id), RunAt(chain, id, CellOf(s.file, s.base, id)));
  }

  lemma AgreementFromSavedCells(s: State)
    requires forall id :: SavedCell(s, id)
    requires LocalSane(s.local.items) && RunsAreUnique(s.local.items, s.local.dismissed)
    ensures Agreement(s)
  {
    var l := s.local;
    forall id
      ensures AgreesAt(s, id)
    {
      SavedFormAt(l.items, l.readIds, l.dismissed, s.now, id);
      assert SavedCell(s, id);
      hide SavedForm, Settled;
      assert id in l.items ==> LocalItemSane(id, l.items[id]);
    }
    forall n
      ensures ReadIsSaved(s, n)
    {
      SavedFormAt(l.items, l.readIds, l.dismissed, s.now, ReadId(n));
      assert SavedCell(s, ReadId(n));
      hide SavedForm, Settled;
      assert n in l.readIds ==> IsReadRecordOf(Settled(s, ReadId(n)).item, n);
    }
    forall i, j | KeyAt(Settled(s, i).item).Some? && KeyAt(Settled(s, i).item) == KeyAt(Settled(s, j).item)
      ensures i == j
    {
      SavedKey(s, i);
      SavedKey(s, j);
    }
  }

  /** A keyed record comes from the one item, or the one dismissal, of its run. */
  lemma SavedKey(s: State, id: Id)
    requires SavedCell(s, id) && LocalSane(s.local.items) && RunsAreUnique(s.local.items, s.local.dismissed)
    requires KeyAt(Settled(s, id).item).Some?
    ensures var p := KeyAt(Settled(s, id).item).value;
            || (id in s.local.items && KeyOf(s.local.items[id]) == Some(p))
            || (id == DismissalIdOf(p) && p in s.local.dismissed)
  {
    SavedFormAt(s.local.items, s.local.readIds, s.local.dismissed, s.now, id);
    MarkersAt(s.local.dismissed, s.now, id);
    hide SavedForm, Settled, RunsAreUnique, MarkerText, DismissalMarkers;
  }

  /** After a save the marker of a dismissed run without twin is its own. */
  lemma SavedDismissal(s: State, p: Pair)
    requires SavedCell(s, DismissalIdOf(p)) && LocalSane(s.local.items) && AreRuns(s.local.dismissed)
    requires p in s.local.dismissed && NoTwin(s.local.dismissed, p)
    ensures IsDismissalOf(Settled(s, DismissalIdOf(p)).item, p)
  {
    SavedFormAt(s.local.items, s.local.readIds, s.local.dismissed, s.now, DismissalIdOf(p));
    MarkerWithoutTwin(s.local.dismissed, s.now, p);
    hide SavedForm, Settled, MarkerText, DismissalMarkers;
  }
}
