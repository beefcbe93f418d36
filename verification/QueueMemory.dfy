/** What the queue remembers over whole runs: acknowledged notifications and dismissed
    automation runs. Every save refreshes their records, so each is remembered for at
    least seven days. For dismissed runs that takes marker texts of their own, which the
    ids of the program have. */
module QueueMemory {
  import opened Common
  import opened QueueMerge
  import opened QueueStore
  import opened QueueProtocol
  import opened QueueInvariant
  import opened QueueSteps
  import opened QueueLoad
  import opened QueueTheorems
  import opened QueueIds

  datatype Memory = ReadOf(notification: string) | DismissalOf(run: Pair)

  function RecordId(m: Memory): Id {
    match m
    case ReadOf(n) => ReadId(n)
    case DismissalOf(p) => DismissalIdOf(p)
  }

  predicate Known(l: Local, m: Memory) {
    match m
    case ReadOf(n) => n in l.readIds
    case DismissalOf(p) => p in l.dismissed
  }

  predicate Records(item: Option<QueueItem>, m: Memory) {
    match m
    case ReadOf(n) => IsReadRecordOf(item, n)
    case DismissalOf(p) => IsDismissalOf(item, p)
  }

  /** No other dismissed run takes the record. */
  ghost predicate Unshared(l: Local, m: Memory) {
    m.DismissalOf? ==> NoTwin(l.dismissed, m.run)
  }

  /** The store knows it, and its record on disk will be at least as young as `t`. */
  predicate Remembers(s: State, m: Memory, t: int) {
    && Known(s.local, m) && t <= s.now
    && Records(Settled(s, RecordId(m)).item, m)
    && Settled(s, RecordId(m)).item.value.timestamp >= t
  }

  // ----- saves -----

  ghost predicate JustSaved(s: State) {
    var l := s.local;
    l.chain != [] && l.chain[|l.chain| - 1] == SaveItems(SavedForm(l.items, l.readIds, l.dismissed, s.now))
  }

  lemma InvLocal(s: State)
    requires Inv(s)
    ensures LocalSane(s.local.items) && RunsAreUnique(s.local.items, s.local.dismissed) && AreRuns(s.local.dismissed)
  {}

  lemma SavedCellNow(s: State, id: Id)
    requires Inv(s) && JustSaved(s)
    ensures SavedCell(s, id)
  {
    var l := s.local;
    var chain := l.chain[..|l.chain| - 1];
    assert l.chain == chain + [SaveItems(SavedForm(l.items, l.readIds, l.dismissed, s.now))];
    var before := s.(local := l.(chain := chain));
    assert StoredSane(before) by {
      assert forall i :: CellOf(before.file, before.base, i) == CellOf(s.file, s.base, i);
      assert forall k :: 0 <= k < |chain| ==> chain[k] == l.chain[k];
    }
    hide Inv, SavedForm, Settled, StoredSane, LocalSane, RunsAreUnique, SaneItem;
    InvLocal(s);
    CellAfterSave(before, chain, s, id);
  }

  lemma SavedMemory(s: State, m: Memory)
    requires SavedCell(s, RecordId(m)) && LocalSane(s.local.items) && AreRuns(s.local.dismissed)
    requires Known(s.local, m) && Unshared(s.local, m)
    ensures Remembers(s, m, s.now)
  {
    SavedFormAt(s.local.items, s.local.readIds, s.local.dismissed, s.now, RecordId(m));
    if m.DismissalOf? {
      MarkerWithoutTwin(s.local.dismissed, s.now, m.run);
    }
    hide SavedForm, Settled, MarkerText, DismissalMarkers, LocalSane, Acknowledged;
  }

  /** A save refreshes every unshared record. */
  lemma SaveRefreshes(s: State, m: Memory)
    requires Inv(s) && JustSaved(s) && Known(s.local, m) && Unshared(s.local, m)
    ensures Remembers(s, m, s.now)
  {
    hide Inv, JustSaved, SavedCell, Remembers, LocalSane;
    SavedCellNow(s, RecordId(m));
    InvLocal(s);
    SavedMemory(s, m);
  }

  // ----- steps -----

  predicate Commits(s: State, a: Action) {
    a.FinishLoad? && s.local.load.AwaitingLists? && LoadCommits(s.local)
  }

  /** The store's memory only grows, but for a committed load. */
  lemma StepKeepsKnown(s: State, a: Action, m: Memory)
    requires Enabled(s, a) && !Commits(s, a) && Known(s.local, m)
    ensures var s' := Next(s, a);
            Known(s'.local, m) && (s'.local.chain == s.local.chain || a == RunCall || (JustSaved(s') && s'.now == s.now))
  {
    hide SavedForm, WithoutApprovalsOf, Removed, Chosen, KeysOf, NoticesAmong, ClearedIds, AllRead, Acknowledged,
         NotificationItems, ReadableFile, SavedFile, DismissedFile, Lists, DismissedOf, Unexpired;
  }

  lemma QuietRecord(s: State, a: Action, id: Id)
    requires Inv(s) && Enabled(s, a) && !Commits(s, a) && !id.NoticeId?
    requires Next(s, a).local.chain == s.local.chain || a == RunCall
    ensures Settled(Next(s, a), id) == Settled(s, id)
  {
    var s' := Next(s, a);
    if a == RunCall {
      RunCallKeepsSettled(s, id);
    } else {
      assert CellOf(s'.file, s'.base, id) == CellOf(s.file, s.base, id) by {
        QuietCell(s, a, id);
      }
      hide Inv, Next, Enabled;
    }
  }

  lemma QuietCell(s: State, a: Action, id: Id)
    requires Inv(s) && Enabled(s, a) && !id.NoticeId? && a != RunCall
    ensures CellOf(Next(s, a).file, Next(s, a).base, id) == CellOf(s.file, s.base, id)
  {
    assert SaneCell(id, CellOf(s.file, s.base, id));
    hide Inv, RunAt, LoadFinished, SavedForm, Lists, DismissedOf, Unexpired;
  }

  lemma StepRemembers(s: State, a: Action, m: Memory, t: int)
    requires Inv(s) && Enabled(s, a) && Remembers(s, m, t)
    requires Next(s, a).now < t + MaxAge && Unshared(Next(s, a).local, m)
    ensures Remembers(Next(s, a), m, t)
  {
    hide Inv;
    var s' := Next(s, a);
    StepKeepsInv(s, a);
    TimePasses(s, a);
    if Commits(s, a) {
      CommitRemembers(s, a.listing, a.order, a.at, m, t);
    } else {
      StepKeepsKnown(s, a, m);
      hide Next, Enabled, Settled, JustSaved;
      if s'.local.chain == s.local.chain || a == RunCall {
        QuietRecord(s, a, RecordId(m));
      } else {
        SaveRefreshes(s', m);
      }
    }
  }

  lemma TimePasses(s: State, a: Action)
    requires Enabled(s, a)
    ensures s.now <= Next(s, a).now
  {}

  lemma FreshRecordIsLoaded(s: State, listing: Listing, order: seq<Pair>, at: int, m: Memory, t: int)
    requires s.local.load.AwaitingLists? && CommitReady(s) && Remembers(s, m, t) && at <= s.now < t + MaxAge
    requires Lists(order, DismissedOf(PersistedOf(s, at)))
    ensures match m
            case ReadOf(n) => n in Acknowledged(PersistedOf(s, at))
            case DismissalOf(p) => p in order
  {
    hide CommitReady, Settled, PersistedOf, DismissedOf, Acknowledged, MarkerText;
    PersistedIsFile(s, at, RecordId(m));
    match m
    case ReadOf(n) => AcknowledgedHas(PersistedOf(s, at), RecordId(m), n);
    case DismissalOf(p) => DismissedHas(PersistedOf(s, at), RecordId(m), p);
  }

  lemma CommitRemembers(s: State, listing: Listing, order: seq<Pair>, at: int, m: Memory, t: int)
    requires Inv(s) && Enabled(s, FinishLoad(listing, order, at)) && LoadCommits(s.local) && Remembers(s, m, t)
    requires s.now < t + MaxAge
    requires Unshared(Next(s, FinishLoad(listing, order, at)).local, m)
    ensures Remembers(Next(s, FinishLoad(listing, order, at)), m, t)
  {
    hide Inv, Settled, CommitReady, PersistedOf, DismissedOf, SavedForm, LoadedItems, Acknowledged, Reconciled, RunsOf, Lists,
      Records;
    var a := FinishLoad(listing, order, at);
    var s' := Next(s, a);
    InvGivesReady(s);
    StepKeepsInv(s, a);
    CommitIs(s, listing, order, at);
    FreshRecordIsLoaded(s, listing, order, at, m, t);
    if Reconciled(listing.terminals, RunsOf(PersistedOf(s, at))).Keys == {} {
      hide Next;
      QuietSettles(s, listing, order, at, s', RecordId(m));
    } else {
      hide Next;
      SaveRefreshes(s', m);
    }
  }

  // ----- runs -----

  ghost predicate UnsharedThroughout(run: Run, i: nat, k: nat, m: Memory)
    requires k < |run.states|
  {
    forall j :: i < j <= k ==> Unshared(run.states[j].local, m)
  }

  lemma {:induction false} RunRemembers(run: Run, i: nat, k: nat, m: Memory, t: int)
    requires IsRun(run) && i <= k < |run.states| && UnsharedThroughout(run, i, k, m)
    requires Remembers(run.states[i], m, t) && run.states[k].now < t + MaxAge
    ensures Remembers(run.states[k], m, t)
    decreases k
  {
    hide Inv, Next, Enabled, Remembers, Started, Unshared;
    if i < k {
      assert StepsTo(run.states[k - 1], run.actions[k - 1], run.states[k]);
      TimePasses(run.states[k - 1], run.actions[k - 1]);
      RunRemembers(run, i, k - 1, m, t);
      RunKeepsInv(run, k - 1);
      StepRemembers(run.states[k - 1], run.actions[k - 1], m, t);
    }
  }

  /** The action takes the completion of the run away. */
  predicate Discards(s: State, a: Action, id: Id, p: Pair) {
    && id in s.local.items && KeyOf(s.local.items[id]) == Some(p)
    && (|| (a == Dismiss(id) && !IsReadProtected(s.local.items[id]))
        || (a.ClearRead? && id in ClearedIds(s.local.items)))
  }

  lemma DiscardRemembers(s: State, a: Action, id: Id, p: Pair)
    requires Enabled(s, a) && Discards(s, a, id, p) && Inv(Next(s, a)) && NoTwin(Next(s, a).local.dismissed, p)
    ensures Remembers(Next(s, a), DismissalOf(p), s.now)
  {
    hide Inv, SavedForm;
    var ids := if a.ClearRead? then ClearedIds(s.local.items) else {id};
    var runs := if a.ClearRead? then a.order else RunOf(s.local.items, id);
    assert id in Chosen(s.local.items, ids);
    assert p in KeysOf(Chosen(s.local.items, ids));
    hide ClearedIds, Chosen, KeysOf, NoticesAmong, Removed, Settled, RunOf, Remembered, NoTwin;
    assert Lists(runs, KeysOf(Chosen(s.local.items, ids)));
    assert Next(s, a) == s.(local := Discarded(s.local, ids, runs, s.now));
    hide Next, Enabled, Discards;
    assert JustSaved(Next(s, a));
    SaveRefreshes(Next(s, a), DismissalOf(p));
  }

  /** As long as no dismissed run shares its marker text, a dismissed or cleared run
      does not come back. */
  lemma UnsharedRunStaysGone(run: Run, i: nat, id: Id, p: Pair, k: nat)
    requires IsRun(run) && i < k < |run.states| && Discards(run.states[i], run.actions[i], id, p)
    requires run.states[k].now < run.states[i].now + MaxAge
    requires UnsharedThroughout(run, i, k, DismissalOf(p))
    ensures p in run.states[k].local.dismissed
    ensures forall shown :: shown in run.states[k].local.items ==> KeyOf(run.states[k].local.items[shown]) != Some(p)
  {
    var s, s' := run.states[i], run.states[i + 1];
    assert StepsTo(s, run.actions[i], s');
    assert Unshared(s'.local, DismissalOf(p));
    hide IsRun, Discards;
    RunKeepsInv(run, i + 1);
    DiscardRemembers(s, run.actions[i], id, p);
    RunRemembers(run, i + 1, k, DismissalOf(p), s.now);
    OneCompletionPerRun(run, k);
  }

  /** Automation ids without a colon rule shared texts out. */
  lemma ColonFreeRunsHaveNoTwins(dismissed: seq<Pair>, p: Pair)
    requires ':' !in p.0 && forall q :: q in dismissed ==> ':' !in q.0
    ensures NoTwin(dismissed, p)
  {
    forall q | q in dismissed && MarkerText(q) == MarkerText(p)
      ensures q == p
    {
      ColonFreeTextsDiffer(q, p);
    }
  }

  lemma ProgramRunHasNoTwin(s: State, p: Pair)
    requires KeysAreSafe(s) && IsRunPair(p)
    ensures NoTwin(s.local.dismissed, p)
  {
    forall q | q in s.local.dismissed + [p]
      ensures ':' !in q.0
    {
      hide IsSafeComponent;
      SafeComponentHasNoColon(q.0);
    }
    ColonFreeRunsHaveNoTwins(s.local.dismissed, p);
  }

  lemma DiscardedPairIsRunPair(s: State, a: Action, id: Id, p: Pair)
    requires KeysAreSafe(s) && Discards(s, a, id, p)
    ensures IsRunPair(p)
  {
    hide IsRunPair, ClearedIds;
    assert HasSafeKey(s.local.items[id]);
  }

  /** A dismissed or cleared run does not come back through events, loads or saves for
      at least seven days. */
  lemma DiscardedRunStaysGone(run: Run, i: nat, id: Id, p: Pair, k: nat)
    requires IsRun(run) && UsesProgramIds(run)
    requires i < k < |run.states| && Discards(run.states[i], run.actions[i], id, p)
    requires run.states[k].now < run.states[i].now + MaxAge
    ensures p in run.states[k].local.dismissed
    ensures forall shown :: shown in run.states[k].local.items ==> KeyOf(run.states[k].local.items[shown]) != Some(p)
  {
    hide IsRunPair, NoTwin, KeysAreSafe, IsSafeAction, Next, Enabled, Discards;
    RunKeepsSafeIds(run, i);
    DiscardedPairIsRunPair(run.states[i], run.actions[i], id, p);
    forall j | i < j <= k
      ensures Unshared(run.states[j].local, DismissalOf(p))
    {
      RunKeepsSafeIds(run, j);
      ProgramRunHasNoTwin(run.states[j], p);
    }
    UnsharedRunStaysGone(run, i, id, p, k);
  }

  /** The action acknowledges the notification. */
  predicate Acknowledges(s: State, a: Action, n: string) {
    || (a.MarkRead? && a.id in s.local.items && s.local.items[a.id].inbox == Some(n))
    || (a == MarkAllRead && n in Acknowledged(AllRead(s.local.items)))
  }

  lemma AcknowledgingRemembers(s: State, a: Action, n: string)
    requires Enabled(s, a) && Acknowledges(s, a, n) && Inv(Next(s, a))
    ensures Remembers(Next(s, a), ReadOf(n), s.now)
  {
    hide Inv, SavedForm, AllRead, Acknowledged, Settled;
    var s' := Next(s, a);
    assert s'.now == s.now && n in s'.local.readIds && JustSaved(s');
    hide Next, Enabled, JustSaved;
    SaveRefreshes(s', ReadOf(n));
  }

  /** A notification that was marked read stays acknowledged, through every load and
      save, for at least seven days. */
  lemma AcknowledgementStays(run: Run, i: nat, n: string, k: nat)
    requires IsRun(run) && i < k < |run.states| && Acknowledges(run.states[i], run.actions[i], n)
    requires run.states[k].now < run.states[i].now + MaxAge
    ensures n in run.states[k].local.readIds
  {
    var s, s' := run.states[i], run.states[i + 1];
    assert StepsTo(s, run.actions[i], s');
    hide IsRun, Acknowledges;
    RunKeepsInv(run, i + 1);
    AcknowledgingRemembers(s, run.actions[i], n);
    RunRemembers(run, i + 1, k, ReadOf(n), s.now);
  }

  // ----- every dismissal has its record -----

  lemma StepKeepsDismissals(s: State, a: Action)
    requires Inv(s) && Enabled(s, a) && DismissalsSaved(s) && TextsDiffer(Next(s, a).local.dismissed)
    ensures DismissalsSaved(Next(s, a))
  {
    hide Inv, DismissalIsSaved, TextsDiffer;
    forall p
      ensures DismissalIsSaved(Next(s, a), p)
    {
      DismissalKept(s, a, p);
    }
  }

  lemma DismissalKept(s: State, a: Action, p: Pair)
    requires Inv(s) && Enabled(s, a) && DismissalIsSaved(s, p) && TextsDiffer(Next(s, a).local.dismissed)
    ensures DismissalIsSaved(Next(s, a), p)
  {
    hide Inv, Settled;
    var s' := Next(s, a);
    StepKeepsInv(s, a);
    if p in s'.local.dismissed {
      if Commits(s, a) {
        InvGivesReady(s);
        CommittedDismissal(s, a.listing, a.order, a.at, p);
      } else {
        DismissedBefore(s, a, p);
        hide Next, Enabled, TextsDiffer;
        if JustSaved(s') {
          NoTwinWhenTextsDiffer(s'.local.dismissed, p);
          SaveRefreshes(s', DismissalOf(p));
          assert IsDismissalOf(Settled(s', DismissalIdOf(p)).item, p);
        } else {
          var id :| IsDismissalOf(Settled(s, id).item, p);
          InvSettledSane(s, id);
          QuietRecord(s, a, id);
          assert IsDismissalOf(Settled(s', id).item, p);
        }
      }
    }
  }

  lemma NoTwinWhenTextsDiffer(dismissed: seq<Pair>, p: Pair)
    requires TextsDiffer(dismissed) && p in dismissed
    ensures NoTwin(dismissed, p)
  {}

  lemma InvSettledSane(s: State, id: Id)
    requires Inv(s)
    ensures SaneCell(id, Settled(s, id))
  {
    hide Settled, SaneCell;
    SettledIsSane(s, id);
  }

  lemma DismissedBefore(s: State, a: Action, p: Pair)
    requires Enabled(s, a) && !Commits(s, a) && p in Next(s, a).local.dismissed
    ensures JustSaved(Next(s, a)) || (p in s.local.dismissed && (Next(s, a).local.chain == s.local.chain || a == RunCall))
  {
    hide SavedForm, WithoutApprovalsOf, Removed, Chosen, KeysOf, NoticesAmong, ClearedIds, AllRead, Acknowledged,
         NotificationItems, ReadableFile, SavedFile, DismissedFile, Lists, DismissedOf, Unexpired, Remembered;
  }

  lemma CommittedDismissal(s: State, listing: Listing, order: seq<Pair>, at: int, p: Pair)
    requires CommitReady(s) && Enabled(s, FinishLoad(listing, order, at)) && p in order
    requires TextsDiffer(Next(s, FinishLoad(listing, order, at)).local.dismissed)
    ensures DismissalIsSaved(Next(s, FinishLoad(listing, order, at)), p)
  {
    hide Settled, CommitReady, PersistedOf, DismissedOf, SavedForm, LoadedItems, Acknowledged, Reconciled, RunsOf, Lists,
      TextsDiffer;
    var a := FinishLoad(listing, order, at);
    var s' := Next(s, a);
    CommitEstablishesInv(s, listing, order, at);
    CommitIs(s, listing, order, at);
    assert ListsRuns(listing);
    hide Next, Inv;
    if Reconciled(listing.terminals, RunsOf(PersistedOf(s, at))).Keys == {} {
      UnsavedDismissalIsSaved(s, listing, order, at, s', p);
    } else {
      NoTwinWhenTextsDiffer(s'.local.dismissed, p);
      SaveRefreshes(s', DismissalOf(p));
      assert IsDismissalOf(Settled(s', DismissalIdOf(p)).item, p);
    }
  }

  /** As long as dismissed runs have different marker texts, each has its marker on
      disk once the chained calls have run. */
  lemma {:induction false} DifferingDismissalsAreSaved(run: Run, k: nat)
    requires IsRun(run) && k < |run.states|
    requires forall j :: 0 <= j <= k ==> TextsDiffer(run.states[j].local.dismissed)
    ensures DismissalsSaved(run.states[k])
  {
    hide Inv, Next, Enabled, CommitReady, DismissalIsSaved, TextsDiffer;
    if k == 0 {
      var before, listing, order, at :|
        && CommitReady(before) && Enabled(before, FinishLoad(listing, order, at))
        && run.states[0] == Next(before, FinishLoad(listing, order, at));
      forall p
        ensures DismissalIsSaved(run.states[0], p)
      {
        FirstDismissal(before, listing, order, at, p);
      }
    } else {
      RunKeepsInv(run, k - 1);
      assert StepsTo(run.states[k - 1], run.actions[k - 1], run.states[k]);
      DifferingDismissalsAreSaved(run, k - 1);
      StepKeepsDismissals(run.states[k - 1], run.actions[k - 1]);
    }
  }

  lemma FirstDismissal(s: State, listing: Listing, order: seq<Pair>, at: int, p: Pair)
    requires CommitReady(s) && Enabled(s, FinishLoad(listing, order, at))
    requires TextsDiffer(Next(s, FinishLoad(listing, order, at)).local.dismissed)
    ensures DismissalIsSaved(Next(s, FinishLoad(listing, order, at)), p)
  {
    var s' := Next(s, FinishLoad(listing, order, at));
    assert s'.local.dismissed == order;
    hide Next, Enabled, CommitReady, TextsDiffer, Settled;
    if p in order {
      CommittedDismissal(s, listing, order, at, p);
    }
  }

  /** So every dismissal of a run of the program has its marker on disk once the
      chained calls have run. */
  lemma DismissalsAreSaved(run: Run, k: nat)
    requires IsRun(run) && UsesProgramIds(run) && k < |run.states|
    ensures DismissalsSaved(run.states[k])
  {
    hide Inv, Next, Enabled, DismissalIsSaved, TextsDiffer, IsRun, UsesProgramIds;
    forall j | 0 <= j <= k
      ensures TextsDiffer(run.states[j].local.dismissed)
    {
      DismissedTextsDiffer(run, j);
    }
    DifferingDismissalsAreSaved(run, k);
  }
}
