/** Why run ids must be checked: were two dismissed runs to share a marker text, the
    saved queue would keep the later of the two and the next load bring the other one
    back. The ids of the program share none (QueueIds). */
module QueueClash {
  import opened Common
  import opened QueueMerge
  import opened QueueStore
  import opened QueueProtocol
  import opened QueueInvariant
  import opened QueueLoad
  import opened QueueTheorems
  import opened QueueIds
  import opened QueueMemory

  /** No later dismissed run has the marker text of this one. */
  ghost predicate LastWithText(dismissed: seq<Pair>, p: Pair) {
    exists i :: IsLastWithText(dismissed, p, i)
  }

  ghost predicate IsLastWithText(dismissed: seq<Pair>, p: Pair, i: int) {
    && 0 <= i < |dismissed| && dismissed[i] == p
    && forall j :: i < j < |dismissed| ==> MarkerText(dismissed[j]) != MarkerText(p)
  }

  /** The marker that is sent is that of the last run with the text. */
  lemma {:induction false} MarkerIsOfLast(runs: seq<Pair>, now: int, p: Pair, i: int)
    requires IsLastWithText(runs, p, i)
    ensures At(DismissalMarkers(runs, now), DismissalIdOf(p)) == Some(Marker(DismissalIdOf(p), p, now))
    decreases |runs|
  {
    hide MarkerText;
    if i < |runs| - 1 {
      MarkerIsOfLast(runs[..|runs| - 1], now, p, i);
    }
  }

  lemma {:induction false} SomeRunIsLast(runs: seq<Pair>, p: Pair) returns (q: Pair, i: int)
    requires p in runs
    ensures IsLastWithText(runs, q, i) && MarkerText(q) == MarkerText(p)
    decreases |runs|
  {
    hide MarkerText;
    var last := runs[|runs| - 1];
    if MarkerText(last) == MarkerText(p) {
      q, i := last, |runs| - 1;
    } else {
      var front := runs[..|runs| - 1];
      assert runs == front + [last];
      q, i := SomeRunIsLast(front, p);
    }
  }

  /** Right after a save a dismissed run has its record on disk iff it is the last
      dismissed one with its marker text. */
  lemma DismissalIsSavedIffLast(s: State, p: Pair)
    requires Inv(s) && JustSaved(s) && p in s.local.dismissed
    ensures (exists id :: KeyAt(Settled(s, id).item) == Some(p)) <==> LastWithText(s.local.dismissed, p)
  {
    hide Inv, JustSaved, Settled, MarkerText, SavedForm, DismissalMarkers;
    InvLocal(s);
    var q, i := SomeRunIsLast(s.local.dismissed, p);
    var id := DismissalIdOf(p);
    assert DismissalIdOf(q) == id;
    SavedCellNow(s, id);
    MarkerIsOfLast(s.local.dismissed, s.now, q, i);
    SavedFormAt(s.local.items, s.local.readIds, s.local.dismissed, s.now, id);
    assert q in s.local.dismissed;
    MarkerIsKeyed(s, id, q);
    if other :| KeyAt(Settled(s, other).item) == Some(p) {
      SavedCellNow(s, other);
      SavedKey(s, other);
      RunIsNotShown(s, p);
      assert other == id;
      assert q == p;
    }
    if LastWithText(s.local.dismissed, p) {
      var k :| IsLastWithText(s.local.dismissed, p, k);
      MarkerIsOfLast(s.local.dismissed, s.now, p, k);
      MarkerIsKeyed(s, id, p);
    }
  }

  lemma RunIsNotShown(s: State, p: Pair)
    requires RunsAreUnique(s.local.items, s.local.dismissed) && p in s.local.dismissed
    ensures forall id :: id in s.local.items ==> KeyOf(s.local.items[id]) != Some(p)
  {}

  lemma MarkerIsKeyed(s: State, id: Id, q: Pair)
    requires SavedCell(s, id) && id.DismissalId? && LocalSane(s.local.items) && AreRuns(s.local.dismissed)
    requires q in s.local.dismissed
    requires At(SavedForm(s.local.items, s.local.readIds, s.local.dismissed, s.now), id) == Some(Marker(id, q, s.now))
    ensures KeyAt(Settled(s, id).item) == Some(q)
  {
    hide SavedForm, Settled, LocalSane;
  }

  /** A listed run without a record on disk is shown by the load that commits. */
  lemma UnrecordedRunIsShown(s: State, listing: Listing, order: seq<Pair>, at: int, p: Pair)
    requires CommitReady(s) && Enabled(s, FinishLoad(listing, order, at)) && p in listing.terminals
    requires forall id :: KeyAt(Settled(s, id).item) != Some(p)
    ensures var l := Next(s, FinishLoad(listing, order, at)).local;
            CompletionId(p) in l.items && KeyOf(l.items[CompletionId(p)]) == Some(p) && p !in l.dismissed
  {
    var persisted := PersistedOf(s, at);
    CommitStepCommits(s, listing, order, at);
    assert ListsRuns(listing);
    hide Next, Enabled, CommitReady, PersistedOf, Settled, LoadedItems, Acknowledged, DismissedOf;
    forall id | id in persisted
      ensures KeyOf(persisted[id]) != Some(p) && SaneItem(id, persisted[id])
    {
      PersistedIsFile(s, at, id);
    }
    NotAmongRuns(persisted, p);
    ListedRunIsLoaded(persisted, listing, p);
  }

  lemma NotAmongRuns(persisted: Items, p: Pair)
    requires forall id :: id in persisted ==> KeyOf(persisted[id]) != Some(p)
    ensures p !in RunsOf(persisted) && p !in DismissedOf(persisted)
  {}

  lemma ListedRunIsLoaded(persisted: Items, listing: Listing, p: Pair)
    requires ListsRuns(listing) && p in listing.terminals && p !in RunsOf(persisted)
    requires forall id :: id in persisted ==> KeyOf(persisted[id]) != Some(p) && SaneItem(id, persisted[id])
    ensures var items := LoadedItems(persisted, listing);
            CompletionId(p) in items && KeyOf(items[CompletionId(p)]) == Some(p)
  {
    var id := CompletionId(p);
    var reconciled := Reconciled(listing.terminals, RunsOf(persisted));
    assert id in reconciled;
    hide RunsOf, Reconciled;
    ReconciledIs(listing.terminals, RunsOf(persisted), id);
    LoadedFrom(persisted, listing, id);
    assert id in LoadedItems(persisted, listing);
  }

  // ----- a run in which it happens -----

  function LastState(run: Run): State
    requires run.states != []
  {
    run.states[|run.states| - 1]
  }

  lemma Extended(run: Run, a: Action) returns (longer: Run)
    requires IsRun(run) && Enabled(LastState(run), a)
    ensures IsRun(longer) && run.actions <= longer.actions && run.states <= longer.states
    ensures |longer.actions| == |run.actions| + 1 && longer.actions[|run.actions|] == a
    ensures LastState(longer) == Next(LastState(run), a)
  {
    hide Next, Enabled, Started;
    longer := Run(run.states + [Next(LastState(run), a)], run.actions + [a]);
    forall k | 0 <= k < |longer.actions|
      ensures StepsTo(longer.states[k], longer.actions[k], longer.states[k + 1])
    {
      if k < |run.actions| {
        assert StepsTo(run.states[k], run.actions[k], run.states[k + 1]);
      }
    }
  }

  /** Nothing shown, remembered, chained or loading. */
  predicate IsEmptyStore(l: Local) {
    l.items.Keys == {} && l.readIds == {} && l.dismissed == [] && l.chain == [] && l.load == Idle
  }

  /** Runs exist: the first load of an empty file. */
  lemma SomeRun() returns (run: Run)
    ensures IsRun(run) && run.actions == [] && IsEmptyStore(LastState(run).local)
  {
    hide CommitReady, Next, Enabled, IsEmptyStore;
    var before := SomeLoadIsReady();
    var nothing := Listing(map[], map[], map[]);
    NothingIsPersisted(before);
    MayCommit(before, nothing, []);
    FirstLoadShowsNothing(before);
    run := Run([Next(before, FinishLoad(nothing, [], MaxAge))], []);
  }

  lemma FirstLoadShowsNothing(s: State)
    requires CommitReady(s) && s.local.load == AwaitingLists(0, map[], MaxAge) && s.local.chain == []
    requires Enabled(s, FinishLoad(Listing(map[], map[], map[]), [], MaxAge))
    ensures IsEmptyStore(Next(s, FinishLoad(Listing(map[], map[], map[]), [], MaxAge)).local)
  {
    hide Next, Enabled, CommitReady, PersistedOf, LoadedItems, Reconciled, RunsOf, Acknowledged, DismissedOf, Lists;
    NothingIsPersisted(s);
    CommitIs(s, Listing(map[], map[], map[]), [], MaxAge);
    NothingIsLoaded(PersistedOf(s, MaxAge));
  }

  lemma NothingIsPersisted(s: State)
    requires s.local.load == AwaitingLists(0, map[], MaxAge)
    ensures PersistedOf(s, MaxAge).Keys == {} && Lists([], DismissedOf(PersistedOf(s, MaxAge)))
    ensures PersistedOf(s, MaxAge) == Unexpired(s.local.load.raw, MaxAge - MaxAge)
  {}

  lemma NothingIsLoaded(persisted: Items)
    requires persisted.Keys == {}
    ensures LoadedItems(persisted, Listing(map[], map[], map[])).Keys == {}
    ensures Reconciled(map[], RunsOf(persisted)).Keys == {} && Acknowledged(persisted) == {}
  {
    var nothing := Listing(map[], map[], map[]);
    forall id
      ensures id !in LoadedItems(persisted, nothing)
    {
      LoadedFrom(persisted, nothing, id);
      ReconciledIs(nothing.terminals, RunsOf(persisted), id);
      NothingIsListed(persisted, id);
    }
    NothingIsReconciled(RunsOf(persisted));
  }

  lemma NothingIsReconciled(known: set<Pair>)
    ensures Reconciled(map[], known).Keys == {}
  {}

  lemma NothingIsListed(persisted: Items, id: Id)
    requires persisted.Keys == {}
    ensures id !in NotificationItems(map[], Acknowledged(persisted)) && id !in ApprovalItems(map[]) && id !in LegacyOf(persisted)
    ensures id in LoadedItems(persisted, Listing(map[], map[], map[])) ==> id in Reconciled(map[], RunsOf(persisted))
  {
    hide Reconciled, RunsOf, Acknowledged;
  }

  lemma SomeLoadIsReady() returns (s: State)
    ensures CommitReady(s) && s.local.load == AwaitingLists(0, map[], MaxAge)
    ensures s.local.chain == [] && s.local.revision == 0 && s.now == MaxAge
  {
    s := State(Local(map[], {}, [], 0, [], AwaitingLists(0, map[], MaxAge)), map[], {}, MaxAge, 0);
    forall id
      ensures SaneCell(id, CellOf(s.file, s.base, id)) && Settled(s, id) == Cell(false, None)
    {}
    hide Settled;
    assert RecordsAreUnique(s);
    assert StoredSane(s);
  }

  lemma OneCallRuns(s: State)
    requires s.local.chain != [] && s.local.load.Idle?
    ensures Enabled(s, RunCall)
    ensures var t := Next(s, RunCall);
            && t.local == s.local.(chain := s.local.chain[1..]) && t.now == s.now
            && forall id :: Settled(t, id) == Settled(s, id)
  {
    hide Settled, SavedFile, DismissedFile;
    forall id
      ensures Settled(Next(s, RunCall), id) == Settled(s, id)
    {
      RunCallKeepsSettled(s, id);
    }
  }

  /** The chained calls can all run, and change nothing else. */
  lemma {:induction false} Drained(run: Run) returns (longer: Run)
    requires IsRun(run) && LastState(run).local.load.Idle?
    ensures IsRun(longer) && run.actions <= longer.actions && run.states <= longer.states
    ensures var s, t := LastState(run), LastState(longer);
            && t.local == s.local.(chain := []) && t.now == s.now
            && forall id :: Settled(t, id) == Settled(s, id)
    decreases |LastState(run).local.chain|
  {
    hide Settled, Next, Enabled, Started;
    var s := LastState(run);
    if s.local.chain == [] {
      longer := run;
    } else {
      OneCallRuns(s);
      var one := Extended(run, RunCall);
      hide IsRun;
      longer := Drained(one);
    }
  }

  lemma {:induction false} SomeOrder(runs: set<Pair>) returns (order: seq<Pair>)
    ensures Lists(order, runs)
  {
    if runs == {} {
      order := [];
    } else {
      var p :| p in runs;
      var rest := SomeOrder(runs - {p});
      order := [p] + rest;
    }
  }

  /** The parts of a load that nothing disturbs, up to its commit. */
  lemma LoadGoesThrough(s: State)
    requires s.local.load.Idle? && s.local.chain == []
    ensures Enabled(s, StartLoad) && Enabled(Next(s, StartLoad), FinishSaves)
    ensures Enabled(Next(Next(s, StartLoad), FinishSaves), ReadFile)
    ensures var t := Next(Next(Next(s, StartLoad), FinishSaves), ReadFile);
            && t.file == s.file && t.now == s.now && t.local.chain == []
            && t.local.load.AwaitingLists? && t.local.load.since == t.now && t.local.load.revision == t.local.revision
  {
    var two := Next(Next(s, StartLoad), FinishSaves);
    assert two == s.(local := s.local.(load := AwaitingFile(s.local.revision)));
    hide ReadableFile;
  }

  lemma UnchainedFile(s: State, id: Id)
    requires s.local.chain == []
    ensures Settled(s, id).item == At(s.file, id)
  {}

  lemma MayCommit(s: State, listing: Listing, order: seq<Pair>)
    requires s.local.load.AwaitingLists? && s.local.load.since == s.now && ListsRuns(listing)
    requires Lists(order, DismissedOf(Unexpired(s.local.load.raw, s.now - MaxAge)))
    ensures Enabled(s, FinishLoad(listing, order, s.now))
  {
    hide Lists, DismissedOf, Unexpired;
  }

  /** A load with these terminal runs goes through undisturbed. */
  lemma Reloaded(run: Run, listing: Listing) returns (longer: Run, order: seq<Pair>, ready: State)
    requires IsRun(run) && LastState(run).local.load.Idle? && LastState(run).local.chain == [] && ListsRuns(listing)
    ensures IsRun(longer) && run.actions <= longer.actions && run.states <= longer.states
    ensures CommitReady(ready) && ready.now == LastState(run).now
    ensures Enabled(ready, FinishLoad(listing, order, ready.now))
    ensures LastState(longer) == Next(ready, FinishLoad(listing, order, ready.now))
    ensures forall id :: Settled(ready, id).item == Settled(LastState(run), id).item
  {
    hide Next, Enabled, Settled, Started, CommitReady, Inv, Unexpired, DismissedOf, Lists, ListsRuns;
    var s := LastState(run);
    LoadGoesThrough(s);
    var one := Extended(run, StartLoad);
    var two := Extended(one, FinishSaves);
    var three := Extended(two, ReadFile);
    ready := LastState(three);
    RunKeepsInv(three, |three.states| - 1);
    hide IsRun;
    forall id
      ensures Settled(ready, id).item == Settled(s, id).item
    {
      UnchainedFile(s, id);
      UnchainedFile(ready, id);
    }
    InvGivesReady(ready);
    order := SomeOrder(DismissedOf(Unexpired(ready.local.load.raw, ready.now - MaxAge)));
    MayCommit(ready, listing, order);
    longer := Extended(three, FinishLoad(listing, order, ready.now));
  }

  /** Exactly these two items are shown. */
  ghost predicate ShowsBoth(items: Items, first: QueueItem, second: QueueItem) {
    && items.Keys == {Uuid("1"), Uuid("2")}
    && items[Uuid("1")] == first && items[Uuid("2")] == second
  }

  ghost predicate ShowsSecond(items: Items, second: QueueItem) {
    items.Keys == {Uuid("2")} && items[Uuid("2")] == second
  }

  lemma BothArrive(run: Run, p: Pair, q: Pair) returns (longer: Run)
    requires IsRun(run) && IsEmptyStore(LastState(run).local) && p != q
    requires p.0 != "" && p.1 != "" && q.0 != "" && q.1 != ""
    ensures IsRun(longer)
    ensures var s := LastState(longer);
            && ShowsBoth(s.local.items, CompletionItem(Uuid("1"), p.0, Some(p.1), s.now),
                         CompletionItem(Uuid("2"), q.0, Some(q.1), s.now))
            && s.local.dismissed == [] && s.local.load.Idle?
  {
    hide Next, Enabled, Started;
    CompletionArrives(LastState(run), p, "1");
    var one := Extended(run, AddCompletion(p.0, Some(p.1), Uuid("1")));
    hide IsRun;
    CompletionArrives(LastState(one), q, "2");
    longer := Extended(one, AddCompletion(q.0, Some(q.1), Uuid("2")));
  }

  /** Both completions arrive and are dismissed, one after the other. */
  lemma BothDismissed(run: Run, p: Pair, q: Pair) returns (longer: Run, at: nat)
    requires IsRun(run) && IsEmptyStore(LastState(run).local) && p != q
    requires p.0 != "" && p.1 != "" && q.0 != "" && q.1 != ""
    ensures IsRun(longer) && at < |longer.actions|
    ensures Discards(longer.states[at], longer.actions[at], Uuid("1"), p)
    ensures longer.states[at].now == LastState(longer).now
    ensures LastState(longer).local.dismissed == [p, q]
    ensures LastState(longer).local.load.Idle? && JustSaved(LastState(longer))
  {
    hide Next, Enabled, Started, JustSaved;
    var two := BothArrive(run, p, q);
    var s := LastState(two);
    at := |two.actions|;
    assert at == |two.states| - 1;
    hide IsRun;
    FirstDismissed(s, s.local.items[Uuid("1")], s.local.items[Uuid("2")], p);
    var three := Extended(two, Dismiss(Uuid("1")));
    SecondDismissed(LastState(three), s.local.items[Uuid("2")], p, q);
    longer := Extended(three, Dismiss(Uuid("2")));
    assert longer.states[at] == s && longer.actions[at] == Dismiss(Uuid("1"));
  }

  /** A completion of a run that is neither shown nor dismissed is added. */
  lemma CompletionArrives(s: State, p: Pair, text: string)
    requires s.local.load.Idle? && s.local.dismissed == [] && Uuid(text) !in s.local.items
    requires forall id :: id in s.local.items ==>
      KeyOf(s.local.items[id]).Some? && KeyOf(s.local.items[id]) != Some(p) && s.local.items[id].approval.None?
    ensures var a := AddCompletion(p.0, Some(p.1), Uuid(text));
            && Enabled(s, a)
            && var t := Next(s, a);
               && t.local.items.Keys == s.local.items.Keys + {Uuid(text)}
               && t.local.items[Uuid(text)] == CompletionItem(Uuid(text), p.0, Some(p.1), s.now)
               && (forall id :: id in s.local.items ==> t.local.items[id] == s.local.items[id])
               && t.local.dismissed == [] && t.local.load.Idle? && t.now == s.now
  {
    hide SavedForm;
    assert !CompletionIsKnown(s.local, p.0, Some(p.1));
    KeepsCards(s.local.items, p.0, Some(p.1));
    hide CompletionIsKnown, WithoutApprovalsOf;
  }

  lemma KeepsCards(items: Items, automation: string, run: Option<string>)
    requires forall id :: id in items ==> items[id].approval.None?
    ensures WithoutApprovalsOf(items, automation, run).Keys == items.Keys
    ensures forall id :: id in items ==> WithoutApprovalsOf(items, automation, run)[id] == items[id]
  {}

  lemma FirstDismissed(s: State, first: QueueItem, second: QueueItem, p: Pair)
    requires ShowsBoth(s.local.items, first, second) && s.local.dismissed == [] && s.local.load.Idle?
    requires KeyOf(first) == Some(p) && !IsReadProtected(first) && !IsProviderTurnNotice(first)
    ensures Enabled(s, Dismiss(Uuid("1")))
    ensures var t := Next(s, Dismiss(Uuid("1")));
            ShowsSecond(t.local.items, second) && t.local.dismissed == [p] && t.local.load.Idle? && t.now == s.now
  {
    hide SavedForm;
    assert Remembered([], [p]) == [p] by { assert [p][1..] == [] && [] + [p] == [p]; }
  }

  lemma SecondDismissed(s: State, second: QueueItem, p: Pair, q: Pair)
    requires ShowsSecond(s.local.items, second) && s.local.dismissed == [p] && s.local.load.Idle? && p != q
    requires KeyOf(second) == Some(q) && !IsReadProtected(second) && !IsProviderTurnNotice(second)
    ensures Enabled(s, Dismiss(Uuid("2")))
    ensures var t := Next(s, Dismiss(Uuid("2")));
            t.local.dismissed == [p, q] && t.local.load.Idle? && t.now == s.now && JustSaved(t)
  {
    hide SavedForm;
    assert Remembered([p], [q]) == [p, q] by { assert [q][1..] == [] && [p] + [q] == [p, q]; }
  }

  /** So for any two runs with one marker text, which the store by itself accepts, some
      run of the queue dismisses the first, and shows it again at the next load, with no
      time gone by. */
  lemma ClashingRunReturns(p: Pair, q: Pair) returns (run: Run, at: nat)
    requires p != q && MarkerText(p) == MarkerText(q)
    requires p.0 != "" && p.1 != "" && q.0 != "" && q.1 != ""
    ensures IsRun(run) && at < |run.actions| && Discards(run.states[at], run.actions[at], Uuid("1"), p)
    ensures LastState(run).now == run.states[at].now
    ensures var l := LastState(run).local;
            CompletionId(p) in l.items && KeyOf(l.items[CompletionId(p)]) == Some(p) && p !in l.dismissed
  {
    hide MarkerText, Settled, Inv, JustSaved, CommitReady;
    var start := SomeRun();
    var dismissed;
    dismissed, at := BothDismissed(start, p, q);
    var s := LastState(dismissed);
    RunKeepsInv(dismissed, |dismissed.states| - 1);
    assert !LastWithText(s.local.dismissed, p) by {
      forall i
        ensures !IsLastWithText([p, q], p, i)
      {
        assert [p, q][1] == q && [p, q][0] == p;
      }
    }
    DismissalIsSavedIffLast(s, p);
    var drained := Drained(dismissed);
    var listing := Listing(map[], map[], map[p := s.now]);
    var order, ready;
    hide IsRun, Enabled, Next, Discards;
    run, order, ready := Reloaded(drained, listing);
    forall id
      ensures KeyAt(Settled(ready, id).item) != Some(p)
    {
      assert Settled(ready, id).item == Settled(s, id).item;
    }
    UnrecordedRunIsShown(ready, listing, order, ready.now, p);
  }

  lemma RefusedPair()
    ensures !IsRunPair(("a:b", "c"))
  {
    assert ("a:b")[1] == ':';
    hide IsSafeComponent;
    if IsSafeComponent("a:b") {
      SafeComponentHasNoColon("a:b");
    }
  }

  /** Unchecked ids would allow this, for example; the colons are refused. */
  lemma ColonsBringRunsBack() returns (run: Run, at: nat)
    ensures IsRun(run) && at < |run.actions| && Discards(run.states[at], run.actions[at], Uuid("1"), ("a:b", "c"))
    ensures LastState(run).now == run.states[at].now
    ensures CompletionId(("a:b", "c")) in LastState(run).local.items
    ensures !IsRunPair(("a:b", "c"))
  {
    RefusedPair();
    ColonTextsCollide();
    hide MarkerText, IsRun, Discards;
    run, at := ClashingRunReturns(("a:b", "c"), ("a", "b:c"));
  }
}
