/** The ids that the program gives to automations and their runs
    (crates/wardian-core/src/paths.rs), and what they mean for the texts of queue ids:
    no two queue ids have the same text. */
module QueueIds {
  import opened Common
  import opened QueueMerge
  import opened QueueStore
  import opened QueueProtocol
  import opened QueueInvariant
  import opened QueueSteps
  import opened QueueLoad
  import opened QueueTheorems

  predicate IsSafeChar(c: char) {
    'a' <= c <= 'z' || 'A' <= c <= 'Z' || '0' <= c <= '9' || c == '-' || c == '_' || c == '.'
  }

  /** ASCII letters and digits, '-' (45), '.' (46) and '_' (95). */
  lemma SafeCharCodes(c: char)
    ensures var code := c as int;
            IsSafeChar(c) <==>
              48 <= code <= 57 || 65 <= code <= 90 || 97 <= code <= 122 || code == 45 || code == 46 || code == 95
  {}

  /** is_safe_path_component. */
  predicate IsSafeComponent(value: string) {
    var trimmed := Trim(value);
    && trimmed != "" && trimmed != "." && trimmed != ".."
    && forall i :: 0 <= i < |trimmed| ==> IsSafeChar(trimmed[i])
  }

  /** automation_run_dir gives a directory to these runs and to no others. */
  predicate IsRunPair(p: Pair) {
    IsSafeComponent(p.0) && IsSafeComponent(p.1)
  }

  lemma SafeComponentHasNoColon(value: string)
    requires IsSafeComponent(value)
    ensures ':' !in value
  {
    if ':' in value {
      TrimKeepsInk(value, ':');
    }
  }

  // ----- id texts -----

  function IdText(id: Id): string {
    match id
    case Uuid(text) => text
    case CompletionId(p) => "automation-completion" + ":" + (p.0 + ":" + p.1)
    case DismissalId(text) => text
    case ReadId(n) => "notification-read" + ":" + n
    case NoticeId(text) => text
    case NotificationId(n) => "notification" + ":" + n
    case ApprovalId(p, node) => "automation-approval" + ":" + (p.0 + ":" + (p.1 + ":" + node))
  }

  /** The part of a notice id before its first colon tells the two kinds apart. */
  predicate IsNoticeText(text: string) {
    "agent-completed:" <= text || "agent-turn-ended:" <= text
  }

  /** The ids the program makes: a random id has no colon, and automations and runs
      have safe ids. */
  ghost predicate IsProgramId(id: Id) {
    match id
    case Uuid(text) => ':' !in text
    case CompletionId(p) => IsRunPair(p)
    case DismissalId(text) => exists p: Pair :: IsRunPair(p) && text == MarkerText(p)
    case NoticeId(text) => IsNoticeText(text)
    case ApprovalId(p, _) => IsRunPair(p)
    case _ => true
  }

  function HeadText(id: Id): string
    requires !id.Uuid?
  {
    match id
    case CompletionId(_) => "automation-completion"
    case DismissalId(_) => "automation-dismissed"
    case ReadId(_) => "notification-read"
    case NotificationId(_) => "notification"
    case ApprovalId(_, _) => "automation-approval"
    case NoticeId(text) => if "agent-completed:" <= text then "agent-completed" else "agent-turn-ended"
  }

  lemma HeadHasNoColon(id: Id)
    requires !id.Uuid?
    ensures ':' !in HeadText(id)
  {}

  lemma TextBeginsWithHead(id: Id) returns (rest: string)
    requires IsProgramId(id) && !id.Uuid?
    ensures IdText(id) == HeadText(id) + ":" + rest
  {
    hide IsRunPair;
    match id
    case CompletionId(p) => rest := p.0 + ":" + p.1;
    case DismissalId(text) => rest := MarkerRest(text);
    case ReadId(n) => rest := n;
    case NotificationId(n) => rest := n;
    case ApprovalId(p, node) => rest := p.0 + ":" + (p.1 + ":" + node);
    case NoticeId(text) => rest := NoticeRest(text);
  }

  lemma MarkerRest(text: string) returns (rest: string)
    requires IsProgramId(DismissalId(text))
    ensures text == "automation-dismissed" + ":" + rest
  {
    hide IsRunPair;
    var p: Pair :| IsRunPair(p) && text == MarkerText(p);
    rest := p.0 + ":" + p.1;
    Regroup("automation-dismissed", p.0, p.1);
    assert "automation-dismissed" + ":" == "automation-dismissed:";
  }

  lemma Regroup(head: string, x: string, y: string)
    ensures head + ":" + x + ":" + y == head + ":" + (x + ":" + y)
  {}

  lemma NoticeRest(text: string) returns (rest: string)
    requires IsNoticeText(text)
    ensures text == HeadText(NoticeId(text)) + ":" + rest
  {
    if "agent-completed:" <= text {
      assert "agent-completed" + ":" == "agent-completed:";
      rest := text[16..];
    } else {
      assert "agent-turn-ended" + ":" == "agent-turn-ended:";
      rest := text[17..];
    }
  }

  /** Ids of different kinds have different texts. */
  lemma KindsDiffer(a: Id, b: Id)
    requires IsProgramId(a) && IsProgramId(b) && IdText(a) == IdText(b)
    ensures a.Uuid? <==> b.Uuid?
    ensures !a.Uuid? ==> HeadText(a) == HeadText(b)
  {
    hide IdText, HeadText, IsProgramId;
    if !a.Uuid? && !b.Uuid? {
      var x := TextBeginsWithHead(a);
      var y := TextBeginsWithHead(b);
      HeadHasNoColon(a);
      HeadHasNoColon(b);
      FirstColonSplits(HeadText(a), x, HeadText(b), y);
    } else if !a.Uuid? {
      UuidHasNoHead(b, a);
    } else if !b.Uuid? {
      UuidHasNoHead(a, b);
    }
  }

  lemma UuidHasNoHead(a: Id, b: Id)
    requires IsProgramId(a) && IsProgramId(b) && a.Uuid? && !b.Uuid?
    ensures IdText(a) != IdText(b)
  {
    var rest := TextBeginsWithHead(b);
    assert (HeadText(b) + ":" + rest)[|HeadText(b)|] == ':';
  }

  lemma AfterHead(head: string, x: string, y: string)
    requires head + ":" + x == head + ":" + y
    ensures x == y
  {
    assert (head + ":" + x)[|head| + 1..] == x && (head + ":" + y)[|head| + 1..] == y;
  }

  /** Structured ids stand for their texts exactly: no two ids of the program share a
      text, completions of different runs included. */
  lemma IdTextsDiffer(a: Id, b: Id)
    requires IsProgramId(a) && IsProgramId(b) && IdText(a) == IdText(b)
    ensures a == b
  {
    KindsDiffer(a, b);
    SameKind(a, b);
    match a
    case CompletionId(p) =>
      AfterHead("automation-completion", p.0 + ":" + p.1, b.pair.0 + ":" + b.pair.1);
      SafePairSplits(p, "", b.pair, "");
    case ApprovalId(p, node) =>
      var q, other := b.pair, b.node;
      AfterHead("automation-approval", p.0 + ":" + (p.1 + ":" + node), q.0 + ":" + (q.1 + ":" + other));
      SafeComponentHasNoColon(p.0);
      SafeComponentHasNoColon(q.0);
      FirstColonSplits(p.0, p.1 + ":" + node, q.0, q.1 + ":" + other);
      SafeComponentHasNoColon(p.1);
      SafeComponentHasNoColon(q.1);
      FirstColonSplits(p.1, node, q.1, other);
    case ReadId(n) => AfterHead("notification-read", n, b.notification);
    case NotificationId(n) => AfterHead("notification", n, b.notification);
    case _ =>
  }

  lemma SafePairSplits(p: Pair, x: string, q: Pair, y: string)
    requires IsRunPair(p) && IsRunPair(q) && p.0 + ":" + p.1 == q.0 + ":" + q.1
    ensures p == q
  {
    SafeComponentHasNoColon(p.0);
    SafeComponentHasNoColon(q.0);
    FirstColonSplits(p.0, p.1, q.0, q.1);
  }

  lemma SameKind(a: Id, b: Id)
    requires IsProgramId(a) && IsProgramId(b) && (a.Uuid? <==> b.Uuid?) && (!a.Uuid? ==> HeadText(a) == HeadText(b))
    ensures a.CompletionId? <==> b.CompletionId?
    ensures a.DismissalId? <==> b.DismissalId?
    ensures a.ReadId? <==> b.ReadId?
    ensures a.NoticeId? <==> b.NoticeId?
    ensures a.NotificationId? <==> b.NotificationId?
    ensures a.ApprovalId? <==> b.ApprovalId?
  {
    HeadsOfKinds(a);
    HeadsOfKinds(b);
  }

  lemma HeadsOfKinds(a: Id)
    ensures a.CompletionId? ==> |HeadText(a)| == 21
    ensures a.DismissalId? ==> |HeadText(a)| == 20
    ensures a.ReadId? ==> |HeadText(a)| == 17
    ensures a.NotificationId? ==> |HeadText(a)| == 12
    ensures a.ApprovalId? ==> |HeadText(a)| == 19
    ensures a.NoticeId? ==> |HeadText(a)| == 15 || |HeadText(a)| == 16
  {}

  // ----- safe ids throughout a run -----

  predicate HasSafeKey(item: QueueItem) {
    KeyOf(item).Some? ==> IsRunPair(KeyOf(item).value)
  }

  ghost predicate SafeKeys(items: Items) {
    forall id :: id in items ==> HasSafeKey(items[id])
  }

  ghost predicate SafeRuns(runs: seq<Pair>) {
    forall p :: p in runs ==> IsRunPair(p)
  }

  ghost predicate SafeChain(chain: seq<Op>) {
    forall k :: 0 <= k < |chain| && chain[k].SaveItems? ==> SafeKeys(chain[k].items)
  }

  /** All runs the store or the file names have ids of the program. */
  ghost predicate KeysAreSafe(s: State) {
    && SafeKeys(s.local.items) && SafeRuns(s.local.dismissed) && SafeChain(s.local.chain) && SafeKeys(s.file)
    && (s.local.load.AwaitingLists? ==> SafeKeys(s.local.load.raw))
  }

  /** The backend announces and lists runs that it gave a directory to. */
  ghost predicate IsSafeAction(a: Action) {
    match a
    case AddCompletion(automation, run, _) => automation != "" && IsText(run) ==> IsRunPair((automation, run.value))
    case FinishLoad(listing, _, _) => forall p :: p in listing.terminals ==> IsRunPair(p)
    case _ => true
  }

  ghost predicate UsesProgramIds(run: Run)
    requires run.states != []
  {
    KeysAreSafe(run.states[0]) && forall k :: 0 <= k < |run.actions| ==> IsSafeAction(run.actions[k])
  }

  lemma SavedFormIsSafe(items: Items, readIds: set<string>, dismissed: seq<Pair>, now: int)
    requires SafeKeys(items) && SafeRuns(dismissed)
    ensures SafeKeys(SavedForm(items, readIds, dismissed, now))
  {
    hide IsRunPair, MarkerText;
    forall id | id in SavedForm(items, readIds, dismissed, now)
      ensures HasSafeKey(SavedForm(items, readIds, dismissed, now)[id])
    {
      MarkersAt(dismissed, now, id);
      hide DismissalMarkers;
      assert id in items ==> HasSafeKey(items[id]);
    }
  }

  lemma MutationKeepsSafe(s: State, l: Local, items: Items, readIds: set<string>, dismissed: seq<Pair>)
    requires KeysAreSafe(s) && SafeKeys(items) && SafeRuns(dismissed)
    requires l == s.local.(chain := l.chain)
    requires l.chain == s.local.chain || exists ids :: l.chain == s.local.chain + [DismissNotices(ids)]
    ensures KeysAreSafe(s.(local := Mutated(l, items, readIds, dismissed, s.now)))
    ensures KeysAreSafe(s.(local := Persisting(l, items, readIds, dismissed, s.now)))
  {
    SavedFormIsSafe(items, readIds, dismissed, s.now);
    hide SavedForm, HasSafeKey, SafeKeys, SafeRuns;
  }

  /** Items that keep their kind, automation and run keep safe keys. */
  ghost predicate KeepsKeys(items: Items, items': Items) {
    forall id :: id in items' && KeyOf(items'[id]).Some? ==> id in items && KeyOf(items'[id]) == KeyOf(items[id])
  }

  lemma KeptKeysAreSafe(items: Items, items': Items)
    requires SafeKeys(items) && KeepsKeys(items, items')
    ensures SafeKeys(items')
  {
    hide IsRunPair;
    forall id | id in items'
      ensures HasSafeKey(items'[id])
    {
      assert id in items ==> HasSafeKey(items[id]);
    }
  }

  lemma DiscardKeepsSafe(s: State, ids: set<Id>, runs: seq<Pair>)
    requires KeysAreSafe(s) && Lists(runs, KeysOf(Chosen(s.local.items, ids)))
    ensures KeysAreSafe(s.(local := Discarded(s.local, ids, runs, s.now)))
  {
    var l := s.local;
    KeptKeysAreSafe(l.items, Removed(l.items, ids));
    forall p | p in Remembered(l.dismissed, runs)
      ensures IsRunPair(p)
    {
      if p in runs {
        var id :| id in Chosen(l.items, ids) && KeyOf(Chosen(l.items, ids)[id]) == Some(p);
        assert HasSafeKey(l.items[id]);
      }
    }
    hide SavedForm, NoticesAmong, Removed, IsRunPair;
    MutationKeepsSafe(s, DismissingNotices(l, NoticesAmong(l.items, ids)), Removed(l.items, ids), l.readIds,
                      Remembered(l.dismissed, runs));
  }

  lemma AddKeepsSafe(s: State, automation: string, run: Option<string>, newId: Id)
    requires KeysAreSafe(s) && IsSafeAction(AddCompletion(automation, run, newId))
    ensures KeysAreSafe(s.(local := CompletionAdded(s.local, automation, run, newId, s.now)))
  {
    var l := s.local;
    hide IsRunPair, CompletionIsKnown;
    var kept := WithoutApprovalsOf(l.items, automation, run);
    KeptKeysAreSafe(l.items, kept);
    var items := kept[newId := CompletionItem(newId, automation, run, s.now)];
    assert SafeKeys(items);
    MutationKeepsSafe(s, l, items, l.readIds, l.dismissed);
  }

  lemma UpdateKeepsSafe(s: State, items: Items, readIds: set<string>)
    requires KeysAreSafe(s) && KeepsKeys(s.local.items, items)
    ensures KeysAreSafe(s.(local := Mutated(s.local, items, readIds, s.local.dismissed, s.now)))
  {
    KeptKeysAreSafe(s.local.items, items);
    MutationKeepsSafe(s, s.local, items, readIds, s.local.dismissed);
  }

  lemma LoadedKeysAreSafe(persisted: Items, listing: Listing)
    requires SafeKeys(persisted) && forall p :: p in listing.terminals ==> IsRunPair(p)
    ensures SafeKeys(LoadedItems(persisted, listing))
  {
    hide IsRunPair, LoadedItems, RunsOf;
    forall id | id in LoadedItems(persisted, listing)
      ensures HasSafeKey(LoadedItems(persisted, listing)[id])
    {
      LoadedFrom(persisted, listing, id);
      assert id in persisted ==> HasSafeKey(persisted[id]);
    }
  }

  lemma DismissedAreSafe(persisted: Items, order: seq<Pair>)
    requires SafeKeys(persisted) && Lists(order, DismissedOf(persisted))
    ensures SafeRuns(order)
  {
    forall p | p in order
      ensures IsRunPair(p)
    {
      var id :| id in persisted && persisted[id].dismissed && KeyOf(persisted[id]) == Some(p);
      assert HasSafeKey(persisted[id]);
    }
  }

  /** A load leaves the store alone or shows what it found. */
  predicate Finishes(l: Local, l': Local, items: Items, order: seq<Pair>, saved: Items) {
    && l'.load.Idle?
    && (|| (l'.items == l.items && l'.dismissed == l.dismissed && l'.chain == l.chain)
        || (&& l'.items == items && l'.dismissed == order
            && (l'.chain == l.chain || l'.chain == l.chain + [SaveItems(saved)])))
  }

  lemma FinishIs(l: Local, listing: Listing, order: seq<Pair>, at: int, now: int)
    requires l.load.AwaitingLists?
    ensures var persisted := Unexpired(l.load.raw, at - MaxAge);
            var items := LoadedItems(persisted, listing);
            Finishes(l, LoadFinished(l, listing, order, at, now), items, order,
                     SavedForm(items, Acknowledged(persisted), order, now))
  {
    hide LoadedItems, Reconciled, RunsOf, Acknowledged, SavedForm, Unexpired;
  }

  lemma FinishedIsSafe(s: State, s': State, items: Items, order: seq<Pair>, saved: Items)
    requires KeysAreSafe(s) && Finishes(s.local, s'.local, items, order, saved) && s'.file == s.file
    requires SafeKeys(items) && SafeRuns(order) && SafeKeys(saved)
    ensures KeysAreSafe(s')
  {
    hide SafeKeys, SafeRuns;
  }

  lemma FoundIsSafe(raw: Items, listing: Listing, order: seq<Pair>, cutoff: int)
    requires SafeKeys(raw) && Lists(order, DismissedOf(Unexpired(raw, cutoff)))
    requires forall p :: p in listing.terminals ==> IsRunPair(p)
    ensures SafeKeys(LoadedItems(Unexpired(raw, cutoff), listing)) && SafeRuns(order)
  {
    var persisted := Unexpired(raw, cutoff);
    hide LoadedItems, Lists, DismissedOf, IsRunPair, SafeKeys, SafeRuns;
    assert KeepsKeys(raw, persisted);
    hide Unexpired, KeepsKeys;
    KeptKeysAreSafe(raw, persisted);
    LoadedKeysAreSafe(persisted, listing);
    DismissedAreSafe(persisted, order);
  }

  lemma FinishIsLoad(s: State, listing: Listing, order: seq<Pair>, at: int)
    requires Enabled(s, FinishLoad(listing, order, at))
    ensures s.local.load.AwaitingLists? && Lists(order, DismissedOf(Unexpired(s.local.load.raw, at - MaxAge)))
    ensures Next(s, FinishLoad(listing, order, at)).file == s.file
    ensures Next(s, FinishLoad(listing, order, at)).local == LoadFinished(s.local, listing, order, at, s.now)
  {
    hide LoadFinished, Lists, DismissedOf, Unexpired;
  }

  lemma FinishKeepsSafe(s: State, listing: Listing, order: seq<Pair>, at: int)
    requires KeysAreSafe(s) && Enabled(s, FinishLoad(listing, order, at)) && IsSafeAction(FinishLoad(listing, order, at))
    ensures KeysAreSafe(Next(s, FinishLoad(listing, order, at)))
  {
    hide LoadedItems, Acknowledged, SavedForm, IsRunPair, LoadFinished, Finishes, Next, Enabled, Lists, DismissedOf, Unexpired,
      SafeKeys, SafeRuns, SafeChain;
    FinishIsLoad(s, listing, order, at);
    FinishIs(s.local, listing, order, at, s.now);
    var persisted := Unexpired(s.local.load.raw, at - MaxAge);
    var items, readIds := LoadedItems(persisted, listing), Acknowledged(persisted);
    FoundIsSafe(s.local.load.raw, listing, order, at - MaxAge);
    hide KeysAreSafe;
    SavedFormIsSafe(items, readIds, order, s.now);
    FinishedIsSafe(s, Next(s, FinishLoad(listing, order, at)), items, order, SavedForm(items, readIds, order, s.now));
  }

  lemma CallKeepsSafe(s: State)
    requires KeysAreSafe(s) && s.local.chain != []
    ensures KeysAreSafe(Next(s, RunCall))
  {
    var s' := Next(s, RunCall);
    var op := s.local.chain[0];
    forall id | id in s'.file
      ensures HasSafeKey(s'.file[id])
    {
      assert At(s'.file, id) == StepAt(op, id, CellOf(s.file, s.base, id)).item;
      StepKeepsSafeKey(op, id, CellOf(s.file, s.base, id));
    }
    hide HasSafeKey, SavedFile, DismissedFile;
  }

  lemma StepKeepsSafeKey(op: Op, id: Id, c: Cell)
    requires op.SaveItems? ==> SafeKeys(op.items)
    requires c.item.Some? ==> HasSafeKey(c.item.value)
    ensures StepAt(op, id, c).item.Some? ==> HasSafeKey(StepAt(op, id, c).item.value)
  {
    hide IsRunPair;
  }

  lemma StepKeepsSafeIds(s: State, a: Action)
    requires Inv(s) && KeysAreSafe(s) && Enabled(s, a) && IsSafeAction(a)
    ensures KeysAreSafe(Next(s, a))
  {
    hide Inv, KeysAreSafe, Lists, SavedForm;
    match a
    case AddCompletion(automation, run, newId) => AddKeepsSafe(s, automation, run, newId);
    case Dismiss(id) => DiscardKeepsSafe(s, {id}, RunOf(s.local.items, id));
    case ClearRead(order) => DiscardKeepsSafe(s, ClearedIds(s.local.items), order);
    case FinishLoad(listing, order, at) => FinishKeepsSafe(s, listing, order, at);
    case RunCall => CallKeepsSafe(s);
    case _ => OtherStepKeepsSafe(s, a);
  }

  lemma OtherStepKeepsSafe(s: State, a: Action)
    requires KeysAreSafe(s) && Enabled(s, a)
    requires !a.AddCompletion? && !a.Dismiss? && !a.ClearRead? && !a.FinishLoad? && !a.RunCall?
    ensures KeysAreSafe(Next(s, a))
  {
    hide SafeChain, SafeRuns, SavedForm;
    var l := s.local;
    match a
    case MarkRead(id) =>
      var items := if id in l.items then l.items[id := l.items[id].(read := true)] else l.items;
      var readIds := if id in l.items && l.items[id].inbox.Some? then l.readIds + {l.items[id].inbox.value} else l.readIds;
      UpdateKeepsSafe(s, items, readIds);
    case MarkAllRead => UpdateKeepsSafe(s, AllRead(l.items), l.readIds + Acknowledged(AllRead(l.items)));
    case NeedAction(newId) =>
      UpdateKeepsSafe(s, l.items[newId := Item(newId, ActionNeeded, s.now, false, false, None, None, None, None, false, None, None)],
                      l.readIds);
    case RecordChoice(id, choice) =>
      UpdateKeepsSafe(s, if id in l.items then l.items[id := l.items[id].(choiceSent := Some(choice))] else l.items, l.readIds);
    case ApplyNotice(item) => KeptKeysAreSafe(l.items, Next(s, a).local.items);
    case LoadMore(page, readIds) =>
      assert forall id :: id in NotificationItems(page, readIds) ==> KeyOf(NotificationItems(page, readIds)[id]).None?;
      KeptKeysAreSafe(l.items, Next(s, a).local.items);
    case ReadFile => KeptKeysAreSafe(s.file, ReadableFile(s.file));
    case WriteNotice(item) => KeptKeysAreSafe(s.file, Next(s, a).file);
    case _ =>
  }

  lemma {:induction false} RunKeepsSafeIds(run: Run, k: nat)
    requires IsRun(run) && UsesProgramIds(run) && k < |run.states|
    ensures KeysAreSafe(run.states[k])
  {
    hide KeysAreSafe, Inv, Next, Enabled, Started, IsSafeAction;
    if k > 0 {
      RunKeepsSafeIds(run, k - 1);
      RunKeepsInv(run, k - 1);
      assert StepsTo(run.states[k - 1], run.actions[k - 1], run.states[k]);
      StepKeepsSafeIds(run.states[k - 1], run.actions[k - 1]);
    }
  }

  /** So runs that the program makes never share a marker text. */
  lemma SafeRunsHaveDifferentTexts(runs: seq<Pair>)
    requires SafeRuns(runs)
    ensures TextsDiffer(runs)
  {
    hide MarkerText, IsSafeComponent;
    forall p, q | p in runs && q in runs && MarkerText(p) == MarkerText(q)
      ensures p == q
    {
      SafeComponentHasNoColon(p.0);
      SafeComponentHasNoColon(q.0);
      ColonFreeTextsDiffer(p, q);
    }
  }

  lemma DismissedTextsDiffer(run: Run, k: nat)
    requires IsRun(run) && UsesProgramIds(run) && k < |run.states|
    ensures TextsDiffer(run.states[k].local.dismissed)
  {
    RunKeepsSafeIds(run, k);
    SafeRunsHaveDifferentTexts(run.states[k].local.dismissed);
  }
}
