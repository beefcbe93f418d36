/** The desktop queue store together with the queue file behind it, as a step
    system: local actions, the chained backend calls, the parts of a load and the
    backend's own notices interleave freely (src/store/useQueueStore.ts,
    src-tauri/src/commands/watchlist.rs). Every save succeeds, and nobody else
    changes the file but the backend, which only adds provider notices. */
module QueueProtocol {
  import opened Common
  import opened QueueMerge
  import opened QueueStore

  /** `base` holds the ids of the backend's snapshot of the last load or save;
      `cutoff` is the age limit of the last committed load. */
  datatype State = State(local: Local, file: Items, base: set<Id>, now: int, cutoff: int)

  // ----- the backend -----

  /** save_queue_items, by QueueMerge.MergeIsPointwise. */
  function SavedFile(file: Items, base: set<Id>, incoming: Items): Items {
    map id | id in file.Keys + incoming.Keys && MergedAt(id in base, At(incoming, id), At(file, id)).Some?
      :: MergedAt(id in base, At(incoming, id), At(file, id)).value
  }

  function NoticeDismissed(item: QueueItem): QueueItem {
    if IsProviderTurnNotice(item) && !item.dismissed then item.(dismissed := true, read := true) else item
  }

  /** dismiss_agent_completions. */
  function DismissedFile(file: Items, ids: set<Id>): Items {
    map id | id in file :: if id in ids then NoticeDismissed(file[id]) else file[id]
  }

  /** load_queue_items. */
  function ReadableFile(file: Items): Items {
    map id | id in file && !(IsProviderTurnNotice(file[id]) && file[id].dismissed) :: file[id]
  }

  // ----- steps -----

  datatype Action =
    | AddCompletion(automation: string, run: Option<string>, newId: Id)
    | Dismiss(id: Id)
    | ClearRead(order: seq<Pair>)
    | MarkRead(id: Id)
    | MarkAllRead
    | NeedAction(newId: Id)
    | RecordChoice(id: Id, choice: string)
    | ApplyNotice(item: QueueItem)
    | LoadMore(page: map<string, Notification>, readIds: set<string>)
    | StartLoad
    | FinishSaves
    | ReadFile
    | FinishLoad(listing: Listing, order: seq<Pair>, at: int)
    | RunCall
    | WriteNotice(item: QueueItem)
    | Tick(now: int)

  /** What the surroundings promise. New ids are random, listed runs have both ids,
      and a notice announced to the store is in the file. An `order` is the order in
      which the runs concerned stand in the list at hand. */
  ghost predicate Enabled(s: State, a: Action) {
    match a
    case AddCompletion(automation, run, newId) => newId.Uuid? && newId !in s.local.items
    case NeedAction(newId) => newId.Uuid? && newId !in s.local.items
    case ApplyNotice(item) =>
      && item.id.NoticeId? && IsProviderTurnNotice(item) && IsLegacy(item)
      && item.id in s.file && (item.read ==> s.file[item.id].read)
    case ClearRead(order) => Lists(order, KeysOf(Chosen(s.local.items, ClearedIds(s.local.items))))
    case ReadFile => s.local.load.AwaitingFile?
    case FinishLoad(listing, order, at) =>
      && s.local.load.AwaitingLists? && s.local.load.since <= at <= s.now
      && Lists(order, DismissedOf(Unexpired(s.local.load.raw, at - MaxAge)))
      && forall p :: p in listing.terminals ==> p.0 != "" && p.1 != ""
    case RunCall => s.local.chain != []
    case WriteNotice(item) =>
      && item.id.NoticeId? && IsProviderTurnNotice(item) && IsLegacy(item)
      && item.id !in s.file && item.id !in s.local.items
    case Tick(now) => s.now <= now
    case _ => true
  }

  function CallFinished(l: Local): Local
    requires l.chain != []
  {
    l.(chain := l.chain[1..],
       load := if l.load.AwaitingSaves? && l.load.ahead > 0 then l.load.(ahead := l.load.ahead - 1) else l.load)
  }

  function LoadCommits(l: Local): bool
    requires l.load.AwaitingLists?
  {
    l.load.revision == l.revision
  }

  function Next(s: State, a: Action): State
    requires Enabled(s, a)
  {
    var l := s.local;
    match a
    case AddCompletion(automation, run, newId) => s.(local := CompletionAdded(l, automation, run, newId, s.now))
    case Dismiss(id) => s.(local := ItemDismissed(l, id, s.now))
    case ClearRead(order) => s.(local := ReadCleared(l, order, s.now))
    case MarkRead(id) => s.(local := MarkedRead(l, id, s.now))
    case MarkAllRead => s.(local := AllMarkedRead(l, s.now))
    case NeedAction(newId) => s.(local := ActionAdded(l, newId, s.now))
    case RecordChoice(id, choice) => s.(local := ChoiceRecorded(l, id, choice, s.now))
    case ApplyNotice(item) => s.(local := NoticeApplied(l, item))
    case LoadMore(page, readIds) => s.(local := l.(items := l.items + NotificationItems(page, readIds)))
    case StartLoad => s.(local := LoadStarted(l))
    case FinishSaves => s.(local := SavesAwaited(l))
    case ReadFile =>
      var raw := ReadableFile(s.file);
      s.(local := l.(load := AwaitingLists(l.load.revision, raw, s.now)), base := raw.Keys)
    case FinishLoad(listing, order, at) =>
      s.(local := LoadFinished(l, listing, order, at, s.now),
         cutoff := if LoadCommits(l) then at - MaxAge else s.cutoff)
    case RunCall =>
      (match l.chain[0]
       case SaveItems(incoming) =>
         var file := SavedFile(s.file, s.base, incoming);
         s.(local := CallFinished(l), file := file, base := file.Keys)
       case DismissNotices(ids) => s.(local := CallFinished(l), file := DismissedFile(s.file, ids)))
    case WriteNotice(item) => s.(file := s.file[item.id := item])
    case Tick(now) => s.(now := now)
  }

  // ----- the file once the chain has run -----

  /** One id's place in the file and in the base snapshot. */
  datatype Cell = Cell(inBase: bool, item: Option<QueueItem>)

  function CellOf(file: Items, base: set<Id>, id: Id): Cell {
    Cell(id in base, At(file, id))
  }

  function StepAt(op: Op, id: Id, c: Cell): Cell {
    match op
    case SaveItems(incoming) =>
      var merged := MergedAt(c.inBase, At(incoming, id), c.item);
      Cell(merged.Some?, merged)
    case DismissNotices(ids) =>
      if c.item.Some? && id in ids then c.(item := Some(NoticeDismissed(c.item.value))) else c
  }

  function RunAt(chain: seq<Op>, id: Id, c: Cell): Cell {
    if chain == [] then c else RunAt(chain[1..], id, StepAt(chain[0], id, c))
  }

  /** What the file holds at an id when every chained call has run. */
  function Settled(s: State, id: Id): Cell {
    RunAt(s.local.chain, id, CellOf(s.file, s.base, id))
  }

  lemma {:induction false} RunOfAppend(chain: seq<Op>, op: Op, id: Id, c: Cell)
    ensures RunAt(chain + [op], id, c) == StepAt(op, id, RunAt(chain, id, c))
  {
    if chain == [] {
      assert (chain + [op])[1..] == [];
    } else {
      assert (chain + [op])[1..] == chain[1..] + [op];
      RunOfAppend(chain[1..], op, id, StepAt(chain[0], id, c));
    }
  }

  /** Running the first call of the chain changes nothing of what it settles to. */
  lemma RunCallKeepsSettled(s: State, id: Id)
    requires s.local.chain != []
    ensures Settled(Next(s, RunCall), id) == Settled(s, id)
  {
    var s' := Next(s, RunCall);
    assert CellOf(s'.file, s'.base, id) == StepAt(s.local.chain[0], id, CellOf(s.file, s.base, id));
  }

  // ----- sane ids -----

  /** The id says what kind of record the item is. */
  predicate SaneItem(id: Id, item: QueueItem) {
    && item.id == id
    && (IsProviderTurnNotice(item) <==> id.NoticeId?)
    && (item.inbox.Some? <==> id.ReadId? || id.NotificationId?)
    && (item.approval.Some? <==> id.ApprovalId?)
    && (item.kind.AutomationCompleted? ==> item.inbox.None? && item.approval.None?)
    && (id.ReadId? ==> item.kind.AgentUpdate? && item.read && item.inbox == Some(id.notification))
    && (id.NotificationId? ==> item.inbox == Some(id.notification))
    && (id.DismissalId? ==> item.dismissed && KeyOf(item).Some? && id == DismissalIdOf(KeyOf(item).value))
    && (id.CompletionId? ==> KeyOf(item) == Some(id.pair))
  }

  predicate SaneCell(id: Id, c: Cell) {
    && (c.item.Some? ==> SaneItem(id, c.item.value))
    && (c.inBase ==> c.item.Some?)
    && (!id.NoticeId? && c.item.Some? ==> c.inBase)
  }

  ghost predicate SaneItems(items: Items) {
    forall id :: id in items ==> SaneItem(id, items[id])
  }

  ghost predicate SaneOp(op: Op) {
    op.SaveItems? ==> SaneItems(op.items)
  }

  ghost predicate SaneChain(chain: seq<Op>) {
    forall k :: 0 <= k < |chain| ==> SaneOp(chain[k])
  }

  lemma StepKeepsSane(op: Op, id: Id, c: Cell)
    requires SaneOp(op) && SaneCell(id, c)
    ensures SaneCell(id, StepAt(op, id, c))
  {}

  lemma {:induction false} RunKeepsSane(chain: seq<Op>, id: Id, c: Cell)
    requires SaneChain(chain) && SaneCell(id, c)
    ensures SaneCell(id, RunAt(chain, id, c))
    decreases |chain|
  {
    if chain != [] {
      StepKeepsSane(chain[0], id, c);
      RunKeepsSane(chain[1..], id, StepAt(chain[0], id, c));
    }
  }

  /** A notice on disk stays, and stays read and dismissed once it is; the base
      snapshot does not matter to it. */
  lemma {:induction false} NoticesOnlyGrow(chain: seq<Op>, id: Id, c: Cell, inBase: bool)
    requires SaneChain(chain) && id.NoticeId? && c.item.Some? && SaneItem(id, c.item.value)
    ensures var after := RunAt(chain, id, c).item;
            && after.Some?
            && (c.item.value.read ==> after.value.read)
            && (c.item.value.dismissed ==> after.value.dismissed)
            && RunAt(chain, id, Cell(inBase, c.item)).item == after
    decreases |chain|
  {
    if chain != [] {
      var next := StepAt(chain[0], id, c);
      var other := StepAt(chain[0], id, Cell(inBase, c.item));
      assert other.item == next.item;
      assert next.item.Some? && SaneItem(id, next.item.value);
      NoticesOnlyGrow(chain[1..], id, next, other.inBase);
    }
  }
}
