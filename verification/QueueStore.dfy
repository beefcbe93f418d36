/** The desktop queue store (src/store/useQueueStore.ts): its items, read and
    dismissal memory, the serial chain of saves and the load in flight. */
module QueueStore {
  import opened Common
  import opened QueueMerge

  /** Queue ids by the way their text is built; QueueIds gives the texts and when they
      differ. A dismissal marker is known by its text alone. */
  datatype Id =
    | Uuid(text: string)
    | CompletionId(pair: Pair)
    | DismissalId(text: string)
    | ReadId(notification: string)
    | NoticeId(text: string)
    | NotificationId(notification: string)
    | ApprovalId(pair: Pair, node: string)

  function DismissalIdOf(p: Pair): Id {
    DismissalId(MarkerText(p))
  }

  type QueueItem = Item<Id>

  type Items = map<Id, QueueItem>

  const MaxAge: int := 7 * 24 * 60 * 60 * 1000

  /** A backend call waiting its turn on the promise chain. */
  datatype Op =
    | SaveItems(items: Items)
    | DismissNotices(ids: set<Id>)

  /** `ahead` counts the chained calls that the load still waits for; `raw` is what
      it read from the file at the time `since`. */
  datatype Phase =
    | Idle
    | AwaitingSaves(revision: nat, ahead: nat)
    | AwaitingFile(revision: nat)
    | AwaitingLists(revision: nat, raw: Items, since: int)

  datatype Local = Local(
    items: Items,
    readIds: set<string>,
    dismissed: seq<Pair>,
    revision: nat,
    chain: seq<Op>,
    load: Phase)

  function At(items: Items, id: Id): Option<QueueItem> {
    if id in items then Some(items[id]) else None
  }

  // ----- items -----

  /** Items the queue file keeps in their own form. */
  predicate IsLegacy(item: QueueItem) {
    item.inbox.None? && item.approval.None? && !item.dismissed
  }

  predicate ChoiceUnresolved(item: QueueItem) {
    item.choicePending.Some? || (item.choiceSent.Some? && !item.read)
  }

  predicate IsReadProtected(item: QueueItem) {
    || item.approval.Some?
    || (item.kind.ApprovalRequest? && item.awaitingReply)
    || ChoiceUnresolved(item)
  }

  predicate IsClearable(item: QueueItem) {
    && item.inbox.None? && item.approval.None? && !ChoiceUnresolved(item)
    && (IsProviderTurnNotice(item) || item.kind.AutomationCompleted?)
  }

  predicate IsReadUpdate(item: QueueItem) {
    item.kind.AgentUpdate? && item.inbox.Some? && item.read
  }

  function Acknowledged(items: Items): set<string> {
    set id | id in items && IsReadUpdate(items[id]) :: items[id].inbox.value
  }

  function ReadItem(notification: string, now: int): QueueItem {
    Item(ReadId(notification), AgentUpdate, now, true, false, Some(notification), None, None, None, false, None, None)
  }

  function LegacyOf(items: Items): Items {
    map id | id in items && IsLegacy(items[id]) :: items[id]
  }

  function ReadItems(notifications: set<string>, now: int): Items {
    map n | n in notifications :: ReadId(n) := ReadItem(n, now)
  }

  /** Of the runs that share a marker id the last one keeps it. */
  function DismissalMarkers(runs: seq<Pair>, now: int): Items {
    if runs == [] then map[]
    else
      var last := runs[|runs| - 1];
      DismissalMarkers(runs[..|runs| - 1], now)[DismissalIdOf(last) := Marker(DismissalIdOf(last), last, now)]
  }

  /** What persistItems sends. */
  function SavedForm(items: Items, readIds: set<string>, dismissed: seq<Pair>, now: int): Items {
    LegacyOf(items) + ReadItems(readIds + Acknowledged(items), now) + DismissalMarkers(dismissed, now)
  }

  function Persisting(l: Local, items: Items, readIds: set<string>, dismissed: seq<Pair>, now: int): Local {
    l.(items := items, readIds := readIds, dismissed := dismissed,
       chain := l.chain + [SaveItems(SavedForm(items, readIds, dismissed, now))])
  }

  function Mutated(l: Local, items: Items, readIds: set<string>, dismissed: seq<Pair>, now: int): Local {
    Persisting(l, items, readIds, dismissed, now).(revision := l.revision + 1)
  }

  function DismissingNotices(l: Local, ids: set<Id>): Local {
    if ids == {} then l else l.(chain := l.chain + [DismissNotices(ids)])
  }

  // ----- local actions -----

  predicate IsCompletionOf(item: QueueItem, automation: string, run: Option<string>) {
    item.kind.AutomationCompleted? && item.automation == Some(automation) && item.run == run
  }

  function CompletionItem(id: Id, automation: string, run: Option<string>, now: int): QueueItem {
    Item(id, AutomationCompleted, now, false, false, None, None, Some(automation), run, false, None, None)
  }

  /** The approval cards of the finished run go away. */
  function WithoutApprovalsOf(items: Items, automation: string, run: Option<string>): Items {
    map id | id in items && !(items[id].approval.Some? && run.Some? && items[id].approval.value == (automation, run.value))
      :: items[id]
  }

  predicate CompletionIsKnown(l: Local, automation: string, run: Option<string>) {
    || (exists id :: id in l.items && IsCompletionOf(l.items[id], automation, run))
    || (IsText(run) && (automation, run.value) in l.dismissed)
  }

  function CompletionAdded(l: Local, automation: string, run: Option<string>, newId: Id, now: int): Local {
    if CompletionIsKnown(l, automation, run) then l
    else
      Mutated(l, WithoutApprovalsOf(l.items, automation, run)[newId := CompletionItem(newId, automation, run, now)],
              l.readIds, l.dismissed, now)
  }

  function KeysOf(items: Items): set<Pair> {
    set id | id in items && KeyOf(items[id]).Some? :: KeyOf(items[id]).value
  }

  function Removed(items: Items, ids: set<Id>): Items {
    map id | id in items && id !in ids :: items[id]
  }

  function Chosen(items: Items, ids: set<Id>): Items {
    map id | id in items && id in ids :: items[id]
  }

  function NoticesAmong(items: Items, ids: set<Id>): set<Id> {
    set id | id in items && id in ids && IsProviderTurnNotice(items[id]) :: id
  }

  /** The list names each of these runs, once. */
  ghost predicate Lists(order: seq<Pair>, runs: set<Pair>) {
    && (forall p :: p in order <==> p in runs)
    && (forall i, j :: 0 <= i < j < |order| ==> order[i] != order[j])
  }

  /** Remembering more runs, each once. */
  function Remembered(dismissed: seq<Pair>, more: seq<Pair>): (r: seq<Pair>)
    ensures forall p :: p in r <==> p in dismissed || p in more
    decreases |more|
  {
    if more == [] then dismissed
    else Remembered(if more[0] in dismissed then dismissed else dismissed + [more[0]], more[1..])
  }

  /** dismissItem and clearRead: the items leave, their runs (in the order in which
      they stood) are remembered as dismissed and the provider notices among them
      are dismissed on disk. */
  function Discarded(l: Local, ids: set<Id>, runs: seq<Pair>, now: int): Local {
    Mutated(DismissingNotices(l, NoticesAmong(l.items, ids)),
            Removed(l.items, ids), l.readIds, Remembered(l.dismissed, runs), now)
  }

  function RunOf(items: Items, id: Id): (r: seq<Pair>)
    ensures Lists(r, KeysOf(Chosen(items, {id})))
  {
    if id in items && KeyOf(items[id]).Some? then
      assert id in Chosen(items, {id});
      [KeyOf(items[id]).value]
    else []
  }

  function ItemDismissed(l: Local, id: Id, now: int): Local {
    if id in l.items && IsReadProtected(l.items[id]) then l else Discarded(l, {id}, RunOf(l.items, id), now)
  }

  function ClearedIds(items: Items): set<Id> {
    set id | id in items && items[id].read && IsClearable(items[id]) :: id
  }

  function ReadCleared(l: Local, runs: seq<Pair>, now: int): Local {
    Discarded(l, ClearedIds(l.items), runs, now)
  }

  function MarkedRead(l: Local, id: Id, now: int): Local {
    if id !in l.items then Mutated(l, l.items, l.readIds, l.dismissed, now)
    else
      var item := l.items[id];
      Mutated(l, l.items[id := item.(read := true)],
              if item.inbox.Some? then l.readIds + {item.inbox.value} else l.readIds, l.dismissed, now)
  }

  function AllRead(items: Items): Items {
    map id | id in items :: if IsReadProtected(items[id]) then items[id] else items[id].(read := true)
  }

  function AllMarkedRead(l: Local, now: int): Local {
    Mutated(l, AllRead(l.items), l.readIds + Acknowledged(AllRead(l.items)), l.dismissed, now)
  }

  function ActionAdded(l: Local, newId: Id, now: int): Local {
    Mutated(l, l.items[newId := Item(newId, ActionNeeded, now, false, false, None, None, None, None, false, None, None)],
            l.readIds, l.dismissed, now)
  }

  function ChoiceRecorded(l: Local, id: Id, choice: string, now: int): Local {
    Mutated(l, if id in l.items then l.items[id := l.items[id].(choiceSent := Some(choice))] else l.items,
            l.readIds, l.dismissed, now)
  }

  /** A notice the backend has written already: shown, not saved again. */
  function NoticeApplied(l: Local, item: QueueItem): Local {
    if item.dismissed || item.id in l.items then l
    else l.(items := l.items[item.id := item], revision := l.revision + 1)
  }

  // ----- loads -----

  datatype Notification = Notification(isUpdate: bool, awaiting: bool, timestamp: int)

  datatype Listing = Listing(
    notifications: map<string, Notification>,
    approvals: map<(Pair, string), int>,
    terminals: map<Pair, int>)

  function NotificationItems(notifications: map<string, Notification>, readIds: set<string>): Items {
    map n | n in notifications :: NotificationId(n) :=
      var shown := notifications[n];
      Item(NotificationId(n), if shown.isUpdate then AgentUpdate else ApprovalRequest, shown.timestamp,
           if shown.isUpdate then n in readIds else !shown.awaiting,
           false, Some(n), None, None, None, shown.awaiting, None, None)
  }

  function ApprovalItems(approvals: map<(Pair, string), int>): Items {
    map a | a in approvals :: ApprovalId(a.0, a.1) :=
      Item(ApprovalId(a.0, a.1), ApprovalRequest, approvals[a], false, false, None, Some(a.0),
           Some(a.0.0), Some(a.0.1), false, None, None)
  }

  function TerminalItem(p: Pair, timestamp: int): QueueItem {
    CompletionItem(CompletionId(p), p.0, Some(p.1), timestamp)
  }

  function Unexpired(raw: Items, cutoff: int): Items {
    map id | id in raw && raw[id].timestamp > cutoff && !(IsProviderTurnNotice(raw[id]) && raw[id].dismissed) :: raw[id]
  }

  function DismissedOf(persisted: Items): set<Pair> {
    set id | id in persisted && persisted[id].dismissed && KeyOf(persisted[id]).Some? :: KeyOf(persisted[id]).value
  }

  /** The runs the file has a record of, shown or dismissed. */
  function RunsOf(persisted: Items): set<Pair> {
    KeysOf(map id | id in persisted && persisted[id].inbox.None? && persisted[id].approval.None? :: persisted[id])
  }

  /** Finished runs the file does not know. */
  function Reconciled(terminals: map<Pair, int>, known: set<Pair>): Items {
    map p | p in terminals && (KeyOf(TerminalItem(p, terminals[p])).None? || p !in known)
      :: CompletionId(p) := TerminalItem(p, terminals[p])
  }

  function LoadedItems(persisted: Items, listing: Listing): Items {
    NotificationItems(listing.notifications, Acknowledged(persisted))
    + ApprovalItems(listing.approvals)
    + Reconciled(listing.terminals, RunsOf(persisted))
    + LegacyOf(persisted)
  }

  function LoadStarted(l: Local): Local {
    if l.load.Idle? then l.(load := AwaitingSaves(l.revision, |l.chain|)) else l
  }

  function SavesAwaited(l: Local): Local {
    if l.load.AwaitingSaves? && l.load.ahead == 0 then
      l.(load := if l.load.revision != l.revision then Idle else AwaitingFile(l.revision))
    else l
  }

  /** The lists have arrived at the time `at`: the load commits, unless a mutation
      came in between. `dismissed` lists the file's dismissed runs in its order. */
  function LoadFinished(l: Local, listing: Listing, dismissed: seq<Pair>, at: int, now: int): Local
    requires l.load.AwaitingLists?
  {
    if l.load.revision != l.revision then l.(load := Idle)
    else
      var persisted := Unexpired(l.load.raw, at - MaxAge);
      var items := LoadedItems(persisted, listing);
      var readIds := Acknowledged(persisted);
      if Reconciled(listing.terminals, RunsOf(persisted)).Keys != {}
      then Persisting(l.(load := Idle), items, readIds, dismissed, now)
      else l.(load := Idle, items := items, readIds := readIds, dismissed := dismissed)
  }

  // ----- the store itself -----

  class Queue {
    var items: Items
    var readIds: set<string>
    var dismissed: seq<Pair>
    var revision: nat
    var chain: seq<Op>
    var load: Phase

    ghost function State(): Local
      reads this
    {
      Local(items, readIds, dismissed, revision, chain, load)
    }

    constructor ()
      ensures State() == Local(map[], {}, [], 0, [], Idle)
    {
      items, readIds, dismissed, revision, chain, load := map[], {}, [], 0, [], Idle;
    }

    method PersistItems(next: Items, acknowledged: set<string>, runs: seq<Pair>, now: int)
      modifies this`chain
      ensures chain == old(chain) + [SaveItems(SavedForm(next, acknowledged, runs, now))]
    {
      var acknowledgements := ReadItems(acknowledged + Acknowledged(next), now);
      chain := chain + [SaveItems(LegacyOf(next) + acknowledgements + DismissalMarkers(runs, now))];
    }

    method PersistDismissedAgentCompletions(ids: set<Id>)
      modifies this`chain
      ensures State() == DismissingNotices(old(State()), ids)
    {
      if ids != {} {
        chain := chain + [DismissNotices(ids)];
      }
    }

    method AddAutomationCompletion(automation: string, run: Option<string>, newId: Id, now: int)
      modifies this
      ensures State() == CompletionAdded(old(State()), automation, run, newId, now)
    {
      if exists id :: id in items && IsCompletionOf(items[id], automation, run) {
        return;
      }
      if IsText(run) && (automation, run.value) in dismissed {
        return;
      }
      revision := revision + 1;
      var next := WithoutApprovalsOf(items, automation, run)[newId := CompletionItem(newId, automation, run, now)];
      PersistItems(next, readIds, dismissed, now);
      items := next;
    }

    method DismissItem(id: Id, now: int)
      modifies this
      ensures State() == ItemDismissed(old(State()), id, now)
    {
      if id in items && IsReadProtected(items[id]) {
        return;
      }
      if id in items && IsProviderTurnNotice(items[id]) {
        assert NoticesAmong(items, {id}) == {id};
        PersistDismissedAgentCompletions({id});
      }
      revision := revision + 1;
      var runs := Remembered(dismissed, RunOf(items, id));
      var next := Removed(items, {id});
      PersistItems(next, readIds, runs, now);
      items, dismissed := next, runs;
    }

    method ClearRead(order: seq<Pair>, now: int)
      requires Lists(order, KeysOf(Chosen(items, ClearedIds(items))))
      modifies this
      ensures State() == ReadCleared(old(State()), order, now)
    {
      revision := revision + 1;
      var cleared := ClearedIds(items);
      var runs := Remembered(dismissed, order);
      var next := Removed(items, cleared);
      PersistDismissedAgentCompletions(NoticesAmong(items, cleared));
      PersistItems(next, readIds, runs, now);
      items, dismissed := next, runs;
    }

    method MarkRead(id: Id, now: int)
      modifies this
      ensures State() == MarkedRead(old(State()), id, now)
    {
      revision := revision + 1;
      var next, acknowledged := items, readIds;
      if id in items {
        next := items[id := items[id].(read := true)];
        if items[id].inbox.Some? {
          acknowledged := readIds + {items[id].inbox.value};
        }
      }
      PersistItems(next, acknowledged, dismissed, now);
      items, readIds := next, acknowledged;
    }

    method MarkAllRead(now: int)
      modifies this
      ensures State() == AllMarkedRead(old(State()), now)
    {
      revision := revision + 1;
      var next := AllRead(items);
      var acknowledged := readIds + Acknowledged(next);
      PersistItems(next, acknowledged, dismissed, now);
      items, readIds := next, acknowledged;
    }

    method ApplyPersistedAgentCompletion(item: QueueItem)
      modifies this
      ensures State() == NoticeApplied(old(State()), item)
    {
      if item.dismissed || item.id in items {
        return;
      }
      revision := revision + 1;
      items := items[item.id := item];
    }

    method StartLoad()
      modifies this`load
      ensures State() == LoadStarted(old(State()))
    {
      if load.Idle? {
        load := AwaitingSaves(revision, |chain|);
      }
    }

    method SavesDone()
      modifies this`load
      ensures State() == SavesAwaited(old(State()))
    {
      if load.AwaitingSaves? && load.ahead == 0 {
        if load.revision != revision {
          load := Idle;
        } else {
          load := AwaitingFile(revision);
        }
      }
    }

    method ListsArrive(listing: Listing, order: seq<Pair>, at: int, now: int)
      requires load.AwaitingLists? && Lists(order, DismissedOf(Unexpired(load.raw, at - MaxAge)))
      modifies this
      ensures State() == LoadFinished(old(State()), listing, order, at, now)
    {
      hide Unexpired, Acknowledged, RunsOf, Reconciled, LegacyOf, NotificationItems, ApprovalItems, SavedForm,
        DismissedOf, Lists;
      var raw, loadRevision := load.raw, load.revision;
      load := Idle;
      if loadRevision != revision {
        return;
      }
      var persisted := Unexpired(raw, at - MaxAge);
      var acknowledged, runs := Acknowledged(persisted), order;
      var reconciled := Reconciled(listing.terminals, RunsOf(persisted));
      var next := NotificationItems(listing.notifications, acknowledged) + ApprovalItems(listing.approvals)
                  + reconciled + LegacyOf(persisted);
      items, readIds, dismissed := next, acknowledged, runs;
      if reconciled.Keys != {} {
        PersistItems(next, acknowledged, runs, now);
      }
    }
  }
}
