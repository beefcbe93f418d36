/** What the queue shows after a load: every item, with its read flag, in terms of the
    queue file and the backend's lists (src/store/useQueueStore.ts). */
module QueueShown {
  import opened Common
  import opened QueueMerge
  import opened QueueStore
  import opened QueueProtocol
  import opened QueueInvariant
  import opened QueueSteps
  import opened QueueLoad
  import opened QueueTheorems
  import opened QueueIds
  import opened QueueMemory

  // ----- the file at a commit -----

  /** The file has a record of this id that is younger than seven days. */
  ghost predicate IsFresh(s: State, at: int, id: Id) {
    id in s.file && at - s.file[id].timestamp < 7 * 24 * 60 * 60 * 1000
  }

  /** A fresh record says that the notification was read. */
  ghost predicate IsAcknowledged(s: State, at: int, n: string) {
    exists id :: IsFresh(s, at, id) && s.file[id].kind.AgentUpdate? && s.file[id].read && s.file[id].inbox == Some(n)
  }

  /** A fresh record of any kind belongs to the run. */
  ghost predicate RunIsKnown(s: State, at: int, p: Pair) {
    exists id :: IsFresh(s, at, id) && s.file[id].kind.AutomationCompleted?
                 && s.file[id].automation == Some(p.0) && s.file[id].run == Some(p.1)
  }

  ghost predicate RunIsDismissed(s: State, at: int, p: Pair) {
    exists id :: IsFresh(s, at, id) && s.file[id].dismissed && s.file[id].kind.AutomationCompleted?
                 && s.file[id].automation == Some(p.0) && s.file[id].run == Some(p.1)
  }

  /** The file keeps the item in its own form. */
  ghost predicate IsOwnRecord(item: QueueItem) {
    item.inbox == None && item.approval == None && item.dismissed == false
  }

  // ----- listed notifications -----

  /** How a listed notification is shown: an update is read iff it is acknowledged, an
      approval request iff it does not wait for a reply. */
  ghost predicate IsShownAs(n: string, listed: Notification, acknowledged: bool, item: QueueItem) {
    && item.id == NotificationId(n) && item.inbox == Some(n) && item.timestamp == listed.timestamp
    && (listed.isUpdate ==> item.kind == AgentUpdate && (item.read <==> acknowledged))
    && (!listed.isUpdate ==> item.kind == ApprovalRequest && (item.read <==> !listed.awaiting))
    && (item.awaitingReply <==> listed.awaiting)
    && !item.dismissed && item.approval == None && item.automation == None && item.run == None
    && item.choiceSent == None && item.choicePending == None
  }

  lemma NotificationItemsAre(notifications: map<string, Notification>, readIds: set<string>, id: Id)
    ensures var items := NotificationItems(notifications, readIds);
            && (id in items <==> id.NotificationId? && id.notification in notifications)
            && (id in items ==> IsShownAs(id.notification, notifications[id.notification], id.notification in readIds, items[id]))
  {}

  ghost predicate IsApprovalCard(p: Pair, node: string, timestamp: int, item: QueueItem) {
    item == Item(ApprovalId(p, node), ApprovalRequest, timestamp, false, false, None, Some(p),
                 Some(p.0), Some(p.1), false, None, None)
  }

  lemma ApprovalItemsAre(approvals: map<(Pair, string), int>, id: Id)
    ensures var items := ApprovalItems(approvals);
            && (id in items <==> id.ApprovalId? && (id.pair, id.node) in approvals)
            && (id in items ==> IsApprovalCard(id.pair, id.node, approvals[(id.pair, id.node)], items[id]))
  {}

  /** A finished run, unread. */
  ghost predicate IsFinishedRun(id: Id, p: Pair, timestamp: int, item: QueueItem) {
    item == Item(id, AutomationCompleted, timestamp, false, false, None, None, Some(p.0), Some(p.1), false, None, None)
  }

  // ----- a committed load -----

  /** What a committed load shows at an id. Records of the file come first; listed
      notifications, approval gates and finished runs the file does not know follow. */
  ghost predicate ShowsAt(s: State, shown: Option<QueueItem>, listing: Listing, at: int, id: Id) {
    if IsFresh(s, at, id) && IsOwnRecord(s.file[id]) then shown == Some(s.file[id])
    else
      match id
      case NotificationId(n) =>
        if n in listing.notifications then
          shown.Some? && IsShownAs(n, listing.notifications[n], IsAcknowledged(s, at, n), shown.value)
        else shown == None
      case ApprovalId(p, node) =>
        if (p, node) in listing.approvals then
          shown.Some? && IsApprovalCard(p, node, listing.approvals[(p, node)], shown.value)
        else shown == None
      case CompletionId(p) =>
        if p in listing.terminals && !RunIsKnown(s, at, p) then
          shown.Some? && IsFinishedRun(id, p, listing.terminals[p], shown.value)
        else shown == None
      case _ => shown == None
  }

  /** What a committed load remembers: the fresh acknowledgements and dismissals. */
  ghost predicate RemembersFresh(s: State, s': State, at: int) {
    && (forall n :: n in s'.local.readIds <==> IsAcknowledged(s, at, n))
    && (forall p: Pair :: p.0 != "" && p.1 != "" ==> (p in s'.local.dismissed <==> RunIsDismissed(s, at, p)))
  }

  lemma FreshIsPersisted(s: State, at: int, id: Id)
    requires CommitReady(s) && !id.NoticeId?
    ensures IsFresh(s, at, id) <==> id in PersistedOf(s, at)
    ensures IsFresh(s, at, id) ==> PersistedOf(s, at)[id] == s.file[id] && SaneItem(id, s.file[id])
  {
    assert MaxAge == 7 * 24 * 60 * 60 * 1000;
    hide CommitReady, Settled, PersistedOf;
    PersistedIsFile(s, at, id);
    hide SaneItem;
    PersistedIsYoung(s, at, id);
  }

  lemma PersistedIsYoung(s: State, at: int, id: Id)
    requires s.local.load.AwaitingLists?
    ensures id in PersistedOf(s, at) ==> PersistedOf(s, at)[id].timestamp > at - MaxAge
  {}

  /** A record of a notice is neither an acknowledgement nor a finished run. */
  lemma NoticeIsNotice(s: State, id: Id)
    requires CommitReady(s) && id.NoticeId? && id in s.file
    ensures !s.file[id].kind.AgentUpdate? && !s.file[id].kind.AutomationCompleted?
  {
    assert SaneCell(id, CellOf(s.file, s.base, id));
  }

  lemma PersistedNoticeIsNotice(s: State, at: int, id: Id)
    requires CommitReady(s) && id.NoticeId? && id in PersistedOf(s, at)
    ensures !PersistedOf(s, at)[id].kind.AgentUpdate? && !PersistedOf(s, at)[id].kind.AutomationCompleted?
  {
    hide CommitReady, Settled, PersistedOf;
    PersistedIsFile(s, at, id);
    NoticeIsNotice(s, id);
  }

  lemma AcknowledgedIff(s: State, at: int, n: string)
    requires s.local.load.AwaitingLists? && CommitReady(s)
    ensures n in Acknowledged(PersistedOf(s, at)) <==> IsAcknowledged(s, at, n)
  {
    hide CommitReady, PersistedOf, SaneItem;
    var persisted := PersistedOf(s, at);
    if id :| id in persisted && IsReadUpdate(persisted[id]) && persisted[id].inbox.value == n {
      if id.NoticeId? {
        PersistedNoticeIsNotice(s, at, id);
      }
      FreshIsPersisted(s, at, id);
    }
    if id :| IsFresh(s, at, id) && s.file[id].kind.AgentUpdate? && s.file[id].read && s.file[id].inbox == Some(n) {
      FreshIsInFile(s, at, id);
      if id.NoticeId? {
        NoticeIsNotice(s, id);
      }
      FreshIsPersisted(s, at, id);
    }
  }

  lemma FreshIsInFile(s: State, at: int, id: Id)
    requires IsFresh(s, at, id)
    ensures id in s.file
  {}

  lemma DismissedIff(s: State, at: int, p: Pair)
    requires s.local.load.AwaitingLists? && CommitReady(s) && p.0 != "" && p.1 != ""
    ensures p in DismissedOf(PersistedOf(s, at)) <==> RunIsDismissed(s, at, p)
  {
    hide CommitReady, PersistedOf, SaneItem;
    var persisted := PersistedOf(s, at);
    if id :| id in persisted && persisted[id].dismissed && KeyOf(persisted[id]) == Some(p) {
      if id.NoticeId? {
        PersistedNoticeIsNotice(s, at, id);
      }
      FreshIsPersisted(s, at, id);
    }
    if id :| IsFresh(s, at, id) && s.file[id].dismissed && s.file[id].kind.AutomationCompleted?
             && s.file[id].automation == Some(p.0) && s.file[id].run == Some(p.1) {
      FreshIsInFile(s, at, id);
      if id.NoticeId? {
        NoticeIsNotice(s, id);
      }
      FreshIsPersisted(s, at, id);
      assert KeyOf(persisted[id]) == Some(p);
    }
  }

  lemma KnownIff(s: State, at: int, p: Pair)
    requires s.local.load.AwaitingLists? && CommitReady(s) && p.0 != "" && p.1 != ""
    ensures p in RunsOf(PersistedOf(s, at)) <==> RunIsKnown(s, at, p)
  {
    hide CommitReady, PersistedOf;
    var persisted := PersistedOf(s, at);
    if p in RunsOf(persisted) {
      var id := RunHasRecord(persisted, p);
      if id.NoticeId? {
        PersistedNoticeIsNotice(s, at, id);
      }
      FreshIsPersisted(s, at, id);
    }
    if id :| IsFresh(s, at, id) && s.file[id].kind.AutomationCompleted?
             && s.file[id].automation == Some(p.0) && s.file[id].run == Some(p.1) {
      FreshIsInFile(s, at, id);
      if id.NoticeId? {
        NoticeIsNotice(s, id);
      }
      FreshIsPersisted(s, at, id);
      KnownRun(persisted, id);
    }
  }

  lemma RunHasRecord(persisted: Items, p: Pair) returns (id: Id)
    requires p in RunsOf(persisted)
    ensures id in persisted && KeyOf(persisted[id]) == Some(p)
  {
    var plain := map id | id in persisted && persisted[id].inbox.None? && persisted[id].approval.None? :: persisted[id];
    id :| id in plain && KeyOf(plain[id]) == Some(p);
  }

  lemma LoadedAt(persisted: Items, listing: Listing, id: Id)
    ensures At(LoadedItems(persisted, listing), id)
         == if id in persisted && IsLegacy(persisted[id]) then Some(persisted[id])
            else if id in Reconciled(listing.terminals, RunsOf(persisted))
            then Some(Reconciled(listing.terminals, RunsOf(persisted))[id])
            else if id in ApprovalItems(listing.approvals) then Some(ApprovalItems(listing.approvals)[id])
            else At(NotificationItems(listing.notifications, Acknowledged(persisted)), id)
  {
    hide Reconciled, RunsOf, ApprovalItems, NotificationItems, Acknowledged;
  }

  lemma ReconciledAt(terminals: map<Pair, int>, known: set<Pair>, id: Id)
    requires forall p :: p in terminals ==> p.0 != "" && p.1 != ""
    ensures var items := Reconciled(terminals, known);
            && (id in items <==> id.CompletionId? && id.pair in terminals && id.pair !in known)
            && (id in items ==> IsFinishedRun(id, id.pair, terminals[id.pair], items[id]))
  {
    if id.CompletionId? && id.pair in terminals {
      assert KeyOf(TerminalItem(id.pair, terminals[id.pair])) == Some(id.pair);
    }
  }

  lemma OwnRecordIff(item: QueueItem)
    ensures IsLegacy(item) <==> IsOwnRecord(item)
  {}

  lemma CommitShowsAt(s: State, s': State, listing: Listing, order: seq<Pair>, at: int, id: Id)
    requires s.local.load.AwaitingLists? && CommitReady(s) && CommitsTo(s, s', listing, order, at) && !id.NoticeId?
    ensures ShowsAt(s, At(s'.local.items, id), listing, at, id)
  {
    hide CommitReady, PersistedOf, LoadedItems, Reconciled, RunsOf, ApprovalItems, NotificationItems, Acknowledged, DismissedOf,
      Lists, IsFresh, IsAcknowledged, RunIsKnown, IsShownAs, IsApprovalCard, IsFinishedRun, SaneItem;
    var persisted := PersistedOf(s, at);
    FreshIsPersisted(s, at, id);
    LoadedAt(persisted, listing, id);
    ReconciledAt(listing.terminals, RunsOf(persisted), id);
    ApprovalItemsAre(listing.approvals, id);
    NotificationItemsAre(listing.notifications, Acknowledged(persisted), id);
    if id in persisted {
      OwnRecordIff(persisted[id]);
    }
    match id
    case NotificationId(n) => AcknowledgedIff(s, at, n);
    case CompletionId(p) =>
      if p in listing.terminals {
        KnownIff(s, at, p);
      }
    case _ =>
  }

  ghost predicate ShowsFile(s: State, s': State, listing: Listing, at: int) {
    && (forall id: Id :: !id.NoticeId? ==> ShowsAt(s, At(s'.local.items, id), listing, at, id))
    && RemembersFresh(s, s', at)
  }

  lemma CommitRemembersFresh(s: State, s': State, listing: Listing, order: seq<Pair>, at: int)
    requires s.local.load.AwaitingLists? && CommitReady(s) && CommitsTo(s, s', listing, order, at)
    ensures RemembersFresh(s, s', at)
  {
    hide CommitReady, Acknowledged, DismissedOf, PersistedOf, LoadedItems, RunIsDismissed, IsAcknowledged;
    forall n
      ensures n in s'.local.readIds <==> IsAcknowledged(s, at, n)
    {
      AcknowledgedIff(s, at, n);
    }
    forall p: Pair | p.0 != "" && p.1 != ""
      ensures p in s'.local.dismissed <==> RunIsDismissed(s, at, p)
    {
      DismissedIff(s, at, p);
    }
  }

  lemma CommitShows(s: State, s': State, listing: Listing, order: seq<Pair>, at: int)
    requires s.local.load.AwaitingLists? && CommitReady(s) && CommitsTo(s, s', listing, order, at)
    ensures ShowsFile(s, s', listing, at)
  {
    hide ShowsAt, CommitReady, CommitsTo, RemembersFresh;
    CommitRemembersFresh(s, s', listing, order, at);
    forall id: Id | !id.NoticeId?
      ensures ShowsAt(s, At(s'.local.items, id), listing, at, id)
    {
      CommitShowsAt(s, s', listing, order, at, id);
    }
  }

  /** In every run, a committed load shows at every id that is not a provider notice's
      exactly what file and lists say, and remembers the fresh acknowledgements and
      dismissals of the file and no others. */
  lemma CommittedLoadShows(run: Run, k: nat)
    requires IsRun(run) && k < |run.actions| && run.actions[k].FinishLoad?
    requires run.states[k].local.load.AwaitingLists? && LoadCommits(run.states[k].local)
    ensures ShowsFile(run.states[k], run.states[k + 1], run.actions[k].listing, run.actions[k].at)
  {
    hide Inv, Next, Enabled, CommitReady, Started, ShowsFile, CommitsTo;
    var s, s', a := run.states[k], run.states[k + 1], run.actions[k];
    assert StepsTo(s, a, s');
    RunKeepsInv(run, k);
    hide IsRun;
    InvGivesReady(s);
    CommitStepCommits(s, a.listing, a.order, a.at);
    CommitShows(s, s', a.listing, a.order, a.at);
  }

  /** An update that was marked read is shown as read by every load that commits within
      seven days. */
  lemma ReadUpdateIsShownRead(run: Run, i: nat, n: string, k: nat)
    requires IsRun(run) && i < k < |run.actions| && Acknowledges(run.states[i], run.actions[i], n)
    requires run.states[k].now < run.states[i].now + MaxAge
    requires run.actions[k].FinishLoad? && run.states[k].local.load.AwaitingLists? && LoadCommits(run.states[k].local)
    requires n in run.actions[k].listing.notifications && run.actions[k].listing.notifications[n].isUpdate
    ensures var items := run.states[k + 1].local.items;
            NotificationId(n) in items && items[NotificationId(n)].read
  {
    hide Inv, Next, Enabled, Started, ShowsAt, Acknowledges, RunIsDismissed, IsAcknowledged;
    var s, s', a := run.states[k], run.states[k + 1], run.actions[k];
    assert StepsTo(s, a, s');
    CommitTakesNoTime(s, a);
    RunKeepsInv(run, k);
    CommittedLoadShows(run, k);
    AcknowledgementStays(run, i, n, k + 1);
    hide IsRun;
    AcknowledgedIsShownRead(s, At(s'.local.items, NotificationId(n)), a.listing, a.at, n);
  }

  lemma AcknowledgedIsShownRead(s: State, shown: Option<QueueItem>, listing: Listing, at: int, n: string)
    requires Inv(s) && ShowsAt(s, shown, listing, at, NotificationId(n)) && IsAcknowledged(s, at, n)
    requires n in listing.notifications && listing.notifications[n].isUpdate
    ensures shown.Some? && shown.value.read
  {
    hide Inv, IsAcknowledged;
    if NotificationId(n) in s.file {
      NotificationRecordIsForeign(s, n);
    }
  }

  lemma CommitTakesNoTime(s: State, a: Action)
    requires Enabled(s, a) && a.FinishLoad?
    ensures Next(s, a).now == s.now
  {}

  lemma NotificationRecordIsForeign(s: State, n: string)
    requires Inv(s) && NotificationId(n) in s.file
    ensures !IsOwnRecord(s.file[NotificationId(n)])
  {
    assert SaneCell(NotificationId(n), CellOf(s.file, s.base, NotificationId(n)));
  }

  /** A further page shows its notifications in the same way, by the acknowledgements it
      was asked under, and leaves every other item alone. */
  lemma PageShows(s: State, page: map<string, Notification>, readIds: set<string>, id: Id)
    requires Enabled(s, LoadMore(page, readIds))
    ensures var t := Next(s, LoadMore(page, readIds));
            && t == s.(local := s.local.(items := t.local.items))
            && (if id.NotificationId? && id.notification in page then
                  id in t.local.items
                  && IsShownAs(id.notification, page[id.notification], id.notification in readIds, t.local.items[id])
                else At(t.local.items, id) == At(s.local.items, id))
  {
    hide NotificationItems, IsShownAs;
    NotificationItemsAre(page, readIds, id);
  }
}
