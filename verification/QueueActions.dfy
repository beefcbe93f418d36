/** What each action does to what the queue shows, remembers and sends, item by item and
    in terms of the items' fields (src/store/useQueueStore.ts). */
module QueueActions {
  import opened Common
  import opened QueueMerge
  import opened QueueStore
  import opened QueueProtocol
  import opened QueueInvariant
  import opened QueueTheorems
  import opened QueueShown

  // ----- which items may go -----

  /** A provider's choice that nobody has confirmed. */
  ghost predicate AwaitsChoice(item: QueueItem) {
    item.choicePending != None || (item.choiceSent != None && item.read == false)
  }

  /** The item waits for a decision: a gate of an automation, a request that awaits its
      reply, or an unconfirmed choice. */
  ghost predicate AwaitsDecision(item: QueueItem) {
    || item.approval != None
    || (item.kind == ApprovalRequest && item.awaitingReply)
    || AwaitsChoice(item)
  }

  ghost predicate IsNotice(item: QueueItem) {
    item.kind == AgentCompleted || item.kind == AgentTurnEnded
  }

  /** A read report that nobody needs: a turn notice or a finished run. */
  ghost predicate IsSpent(item: QueueItem) {
    && item.read && item.inbox == None && item.approval == None && !AwaitsChoice(item)
    && (IsNotice(item) || item.kind == AutomationCompleted)
  }

  ghost predicate IsRunOf(item: QueueItem, automation: string, run: Option<string>) {
    item.kind == AutomationCompleted && item.automation == Some(automation) && item.run == run
  }

  lemma FieldsSay(item: QueueItem, automation: string, run: Option<string>)
    ensures IsReadProtected(item) <==> AwaitsDecision(item)
    ensures item.read && IsClearable(item) <==> IsSpent(item)
    ensures IsProviderTurnNotice(item) <==> IsNotice(item)
    ensures IsCompletionOf(item, automation, run) <==> IsRunOf(item, automation, run)
  {}

  // ----- what is shown -----

  /** The run is shown, or remembered as dismissed. */
  ghost predicate IsKnownRun(l: Local, automation: string, run: Option<string>) {
    || (exists id :: id in l.items && IsRunOf(l.items[id], automation, run))
    || (exists p :: p in l.dismissed && p.0 == automation && Some(p.1) == run && p.1 != "")
  }

  /** The action takes the item away: a dismissal of it unless it awaits a decision, the
      clearing of spent items, and the end of the run whose gate it shows. */
  ghost predicate TakesAway(l: Local, a: Action, id: Id)
    requires id in l.items
  {
    match a
    case Dismiss(which) => id == which && !AwaitsDecision(l.items[id])
    case ClearRead(_) => IsSpent(l.items[id])
    case AddCompletion(automation, run, _) =>
      !IsKnownRun(l, automation, run) && exists p ::
        l.items[id].approval == Some(p) && p.0 == automation && Some(p.1) == run
    case _ => false
  }

  /** What an item that stays becomes. */
  ghost predicate Becomes(a: Action, id: Id, item: QueueItem, item': QueueItem) {
    match a
    case MarkRead(which) => item' == item.(read := item.read || id == which)
    case MarkAllRead => item' == item.(read := item.read || !AwaitsDecision(item))
    case RecordChoice(which, choice) => item' == if id == which then item.(choiceSent := Some(choice)) else item
    case _ => item' == item
  }

  /** The action brings the item: a completion of a run that is not known, an action
      needed, or a notice of the backend. */
  ghost predicate Brings(s: State, a: Action, id: Id, item: QueueItem) {
    match a
    case AddCompletion(automation, run, newId) =>
      && id == newId && !IsKnownRun(s.local, automation, run)
      && item == Item(newId, AutomationCompleted, s.now, false, false, None, None, Some(automation), run, false, None, None)
    case NeedAction(newId) =>
      && id == newId
      && item == Item(newId, ActionNeeded, s.now, false, false, None, None, None, None, false, None, None)
    case ApplyNotice(notice) => id == notice.id && item == notice && !notice.dismissed && id !in s.local.items
    case _ => false
  }

  predicate IsLocal(a: Action) {
    || a.AddCompletion? || a.Dismiss? || a.ClearRead? || a.MarkRead? || a.MarkAllRead? || a.NeedAction? || a.RecordChoice?
    || a.ApplyNotice?
  }

  ghost predicate ShowsAfter(s: State, a: Action, s': State, id: Id) {
    && (id in s.local.items && TakesAway(s.local, a, id) ==> id !in s'.local.items)
    && (id in s.local.items && !TakesAway(s.local, a, id) ==>
          id in s'.local.items && Becomes(a, id, s.local.items[id], s'.local.items[id]))
    && (id !in s.local.items && id in s'.local.items ==> Brings(s, a, id, s'.local.items[id]))
    && (forall item :: id !in s.local.items && Brings(s, a, id, item) ==> id in s'.local.items)
  }

  lemma KnownRunIff(l: Local, automation: string, run: Option<string>)
    ensures CompletionIsKnown(l, automation, run) <==> IsKnownRun(l, automation, run)
  {
    hide IsRunOf, IsCompletionOf;
    forall id | id in l.items
      ensures IsCompletionOf(l.items[id], automation, run) <==> IsRunOf(l.items[id], automation, run)
    {
      FieldsSay(l.items[id], automation, run);
    }
    if p :| p in l.dismissed && p.0 == automation && Some(p.1) == run && p.1 != "" {
      assert p == (automation, run.value);
    }
  }

  lemma ProtectionIs(items: Items)
    ensures forall id :: id in items ==> (IsReadProtected(items[id]) <==> AwaitsDecision(items[id]))
    ensures forall id :: id in items ==> (items[id].read && IsClearable(items[id]) <==> IsSpent(items[id]))
    ensures forall id :: id in items ==> (IsProviderTurnNotice(items[id]) <==> IsNotice(items[id]))
  {}

  /** Every action does to every item what the tables say. */
  lemma ActionShows(s: State, a: Action, id: Id)
    requires Enabled(s, a) && IsLocal(a)
    ensures ShowsAfter(s, a, Next(s, a), id)
  {
    hide SavedForm, Acknowledged, NoticesAmong, KeysOf, Lists, Remembered, RunOf;
    ProtectionIs(s.local.items);
    hide IsReadProtected, AwaitsDecision, IsClearable, IsSpent, IsProviderTurnNotice, IsNotice;
    if a.AddCompletion? {
      KnownRunIff(s.local, a.automation, a.run);
      hide CompletionIsKnown, IsKnownRun;
    }
  }

  /** So what awaits a decision survives dismissal, clearing and marking all as read. */
  lemma DecisionsSurvive(s: State, a: Action, id: Id)
    requires Enabled(s, a) && (a.Dismiss? || a.ClearRead? || a.MarkAllRead?)
    requires id in s.local.items && AwaitsDecision(s.local.items[id])
    ensures id in Next(s, a).local.items && Next(s, a).local.items[id] == s.local.items[id]
  {
    ActionShows(s, a, id);
    hide Next, Enabled, ShowsAfter;
    assert ShowsAfter(s, a, Next(s, a), id);
    Surviving(s, a, Next(s, a), id);
  }

  lemma Surviving(s: State, a: Action, s': State, id: Id)
    requires (a.Dismiss? || a.ClearRead? || a.MarkAllRead?) && ShowsAfter(s, a, s', id)
    requires id in s.local.items && AwaitsDecision(s.local.items[id])
    ensures id in s'.local.items && s'.local.items[id] == s.local.items[id]
  {}

  // ----- what is remembered -----

  /** The action acknowledges the notification: it is marked read by itself, or it is an
      update that is read once all are marked. */
  ghost predicate AcknowledgesNow(l: Local, a: Action, n: string) {
    match a
    case MarkRead(id) => id in l.items && l.items[id].inbox == Some(n)
    case MarkAllRead =>
      exists id :: id in l.items && l.items[id].kind == AgentUpdate && l.items[id].inbox == Some(n)
                   && (l.items[id].read || !AwaitsDecision(l.items[id]))
    case _ => false
  }

  /** The action dismisses the run: its completion leaves by dismissal or clearing. */
  ghost predicate DismissesNow(l: Local, a: Action, p: Pair) {
    && (a.Dismiss? || a.ClearRead?) && p.0 != "" && p.1 != ""
    && exists id :: id in l.items && TakesAway(l, a, id) && IsRunOf(l.items[id], p.0, Some(p.1))
  }

  ghost predicate RemembersAfter(s: State, a: Action, s': State) {
    && (forall n :: n in s'.local.readIds <==> n in s.local.readIds || AcknowledgesNow(s.local, a, n))
    && (forall p :: p in s'.local.dismissed <==> p in s.local.dismissed || DismissesNow(s.local, a, p))
  }

  ghost predicate EachOnce(runs: seq<Pair>) {
    forall i, j :: 0 <= i < j < |runs| ==> runs[i] != runs[j]
  }

  /** Dismissed runs are remembered in the order of their dismissal, each once. */
  lemma {:induction false} RemembersEachOnce(dismissed: seq<Pair>, more: seq<Pair>)
    ensures dismissed <= Remembered(dismissed, more)
    ensures EachOnce(dismissed) ==> EachOnce(Remembered(dismissed, more))
    decreases |more|
  {
    if more != [] {
      RemembersEachOnce(if more[0] in dismissed then dismissed else dismissed + [more[0]], more[1..]);
    }
  }

  lemma MarkingAllAcknowledges(items: Items, n: string)
    ensures n in Acknowledged(AllRead(items)) <==>
      exists id :: id in items && items[id].kind == AgentUpdate && items[id].inbox == Some(n)
                   && (items[id].read || !AwaitsDecision(items[id]))
  {
    ProtectionIs(items);
    hide IsReadProtected, AwaitsDecision;
    if id :| id in items && items[id].kind == AgentUpdate && items[id].inbox == Some(n)
             && (items[id].read || !AwaitsDecision(items[id])) {
      assert id in AllRead(items) && IsReadUpdate(AllRead(items)[id]);
    }
  }

  lemma RunsTakenAway(items: Items, ids: set<Id>, p: Pair)
    ensures p in KeysOf(Chosen(items, ids)) <==>
      p.0 != "" && p.1 != "" && exists id :: id in items && id in ids && IsRunOf(items[id], p.0, Some(p.1))
  {
    var chosen := Chosen(items, ids);
    if p in KeysOf(chosen) {
      var id :| id in chosen && KeyOf(chosen[id]) == Some(p);
      assert IsRunOf(items[id], p.0, Some(p.1));
    }
    if p.0 != "" && p.1 != "" {
      if id :| id in items && id in ids && IsRunOf(items[id], p.0, Some(p.1)) {
        assert id in chosen && KeyOf(chosen[id]) == Some(p);
      }
    }
  }

  /** What the actions add to the acknowledgements and to the dismissed runs, and that
      they take nothing away. */
  lemma ActionRemembers(s: State, a: Action)
    requires Enabled(s, a) && IsLocal(a)
    ensures RemembersAfter(s, a, Next(s, a))
  {
    hide SavedForm, NoticesAmong, WithoutApprovalsOf;
    if a.MarkAllRead? {
      forall n
        ensures n in Next(s, a).local.readIds <==> n in s.local.readIds || AcknowledgesNow(s.local, a, n)
      {
        MarkingAllAcknowledges(s.local.items, n);
      }
      hide Acknowledged, AllRead;
    } else if a.Dismiss? {
      DismissRemembers(s, a.id);
    } else if a.ClearRead? {
      ClearRemembers(s, a.order);
    }
  }

  lemma DismissRemembers(s: State, id: Id)
    ensures RemembersAfter(s, Dismiss(id), Next(s, Dismiss(id)))
  {
    hide SavedForm, NoticesAmong, KeysOf, Chosen, RunOf;
    var l := s.local;
    if id in l.items {
      FieldsSay(l.items[id], "", None);
    }
    forall p
      ensures p in RunOf(l.items, id) <==>
        p.0 != "" && p.1 != "" && exists i :: i in l.items && i in {id} && IsRunOf(l.items[i], p.0, Some(p.1))
    {
      assert Lists(RunOf(l.items, id), KeysOf(Chosen(l.items, {id})));
      RunsTakenAway(l.items, {id}, p);
    }
    hide IsReadProtected, AwaitsDecision, IsRunOf;
  }

  lemma ClearRemembers(s: State, order: seq<Pair>)
    requires Enabled(s, ClearRead(order))
    ensures RemembersAfter(s, ClearRead(order), Next(s, ClearRead(order)))
  {
    hide SavedForm, NoticesAmong, KeysOf, Chosen;
    var l := s.local;
    ProtectionIs(l.items);
    forall p
      ensures p in order <==>
        p.0 != "" && p.1 != "" && exists i :: i in l.items && i in ClearedIds(l.items) && IsRunOf(l.items[i], p.0, Some(p.1))
    {
      RunsTakenAway(l.items, ClearedIds(l.items), p);
    }
    hide IsClearable, IsSpent, IsRunOf;
  }

  // ----- what is sent -----

  /** A save sends the own records as they are shown, an acknowledgement for every
      notification that counts as read, and a marker for every dismissed run, all with
      the time of the save. */
  ghost predicate Sends(l: Local, saved: Items, now: int, id: Id) {
    match id
    case DismissalId(text) =>
      if exists p :: p in l.dismissed && MarkerText(p) == text then
        id in saved && exists p :: p in l.dismissed && MarkerText(p) == text && IsMarkerOf(id, p, now, saved[id])
      else
        At(saved, id) == OwnRecord(l, id)
    case ReadId(n) =>
      if n in l.readIds || ShowsReadUpdate(l, n) then
        id in saved && saved[id] == Item(id, AgentUpdate, now, true, false, Some(n), None, None, None, false, None, None)
      else
        At(saved, id) == OwnRecord(l, id)
    case _ => At(saved, id) == OwnRecord(l, id)
  }

  ghost predicate ShowsReadUpdate(l: Local, n: string) {
    exists id :: id in l.items && l.items[id].kind == AgentUpdate && l.items[id].read && l.items[id].inbox == Some(n)
  }

  ghost function OwnRecord(l: Local, id: Id): Option<QueueItem> {
    if id in l.items && IsOwnRecord(l.items[id]) then Some(l.items[id]) else None
  }

  ghost predicate IsMarkerOf(id: Id, p: Pair, now: int, item: QueueItem) {
    item == Item(id, AutomationCompleted, now, true, true, None, None, Some(p.0), Some(p.1), false, None, None)
  }

  lemma {:induction false} MarkersSent(runs: seq<Pair>, now: int, id: Id)
    ensures var markers := DismissalMarkers(runs, now);
            && (id in markers <==> id.DismissalId? && exists p :: p in runs && MarkerText(p) == id.text)
            && (id in markers ==> exists p :: p in runs && MarkerText(p) == id.text && IsMarkerOf(id, p, now, markers[id]))
  {
    hide MarkerText;
    if runs != [] {
      var front, last := runs[..|runs| - 1], runs[|runs| - 1];
      MarkersSent(front, now, id);
      assert runs == front + [last];
    }
  }

  lemma SaveSends(l: Local, now: int, id: Id)
    ensures Sends(l, SavedForm(l.items, l.readIds, l.dismissed, now), now, id)
  {
    hide DismissalMarkers, IsMarkerOf, MarkerText;
    MarkersSent(l.dismissed, now, id);
  }

  /** The action changes nothing that is saved. */
  ghost predicate SavesNothing(l: Local, a: Action) {
    || a.ApplyNotice?
    || (a.AddCompletion? && IsKnownRun(l, a.automation, a.run))
    || (a.Dismiss? && a.id in l.items && AwaitsDecision(l.items[a.id]))
  }

  ghost predicate ChainsSave(s: State, a: Action, s': State, saved: Items, notices: set<Id>) {
    && (forall id :: Sends(s'.local, saved, s.now, id))
    && (forall id :: id in notices <==>
          id in s.local.items && IsNotice(s.local.items[id]) && (a.Dismiss? || a.ClearRead?) && TakesAway(s.local, a, id))
    && s'.local.chain == s.local.chain + (if notices == {} then [] else [DismissNotices(notices)]) + [SaveItems(saved)]
  }

  /** A mutation chains one save of the store as it is then; a notice that leaves is
      dismissed on disk before it. Nothing else is chained, and notices are shown without
      a save. */
  ghost predicate ChainsAfter(s: State, a: Action, s': State) {
    if SavesNothing(s.local, a) then s'.local.chain == s.local.chain
    else exists saved, notices :: ChainsSave(s, a, s', saved, notices)
  }

  lemma ChainsOneSave(l: Local, l': Local, saved: Items, notices: set<Id>)
    requires l'.chain == DismissingNotices(l, notices).chain + [SaveItems(saved)]
    ensures l'.chain == l.chain + (if notices == {} then [] else [DismissNotices(notices)]) + [SaveItems(saved)]
  {}

  /** The provider notices that the action takes away. */
  function NoticesOf(l: Local, a: Action): set<Id> {
    match a
    case Dismiss(id) => NoticesAmong(l.items, {id})
    case ClearRead(_) => NoticesAmong(l.items, ClearedIds(l.items))
    case _ => {}
  }

  lemma NoticesOfAre(l: Local, a: Action, id: Id)
    requires a.Dismiss? && a.id in l.items ==> !AwaitsDecision(l.items[a.id])
    ensures id in NoticesOf(l, a) <==>
      id in l.items && IsNotice(l.items[id]) && (a.Dismiss? || a.ClearRead?) && TakesAway(l, a, id)
  {
    ProtectionIs(l.items);
    hide AwaitsDecision, IsSpent, IsClearable, IsNotice, IsProviderTurnNotice, IsReadProtected;
  }

  lemma SavingActionChains(s: State, a: Action)
    requires Enabled(s, a) && IsLocal(a) && !a.ApplyNotice?
    requires a.AddCompletion? ==> !CompletionIsKnown(s.local, a.automation, a.run)
    requires a.Dismiss? && a.id in s.local.items ==> !IsReadProtected(s.local.items[a.id])
    ensures var l' := Next(s, a).local;
            l'.chain == DismissingNotices(s.local, NoticesOf(s.local, a)).chain
                        + [SaveItems(SavedForm(l'.items, l'.readIds, l'.dismissed, s.now))]
  {
    hide SavedForm, NoticesAmong, CompletionIsKnown, WithoutApprovalsOf, Removed, AllRead, Acknowledged, KeysOf, Chosen,
      Lists, ClearedIds, IsReadProtected, Remembered, RunOf;
  }

  lemma ActionChains(s: State, a: Action)
    requires Enabled(s, a) && IsLocal(a)
    ensures ChainsAfter(s, a, Next(s, a))
  {
    hide SavedForm, NoticesAmong, WithoutApprovalsOf, Removed, AllRead, Acknowledged, KeysOf, Chosen, Lists, ClearedIds,
      Remembered, RunOf, Sends, IsSpent, IsNotice;
    var l, s' := s.local, Next(s, a);
    ProtectionIs(l.items);
    hide IsReadProtected, AwaitsDecision;
    if a.AddCompletion? {
      KnownRunIff(l, a.automation, a.run);
    }
    hide IsKnownRun, CompletionIsKnown;
    if !SavesNothing(l, a) {
      SavingActionChains(s, a);
      hide Next, Enabled;
      var saved := SavedForm(s'.local.items, s'.local.readIds, s'.local.dismissed, s.now);
      forall id
        ensures Sends(s'.local, saved, s.now, id)
      {
        SaveSends(s'.local, s.now, id);
      }
      forall id
        ensures id in NoticesOf(l, a) <==>
          id in l.items && IsNotice(l.items[id]) && (a.Dismiss? || a.ClearRead?) && TakesAway(l, a, id)
      {
        NoticesOfAre(l, a, id);
      }
      ChainsOneSave(l, s'.local, saved, NoticesOf(l, a));
      assert ChainsSave(s, a, s', saved, NoticesOf(l, a));
    }
  }

  /** Every local change counts as one mutation. */
  lemma ActionCounts(s: State, a: Action)
    requires Enabled(s, a) && IsLocal(a)
    ensures var s' := Next(s, a);
            && s'.local.load == s.local.load && s'.file == s.file && s'.base == s.base && s'.now == s.now
            && (s'.local.revision == s.local.revision ==> s' == s)
            && s.local.revision <= s'.local.revision <= s.local.revision + 1
  {
    hide SavedForm, NoticesAmong, CompletionIsKnown, WithoutApprovalsOf, Removed, AllRead, Acknowledged, KeysOf, Chosen,
      Lists, ClearedIds, IsReadProtected, Remembered, RunOf;
  }

  // ----- which loads commit -----

  /** The load that began with step `j` ends with step `k`. */
  ghost predicate LoadSpans(run: Run, j: nat, k: nat)
    requires IsRun(run)
  {
    && j < k < |run.actions|
    && run.actions[j] == StartLoad && run.states[j].local.load.Idle?
    && run.actions[k].FinishLoad?
    && forall i :: j < i <= k ==> !run.states[i].local.load.Idle?
  }

  lemma StepRemembersRevision(s: State, a: Action)
    requires Enabled(s, a)
    ensures var s' := Next(s, a);
            && s.local.revision <= s'.local.revision
            && (!s.local.load.Idle? && !s'.local.load.Idle? ==> s'.local.load.revision == s.local.load.revision)
            && (a == StartLoad && s.local.load.Idle? ==>
                  !s'.local.load.Idle? && s'.local.load.revision == s.local.revision)
            && (!IsLocal(a) ==> s'.local.revision == s.local.revision)
  {
    hide SavedForm, NoticesAmong, CompletionIsKnown, WithoutApprovalsOf, Removed, AllRead, Acknowledged, KeysOf, Chosen,
      Lists, ClearedIds, IsReadProtected, Remembered, RunOf, LoadedItems, Reconciled, RunsOf, DismissedOf, Unexpired,
      NotificationItems, SavedFile, DismissedFile, ReadableFile;
  }

  lemma {:induction false} LoadRemembersRevision(run: Run, j: nat, k: nat)
    requires IsRun(run) && j < k < |run.states|
    requires run.actions[j] == StartLoad && run.states[j].local.load.Idle?
    requires forall i :: j < i <= k ==> !run.states[i].local.load.Idle?
    ensures run.states[k].local.load.revision == run.states[j].local.revision
  {
    hide Next, Enabled, Started;
    var s := run.states[k - 1];
    assert StepsTo(s, run.actions[k - 1], run.states[k]);
    StepRemembersRevision(s, run.actions[k - 1]);
    if j + 1 < k {
      LoadRemembersRevision(run, j, k - 1);
    }
  }

  /** No local action changed the store in these steps. */
  ghost predicate NothingChanged(run: Run, j: nat, k: nat)
    requires IsRun(run) && k < |run.states|
  {
    forall i :: j <= i < k && IsLocal(run.actions[i]) ==> run.states[i + 1] == run.states[i]
  }

  lemma {:induction false} RevisionCountsChanges(run: Run, j: nat, k: nat)
    requires IsRun(run) && j <= k < |run.states|
    ensures run.states[j].local.revision <= run.states[k].local.revision
    ensures run.states[j].local.revision == run.states[k].local.revision <==> NothingChanged(run, j, k)
  {
    hide Next, Enabled, Started;
    if j < k {
      RevisionCountsChanges(run, j, k - 1);
      var s, a := run.states[k - 1], run.actions[k - 1];
      assert StepsTo(s, a, run.states[k]);
      StepRemembersRevision(s, a);
      if IsLocal(a) {
        ActionCounts(s, a);
      }
      assert NothingChanged(run, j, k) <==> NothingChanged(run, j, k - 1) && (IsLocal(a) ==> run.states[k] == s);
    }
  }

  /** A load commits iff no local action changed the store since it began; then it shows
      what file and lists say, and otherwise it leaves the store as it is. */
  lemma LoadCommitsIffUndisturbed(run: Run, j: nat, k: nat)
    requires IsRun(run) && LoadSpans(run, j, k)
    ensures var s, s', a := run.states[k], run.states[k + 1], run.actions[k];
            if NothingChanged(run, j, k) then ShowsFile(s, s', a.listing, a.at)
            else s'.local == s.local.(load := Idle)
  {
    hide Next, ShowsFile, NothingChanged, Started, Enabled;
    var s, a := run.states[k], run.actions[k];
    assert StepsTo(s, a, run.states[k + 1]);
    LoadRemembersRevision(run, j, k);
    RevisionCountsChanges(run, j, k);
    AwaitsLists(s, a);
    if NothingChanged(run, j, k) {
      CommittedLoadShows(run, k);
    } else {
      hide IsRun;
      OvertakenLoadLeaves(s, a);
    }
  }

  lemma AwaitsLists(s: State, a: Action)
    requires Enabled(s, a) && a.FinishLoad?
    ensures s.local.load.AwaitingLists?
    ensures LoadCommits(s.local) <==> s.local.load.revision == s.local.revision
  {}

  lemma OvertakenLoadLeaves(s: State, a: Action)
    requires Enabled(s, a) && a.FinishLoad? && s.local.load.revision != s.local.revision
    ensures Next(s, a).local == s.local.(load := Idle)
  {}
}
