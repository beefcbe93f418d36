/** What the backend's calls do to the queue file, record by record, and which provider
    notices a load shows (src-tauri/src/commands/watchlist.rs, src-tauri/src/utils/queue.rs). */
module QueueFile {
  import opened Common
  import opened QueueMerge
  import opened QueueStore
  import opened QueueProtocol
  import opened QueueInvariant
  import opened QueueLoad
  import opened QueueTheorems
  import opened QueueShown
  import opened QueueActions

  /** Either of the two, the first one if it is there. */
  ghost function OrElse(first: Option<string>, second: Option<string>): Option<string> {
    match first case Some(_) => first case None => second
  }

  /** What a save makes of a record. A notice stays and is read once anybody says so. Any
      other record stays if the sender did not know it; of those it knew, one that it sends
      keeps what the file says of reads and choices, and one that it does not send goes. */
  ghost predicate SaveMakes(inBase: bool, sent: Option<QueueItem>, before: Option<QueueItem>, after: Option<QueueItem>) {
    match before
    case Some(was) =>
      if IsNotice(was) then
        after == Some(was.(read := was.read || was.dismissed || (sent.Some? && sent.value.read)))
      else if !inBase then after == before
      else
        (match sent
         case None => after == None
         case Some(item) =>
           after == Some(item.(read := was.read || item.read,
                               choiceSent := OrElse(was.choiceSent, item.choiceSent),
                               choicePending := OrElse(was.choicePending, item.choicePending))))
    case None =>
      after == if inBase then None else sent
  }

  /** What a dismissal makes of a record: a notice it names is dismissed and read. */
  ghost predicate DismissalMakes(named: bool, before: Option<QueueItem>, after: Option<QueueItem>) {
    match before
    case Some(was) =>
      if named && IsNotice(was) && !was.dismissed then after == Some(was.(dismissed := true, read := true))
      else after == before
    case None => after == None
  }

  ghost predicate FileFollows(s: State, a: Action, s': State, id: Id) {
    match a
    case RunCall =>
      s.local.chain != []
      && s'.local.chain == s.local.chain[1..]
      && (match s.local.chain[0]
          case SaveItems(saved) =>
            && SaveMakes(id in s.base, At(saved, id), At(s.file, id), At(s'.file, id))
            && (id in s'.base <==> id in s'.file)
          case DismissNotices(ids) =>
            && DismissalMakes(id in ids, At(s.file, id), At(s'.file, id))
            && (id in s'.base <==> id in s.base))
    case WriteNotice(item) => At(s'.file, id) == (if id == item.id then Some(item) else At(s.file, id)) && s'.base == s.base
    case ReadFile =>
      && s'.local.load.AwaitingLists? && s'.file == s.file
      && At(s'.local.load.raw, id)
         == (if id in s.file && !(IsNotice(s.file[id]) && s.file[id].dismissed) then Some(s.file[id]) else None)
      && (id in s'.base <==> id in s'.local.load.raw)
    case _ => At(s'.file, id) == At(s.file, id) && (id in s'.base <==> id in s.base)
  }

  /** Every step does to every record what the tables say; only the backend's calls and
      its own notices change the file. */
  lemma StepMakesFile(s: State, a: Action, id: Id)
    requires Enabled(s, a)
    ensures FileFollows(s, a, Next(s, a), id)
    ensures Next(s, a).now == match a case Tick(now) => now case _ => s.now
  {
    hide SavedForm, NoticesAmong, CompletionIsKnown, WithoutApprovalsOf, Removed, AllRead, Acknowledged, KeysOf, Chosen,
      Lists, ClearedIds, IsReadProtected, Remembered, RunOf, LoadedItems, Reconciled, RunsOf, DismissedOf, Unexpired,
      NotificationItems;
    if a == RunCall {
      CallMakesFile(s, id);
    }
    hide SavedFile, DismissedFile;
    if a == ReadFile && id in s.file {
      FieldsSay(s.file[id], "", None);
    }
  }

  lemma CallMakesFile(s: State, id: Id)
    requires s.local.chain != []
    ensures FileFollows(s, RunCall, Next(s, RunCall), id)
  {
    if id in s.file {
      FieldsSay(s.file[id], "", None);
    }
    hide IsNotice;
  }

  /** A committed load shows the notices it read that are young and not dismissed, as the
      file had them. */
  lemma CommittedLoadShowsNotices(run: Run, k: nat, id: Id)
    requires IsRun(run) && k < |run.actions| && run.actions[k].FinishLoad? && id.NoticeId?
    requires run.states[k].local.load.AwaitingLists? && LoadCommits(run.states[k].local)
    ensures var s, s', at := run.states[k], run.states[k + 1], run.actions[k].at;
            var raw := s.local.load.raw;
            At(s'.local.items, id)
            == if id in raw && at - raw[id].timestamp < 7 * 24 * 60 * 60 * 1000 && !raw[id].dismissed
               then Some(raw[id]) else None
  {
    hide Inv, Next, Enabled, CommitReady, Started;
    var s, s', a := run.states[k], run.states[k + 1], run.actions[k];
    assert StepsTo(s, a, s');
    RunKeepsInv(run, k);
    hide IsRun;
    InvGivesReady(s);
    CommitStepCommits(s, a.listing, a.order, a.at);
    ReadNoticeIsFresh(s, a.at, id);
    hide PersistedOf, LoadedItems, Reconciled, RunsOf, ApprovalItems, NotificationItems, Acknowledged, DismissedOf, Lists;
    LoadedAt(PersistedOf(s, a.at), a.listing, id);
    ReconciledAt(a.listing.terminals, RunsOf(PersistedOf(s, a.at)), id);
    ApprovalItemsAre(a.listing.approvals, id);
    NotificationItemsAre(a.listing.notifications, Acknowledged(PersistedOf(s, a.at)), id);
  }

  lemma ReadNoticeIsFresh(s: State, at: int, id: Id)
    requires CommitReady(s) && id.NoticeId? && s.local.load.AwaitingLists?
    ensures var raw, persisted := s.local.load.raw, PersistedOf(s, at);
            && (id in persisted <==> id in raw && at - raw[id].timestamp < MaxAge && !raw[id].dismissed)
            && (id in persisted ==> persisted[id] == raw[id] && IsLegacy(raw[id]))
  {
    assert ReadAgrees(At(s.local.load.raw, id), At(s.file, id), id);
    assert SaneCell(id, CellOf(s.file, s.base, id));
  }
}
