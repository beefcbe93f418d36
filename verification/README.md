# Wardian: verified models of the control plane

Dafny models of the parts of Wardian whose correctness depends on interleaving
or on exact text: restoring agents at startup, delivering messages and watching
for their effect, the two asynchronous editor stores, the quoting of dropped
paths, artifact presentation and the topology audit log. `dafny verify
dfyconfig.toml` checks everything. File paths below are relative to the root of
the Wardian repository.

## How the models are built

- A piece of code that runs between two waits is one atomic step. Whatever such
  a step learns from outside (a spawn result, a lease file, a clock, a provider's
  answer, a backend list) is a parameter of the step, so a theorem about every
  run covers every answer.
- Every decision is stated twice: as the code makes it, and in terms of the fields and
  events it is about, with a lemma that the two agree. The statements about runs are
  over fields and events.
- Objects that the code updates in place are classes (`RestorePublication.Roster`,
  `AgentWatch.AgentWatchState`, `Delivery.Transports`, `BuilderStore.Builder`,
  `QueueStore.Queue`, `ArtifactService.Service`, `TopologyAudit.AuditLog`). Where
  calls interleave, the same state appears as a datatype with a step function
  beside the class, and the theorems are about runs of the steps.
- Uuids are numbers. Queue ids are structured, which is exact for the ids the program
  makes (`QueueIds.IdTextsDiffer`); a dismissal marker is known by its text alone. An
  `Arc` handle is a cell number; the JSON form of a value is not modelled.

**Startup restore** (`Leases`, `LeaseWait`, `RestorePublication`,
`RestoreProtocol`, `RestoreInvariant`, `RestoreTheorems`, `RestoreOutcomes`,
`RestoreSlots`, `RestoredNames`, `PersistRoster`, `PersistLocking`). Pass 1 claims the lifecycle gates
of the saved agents one by one and keeps them, pass 2 takes one of four slots while
holding a gate, and scheduled retries take a slot and then a gate. Outsiders may hold
any gate, one at a time, and give it back.

**Delivery and watching** (`DeliveryRoutes`, `Delivery`, `AgentWatch`, `WatchWait`,
`WatchProgress`, `WatchRetention`, `WatchOutput`, `EchoText`, `EchoScreen`, `EchoGuard`,
`EchoReadings`, `OutputWatch`). The fan-out loop over resolved targets, the bounded
event log and the waiter that parks on it, the guard that recognises a redisplayed
prompt, and what a look for output can miss.

**Stores** (`BuilderStore`, `BuilderHistory`; `QueueMerge`, `QueueStore`,
`QueueProtocol`, `QueueInvariant`, `QueueSteps`, `QueueLoad`, `QueueTheorems`,
`QueueIds`, `QueueMemory`, `QueueShown`, `QueueActions`, `QueueFile`, `QueueClash`).
Requests and responses are separate steps. The queue protocol includes the backend's
three-way merge of saves with its base snapshot.

**Smaller state machines** (`FileDrop`, `ArtifactService`, `ArtifactCalls`,
`TopologyAudit`).

## Where the code and its promises differ

- The permit of a scheduled retry is not used inside the attempt's async block
  (src-tauri/src/lib.rs:105 and src-tauri/src/lib.rs:128), so it is given back when
  the attempt begins. The bound of four concurrent spawns holds for pass 2
  (`FourSpawnsAtOnce`). More than four retries can attempt together iff more than
  four were scheduled, and any number can be (`AttemptsNeverExceedRetries`,
  `AttemptsAreBoundedByRetriesOnly`, `AnyNumberMayAttemptTogether`).
- "codex never takes the native arm" compares the raw provider text, while the
  protocol is looked up on the trimmed, lower-cased text. It holds iff the provider
  is spelled exactly `codex` (`CodexAvoidsNativeArmIffCanonical`,
  `CapitalisedCodexTakesNativeArm`).
- A version can be stored by a `present` call that reports `persistence_failed`: the
  manifest is written before the index. Stored versions number the successes and
  `ui_delivery_failed` results iff the run met no index fault (`VersionsAreAccounted`),
  and runs that meet one exist on both branches (`FaultOnCreateIsReachable`,
  `FaultOnAppendIsReachable`).
- The queue store joins automation and run id with a colon to the id of a dismissal
  marker. By itself it would confuse two runs with one such text: a save would keep the
  later and the next load show the other again (`DismissalIsSavedIffLast`,
  `ClashingRunReturns`). The backend's ids rule that out: a run has a directory only
  under ids without a colon (crates/wardian-core/src/paths.rs:144-160), as those made in
  crates/wardian-core/src/engine/driver.rs:344-350,
  src-tauri/src/automation/listener/launch.rs:62-65 and
  src-tauri/src/automation/session_close.rs:207-210 are. So no two ids have one text
  (`IdTextsDiffer`) and a dismissed run stays gone (`DiscardedRunStaysGone`).
- Output is trimmed by size wherever it stands, so it can be lost behind an older
  record without any cursor expiring (`OutputCanVanishSilently`). A snapshot that has
  not expired shows all output after its cursor iff that output fits the byte limit
  (`SnapshotOutputIsCompleteIffItFits`). The "no silent gap" promise covers events,
  statuses and deliveries. A look for output misses nothing that fits
  (`LookMissesOnlyWhatDoesNotFit`) and can miss a token that scrolled away
  (`TokenScrollsAway`).
- The "no valid expiry" error and the zero-delay yield of the lease wait cannot be
  reached (`AwaitedConflictsExpireLater`).
- Of the builder's asynchronous responses only `save` is guarded against staleness. An
  older load can win over a newer one (`OlderLoadCanWin`): what the last request brought
  is shown iff its response arrives last (`LastRequestIsShownIffAnsweredLast`).
  Older diagnostics can be shown beside a newer blueprint (`OlderValidationCanWin`):
  they belong to what is shown iff nothing was opened, edited or discarded since
  (`ValidationIsCurrentIffUntouched`).
- The bare-token exception of the echo guard does not apply to a token that itself
  starts with an origin prefix or is a JSON message (`BareTokenHasOtherReading`).

## Model

| member | source | states |
|---|---|---|
| Leases.RetryableIff | src-tauri/src/startup_restore.rs:11-71 | a refused restore may be retried iff the lease is the agent's own automation run with the conversation it would resume, or somebody's start or resume of the agent or its conversation, told by the fields of the lease |
| Leases.SessionIdentityIs | src-tauri/src/startup_restore.rs:175-189 | the conversation an agent would resume: the saved session if it has ink, else the fresh one, trimmed, else none |
| Leases.ConflictsIffExcludes | crates/wardian-core/src/conversation_lease.rs:226-241 | when a lease excludes an agent: an uncertain previous provider its session for good, any other lease agent and session until it expires |
| Leases.HeadlessExecutionIff | src-tauri/src/startup_restore.rs:307-319 | a headless execution is active iff a background lease excludes the agent or its saved session as written |
| Leases.SameGenerationIff | src-tauri/src/startup_restore.rs:191-225 | for a lease that parked a retry, the same acquisition means that nothing but heartbeat, expiry and the reading of the same start text differ |
| LeaseWait.WaitForRestoreLeaseClear | src-tauri/src/startup_restore.rs:115-174 | for a lease that parked a retry the wait goes on exactly while that acquisition alone excludes the agent, and the first other reading decides: clear iff nothing excludes it, withdrawn iff another acquisition or an uncertain owner does, an error iff the load failed; every sleep is positive and ends after two seconds or at the first expiry, whichever is earlier |
| LeaseWait.WaitForRetry | src-tauri/src/startup_restore.rs:78-113 | the headless wait refuses at once a lease that is not the agent's own automation run; otherwise both waits have the verdict above |
| LeaseWait.AnotherAcquisitionWithdraws | src-tauri/src/startup_restore.rs:146-154 | a reading with a lease of another acquisition, start or owner, or an uncertain one, withdraws the retry |
| LeaseWait.AwaitedConflictsExpireLater | src-tauri/src/startup_restore.rs:157-172 | while only the awaited acquisition excludes the agent it has a valid expiry in the future, so two branches are dead |
| LeaseWait.DecisionIsUnique | src-tauri/src/startup_restore.rs:128-173 | at most one deciding snapshot and verdict for each trace |
| LeaseWait.RetryableLeaseIsAwaited | src-tauri/src/startup_restore.rs:11-76 | the lease that parked a retry, renewed or not, always counts as the awaited acquisition |
| LeaseWait.HeartbeatKeepsWaiting | src-tauri/src/startup_restore.rs:191-225 | heartbeat renewals of the awaited acquisition keep the wait going |
| LeaseWait.WaitIsBounded | src-tauri/src/startup_restore.rs:157-173 | a waiting prefix is at most the remaining time in two-second slices plus the renewals seen |
| LeaseWait.UnrenewedWaitIsBounded | src-tauri/src/startup_restore.rs:157-173 | an unrenewed lease needs at most ceil((expiry - start) / 2 s) + 1 reloads |
| LeaseWait.BoundedRenewalTerminates | src-tauri/src/startup_restore.rs:157-173 | under any renewals that stay below some instant the wait ends |
| RestoreTheorems.BegunClaimStaysGood | src-tauri/src/startup_restore.rs:332-345 | a claim that pass 1 begins stays good until it publishes: the agent stays unregistered and its gate stays with the claim, whatever others do |
| RestorePublication.Roster.BeginRetry | src-tauri/src/startup_restore.rs:363-419 | a retry claim starts iff the entry is the very placeholder: same status cell, same config, no runtime, and Error or Headless as its kind demands |
| RestorePublication.Roster.Publish | src-tauri/src/startup_restore.rs:421-462 | sets one entry, lists it once, keeps every other entry and place |
| RestorePublication.Roster.PublishSpawned | src-tauri/src/startup_restore.rs:466-505 | publishes, and an attached agent still Starting gets the admitted status if that is one of the five settled ones and Idle otherwise |
| RestorePublication.PublishingKeepsPlaces | src-tauri/src/startup_restore.rs:455-461 | the order list stays free of repetitions and lists every registered agent, nobody moves, and only a missing id is appended |
| RestoreTheorems.NoDeadlock | src-tauri/src/lib.rs:731-1063 | in every reachable unfinished state some restoration step, lease answer or outside release is enabled, for every saved roster, duplicate ids included |
| RestoreTheorems.AwaitedGateIsNotOurs | src-tauri/src/lib.rs:731-742 | pass 1 never waits for a gate that it already carries |
| RestoreTheorems.RunsAreBounded | src-tauri/src/lib.rs:731-1063 | restoration steps are bounded by the work at the start plus the holds others take |
| RestoreTheorems.StartupIsBounded | src-tauri/src/lib.rs:731-1063 | at most 20 steps for each saved entry and five more, plus one for each gate that others hold or take |
| RestoreTheorems.FourSpawnsAtOnce | src-tauri/src/lib.rs:861-885 | at most four pass-2 tasks spawn at once, and no permit is lost |
| RestoreSlots.AllRetriesMayRunTogether | src-tauri/src/lib.rs:95-140 | from scheduled retries, a run in which every one of them attempts at once |
| RestoreSlots.AttemptsNeverExceedRetries | src-tauri/src/lib.rs:95-140 | from scheduling on, whatever outsiders and users do, the attempts at one time are at most the retries scheduled |
| RestoreSlots.AttemptsAreBoundedByRetriesOnly | src-tauri/src/lib.rs:95-140 | with nobody else at work that number is reached, and more than four can attempt together iff more than four were scheduled |
| RestoreSlots.EveryAgentMayBeRetried | src-tauri/src/lib.rs:731-1063 | for every roster of distinct unregistered agents, a run from the start schedules a retry for each |
| RestoreSlots.AnyNumberMayAttemptTogether | src-tauri/src/lib.rs:731-1063 | so for every number of agents a run from the start has that many attempts at once |
| RestoreTheorems.OneClaimPerAgent | src-tauri/src/startup_restore.rs:318-345 | each agent has at most one open claim, and restoration holds exactly the gates of the open claims |
| RestoreTheorems.RetryAtMostOnce | src-tauri/src/startup_restore.rs:234-305 | each scheduled retry attempts at most once, and no agent has two retries |
| RestoreTheorems.PublicationIsOwned | src-tauri/src/startup_restore.rs:383-462 | every publication replaces an absent entry, the same claim's placeholder, or the exact Error or Headless placeholder it rechecked, under its gate |
| RestoreTheorems.UntouchedPlaceholderIsReclaimed | src-tauri/src/lib.rs:916-984 | the retry kind always fits the placeholder it published: if nobody touched the agent, only a config that is off can stop the retry |
| RestoreOutcomes.SettleMeans | src-tauri/src/lib.rs:904-984 | what pass 2 publishes and parks after a spawn: a headless retry iff the agent's own automation run refused it, a lifecycle retry iff a passing transition did and no execution is going on, else none; the placeholder is Headless iff an execution was met and Error otherwise |
| RestoreOutcomes.RetryIsScheduledIff | src-tauri/src/lib.rs:916-1063 | in every run, once scheduling is over, a retry for a configuration and lease is scheduled iff the roster was persisted and pass 2 met that lease with that configuration, and it is worth a retry of that kind |
| RestoreOutcomes.SettleRetryMeans | src-tauri/src/lib.rs:183-328 | what a retry publishes: nothing if it was cancelled or waited for an execution and another owner won, else the spawned agent or a Headless or Error placeholder by the leases met |
| RestoreOutcomes.StepPublishes | src-tauri/src/lib.rs:731-1063 | what every step makes of every agent's entry, and that it touches no other entry |
| RestoreOutcomes.StepMovesGates | src-tauri/src/lib.rs:731-1063 | which lifecycle gate every step takes or gives back, and that it moves no other |
| RestoreOutcomes.NoAgentIsLost | src-tauri/src/lib.rs:731-838 | from the end of pass 1 on every saved agent is registered, unless somebody else removed it |
| RestoreOutcomes.EveryAgentIsSettled | src-tauri/src/lib.rs:731-1063 | once scheduling is over, a saved agent that nobody touched is what it was before or what a failed preparation, a spawn or a retry made of it; none is left on its Restoring placeholder |
| RestoreOutcomes.AttemptFollowsClearLease | src-tauri/src/startup_restore.rs:234-305 | a retry attempts only after its wait found the lease clear, counts the attempt, and is over for good otherwise |
| RestoreInvariant.StepKeepsInv | src-tauri/src/lib.rs:731-1063 | every step of claims, tasks, retries and outsiders keeps gates, slots, claims and entries consistent |
| RestoredNames.RestoreNames | src-tauri/src/lib.rs:711-770 | restored names are clean, pairwise distinct, and each the first candidate no earlier agent took |
| RestoredNames.UniqueName | src-tauri/src/lib.rs:747-768 | the suffix loop ends with the first free candidate, after at most as many rounds as names are taken |
| RestoredNames.DecimalIsInjective | src-tauri/src/lib.rs:764-766 | distinct counters print differently |
| RestoredNames.DecimalReadsBack | src-tauri/src/lib.rs:764-766 | a counter is printed in decimal: its digits read back as the counter, without leading zeros |
| RestoredNames.CandidateIs | src-tauri/src/lib.rs:763-767 | the candidates are the name itself and then the name, a hyphen and a counter |
| RestoredNames.TakenCandidatesFit | src-tauri/src/lib.rs:763-767 | k distinct taken candidates need k taken names, so the loop cannot run on |
| RestoredNames.CleanNamesAreKept | src-tauri/src/lib.rs:747-768 | a clean name that nobody took is kept as it is |
| PersistRoster.Snapshot | src-tauri/src/manager/mod.rs:1261-1294 | the runtime snapshot holds every live agent exactly once: the ordered ones first and in order, the others after them sorted by id |
| PersistRoster.OrderedIdsAre | src-tauri/src/manager/mod.rs:1261-1273 | the ordered part holds the registered ids of the order, each once, by their first places |
| PersistRoster.PrecedesIff | src-tauri/src/manager/mod.rs:1275-1280 | the rest is sorted by the first character in which two ids differ |
| PersistRoster.Merge | src-tauri/src/startup_restore.rs:521-554 | the loop equals the pointwise three-way merge |
| PersistRoster.MergeKeepsIds | src-tauri/src/startup_restore.rs:530-554 | length, order and ids of the durable roster stay |
| PersistRoster.MergeIsIdempotent | src-tauri/src/startup_restore.rs:530-554 | merging twice equals merging once |
| PersistRoster.MergeRespectsDurableChanges | src-tauri/src/startup_restore.rs:530-554 | an entry becomes its runtime config iff it still equals the selected config; removed agents are not resurrected |
| PersistLocking.NoDeadlock | src-tauri/src/startup_restore.rs:507-566 | no reachable unfinished state is stuck, with any number of mutators that own the barrier while they wait for the maps |
| PersistLocking.PersistTerminates | src-tauri/src/startup_restore.rs:507-566 | with n other users a run has at most 32 n + 6 steps: the try loop cannot spin for ever |
| PersistLocking.WritesAreAtomicMerges | src-tauri/src/startup_restore.rs:507-566 | what is written is the merge of the runtime and durable rosters of that very moment, with both maps and the barrier held |
| PersistLocking.PersistWrites | src-tauri/src/startup_restore.rs:507-566 | a persist that meets no failure never gives up: if it has ended, some step of the run wrote the merge of that moment |
| PersistLocking.FailureEndsCall | src-tauri/src/startup_restore.rs:517-564 | a failure at the barrier, the read or the write ends the call, writes nothing and leaves no lock behind |
| PersistLocking.RostersChangeUnderLocks | src-tauri/src/startup_restore.rs:507-566 | whoever changes the runtime roster holds both maps, and whoever changes the durable one the barrier |
| DeliveryRoutes.RouteIsSound | src-tauri/src/control.rs:1660-1695 | for any status text, mode, policy, action and surface: live iff an approval has its action and the agent waits for one, or nothing but an idle status decides; headless iff native routing takes a queued message or the agent is stopped; else the stated reason, and no unreachable arm |
| DeliveryRoutes.RouteIsUnique | src-tauri/src/control.rs:1660-1695 | that description fits one route only |
| DeliveryRoutes.ForProviderIff | src-tauri/src/delivery/native_session.rs:17-26 | a provider has a native protocol iff its text is one of the five names in any case, between any blanks |
| Delivery.DeliverToOne | src-tauri/src/control.rs:1628-1912 | one iteration, in terms of what the outside answers: the error, detail and failure for each route and answer, the transports asked in order, at most one crossing, and no transport asked after one that crossed |
| Delivery.DeliverOverLiveSurface | src-tauri/src/control.rs:1757-1812 | a live failure has no fallback |
| Delivery.DeliverWithoutLiveSurface | src-tauri/src/control.rs:1813-1912 | a native failure that crossed the boundary never reaches the headless fallback |
| Delivery.DeliverMessage | src-tauri/src/control.rs:1624-1931 | the whole call: each detail is what became of its target in target order; each listed target's provider boundary is crossed at most once, and in a target's own turn nothing is asked after a crossing; delivered plus failures equals the targets, Ok iff every target was delivered, an abort at the first lookup or persistence error |
| Delivery.ArmsNeverFallBack | src-tauri/src/control.rs:1742-1913 | a live call stands alone, and after a native call that crossed the boundary the headless transport is not asked |
| Delivery.CodexAvoidsNativeArmIffCanonical | src-tauri/src/control.rs:1813-1819 | an agent with the codex protocol, spelled in any case and between any blanks, avoids the native broker iff its provider is exactly "codex" |
| Delivery.CapitalisedCodexTakesNativeArm | src-tauri/src/control.rs:1814-1819 | a concrete provider text for which it does not |
| AgentWatch.AgentWatchState.PushRecord | src-tauri/src/state/agent_watch.rs:170-183 | appends with the next cursor, evicts by count and by output bytes, notifies, keeps the log valid |
| AgentWatch.AgentWatchState.TrimOutputRecords | src-tauri/src/state/agent_watch.rs:185-201 | equals removing the oldest output records until the limit holds |
| AgentWatch.AgentWatchState.TakeSnapshot | src-tauri/src/state/agent_watch.rs:84-137 | the snapshot after a cursor, or cursor_expired or an invalid cursor |
| AgentWatch.PushKeepsValid | src-tauri/src/state/agent_watch.rs:170-201 | cursors grow, retained records are true, and a record leaves only from the front or as output |
| AgentWatch.SnapshotIsComplete | src-tauri/src/state/agent_watch.rs:84-137 | a snapshot that does not expire shows every event and delivery pushed after the cursor, none twice |
| AgentWatch.ExpiryMeansLoss | src-tauri/src/state/agent_watch.rs:281-307 | an expired cursor means the next record is gone, and a lost event always expires the cursor |
| WatchRetention.PushEvictsOldestOnly | src-tauri/src/state/agent_watch.rs:170-183 | one push keeps the log within its count limit, adds the new record, and of the others that are not output takes exactly the oldest, if the log was full |
| WatchRetention.SnapshotWithoutCursorShowsAll | src-tauri/src/state/agent_watch.rs:84-137 | without a cursor a snapshot never fails and shows every retained event and delivery |
| WatchWait.NoLostWakeUp | src-tauri/src/control.rs:3268-3303 | while the waiter is parked a wake-up is pending or its last snapshot covered every push |
| WatchWait.SuccessHasWitness | src-tauri/src/control.rs:3277-3283 | success has a witness event after the baseline, shown in the returned snapshot |
| WatchWait.LookMissesNothing | src-tauri/src/control.rs:3270-3293 | a look succeeds iff a match was pushed after the baseline and the front of the log has not passed it, and reports a gap iff the front has; then the record after the baseline is gone |
| WatchWait.EvictedEventIsAGap | src-tauri/src/control.rs:3284-3289 | an evicted event after the baseline yields gap_detected |
| WatchWait.TimeoutMeansNoMatch | src-tauri/src/control.rs:3295-3302 | a timeout means the final snapshot held no match, and when the timer fires no match was pushed at all |
| WatchWait.UnanchoredWatchSeesNewEventsOnly | src-tauri/src/control.rs:3092-3127 | without a requested cursor only events pushed after the start count |
| WatchWait.MatchesIffWanted | src-tauri/src/control.rs:3305-3336 | a record matches iff it is a status event whose text normalises to the wanted one, an event of the wanted kind, or a delivery in the wanted state |
| WatchProgress.WaiterAdvances | src-tauri/src/control.rs:3254-3303 | a waiter that has not ended has a step to take unless it is parked, nothing was pushed since and there is time left |
| WatchProgress.WaiterStepsAreBounded | src-tauri/src/control.rs:3254-3303 | the waiter takes at most four steps, and four more for every push |
| WatchProgress.TimeoutIsNotEarly | src-tauri/src/control.rs:3295-3302 | a watch times out only after its time |
| WatchProgress.TimeoutIsNotLate | src-tauri/src/control.rs:3295-3302 | once the time is over the watch ends within four of its own steps |
| WatchProgress.WantedPushEndsWait | src-tauri/src/control.rs:3262-3303 | a push that a parked waiter waits for wakes it, and its next look ends with success, or with a gap iff the log could not hold everything since |
| WatchProgress.AnchoredWatchSeesOldEvents | src-tauri/src/control.rs:3092-3127 | a watch asked to start at a cursor finds what was pushed after it before the watch began |
| WatchOutput.OutputIsRetainedIffItFits | src-tauri/src/state/agent_watch.rs:170-201 | after any pushes and for any limits, output at or after the oldest record is retained iff the output pushed from it on fits the byte limit |
| WatchOutput.SnapshotOutputIsCompleteIffItFits | src-tauri/src/state/agent_watch.rs:84-137 | a snapshot that has not expired shows all output after its cursor iff that output fits the byte limit |
| WatchOutput.OutputCanVanishSilently | src-tauri/src/state/agent_watch.rs:185-201 | for any pushes within the count limit that begin with an event and any cursor, output that in total exceeds the byte limit is incomplete in a snapshot that has not expired |
| WatchOutput.SnapshotShowsTheEnd | src-tauri/src/state/agent_watch.rs:84-137 | what an unexpired snapshot shows is an end of the output after its cursor, with nothing missing in between |
| OutputWatch.OutputMatchesIff | src-tauri/src/control.rs:3317-3366 | an output condition holds iff the output, raw or without its controls, holds the token and not in echoes of the message alone |
| OutputWatch.LookMissesOnlyWhatDoesNotFit | src-tauri/src/control.rs:3317-3324 | while the output after the baseline fits the byte limit, an unexpired look holds iff the output condition, echo guard included, holds of everything pushed |
| OutputWatch.ShownTokenWasPushed | src-tauri/src/control.rs:3317-3324 | a token shown in raw output was pushed after the baseline |
| OutputWatch.TokenScrollsAway | src-tauri/src/control.rs:3317-3324 | a token pushed after the baseline and followed by more output than the limit is neither found nor reported as a gap |
| EchoText.SplitOfJoin | src-tauri/src/control.rs:3456-3460 | splitting at whitespace undoes joining words with spaces |
| EchoText.TrimsAreRedundant | src-tauri/src/control.rs:3456-3460 | the normal form depends only on the text after the prompt decoration |
| EchoText.DecorationIsDropped | src-tauri/src/control.rs:3456-3470 | prompt decoration in front of a line does not change its normal form |
| EchoText.NormalizationIsIdempotent | src-tauri/src/control.rs:3456-3460 | normalising twice is normalising once |
| EchoText.EchoLinesOfPrinted | src-tauri/src/control.rs:3448-3454 | reading printed plain lines gives their normal forms, through control stripping and line splitting |
| EchoScreen.ScreenReadsAsLines | src-tauri/src/control.rs:3448-3460 | the guard reads one line for each row that newline or carriage return ends and one for what follows, without control sequences, and keeps the normal forms of those of which something is left |
| EchoScreen.StrippedOfPieces | src-tauri/src/utils/pty_decode.rs:48-64 | control sequences up to their final byte vanish, and the text between them stays |
| EchoScreen.SplitOfSpaced | src-tauri/src/control.rs:3456-3460 | whatever blanks stand around and between them, the words are found |
| EchoGuard.OutputMatchIsPromptEchoOnly | src-tauri/src/control.rs:3338-3366 | the guard's loop: suppressed iff some normalised line holds the token and every such line echoes the message |
| EchoGuard.PhraseShrinks | src-tauri/src/control.rs:3417-3430 | a shared phrase with the token has one of every smaller length |
| EchoGuard.ScanIsMinimumScan | src-tauri/src/control.rs:3397-3430 | scanning all phrase lengths finds exactly what the minimum length finds |
| EchoGuard.BareTokenHasNoFragment | src-tauri/src/control.rs:3397-3430 | a line that is the bare token has no prompt fragment |
| EchoGuard.RedisplayedLineEchoesIff | src-tauri/src/control.rs:3368-3395 | when a normalised line of the message, shown again, counts as an echo |
| EchoGuard.VerbatimRedisplayIsSuppressedIff | src-tauri/src/control.rs:3338-3460 | a verbatim redisplay is suppressed iff message and one of its lines hold the token and no line is the bare token, up to the stated exceptions |
| EchoGuard.DecoratedRedisplayIsSuppressedIff | src-tauri/src/control.rs:3338-3460 | a redisplay behind prompt decoration is suppressed in the same cases |
| EchoReadings.SuppressedIffEchoesOnly | src-tauri/src/control.rs:3338-3366 | a match is suppressed iff the message holds the token and the output lines that hold it, of which there are some, all are echoes |
| EchoReadings.LineEchoesIff | src-tauri/src/control.rs:3368-3395 | a line echoes iff one of its readings (as it is, without origin, as JSON content, that without origin) is part of the message and not the bare token alone, or quotes a phrase of it |
| EchoReadings.FragmentIffPhrase | src-tauri/src/control.rs:3397-3430 | a text has a prompt fragment iff three consecutive words of the message, two of a message of two words, occur in it, one of them with the token |
| EchoReadings.PromptWordsAreCores | src-tauri/src/control.rs:3432-3441 | the prompt words are the words between blanks without the punctuation around them, empty ones left out |
| EchoReadings.StrippedIsWithoutOrigin | src-tauri/src/control.rs:3443-3447 | what is left of a line after "From ", a sender and the first colon and space, else the line |
| FileDrop.QuotedTextReadsBack | src/utils/fileDrop.ts:125-126 | inside single quotes the escaped text reads as the path itself |
| FileDrop.EscapedPathReadsBack | src/utils/fileDrop.ts:116-127 | one escaped path, safe or quoted, reads back as itself |
| FileDrop.PlainIffSafe | src/utils/fileDrop.ts:125 | in a POSIX shell a path is written as it is iff it consists of letters, digits and the listed marks |
| FileDrop.FormattedPathsReadBack | src/utils/fileDrop.ts:103-138 | a POSIX shell tokenises the formatted text as exactly the non-blank paths, drive letters translated |
| FileDrop.PathIsNamed | src/utils/fileDrop.ts:129-138 | a drive path is mounted under its lower-case letter where the shell mounts drives, with forward slashes, and every other path stays |
| FileDrop.DropReadsBack | src/utils/fileDrop.ts:103-138 | a POSIX shell reads one field for each dropped path with text, in order, and each is what the shell calls that path |
| FileDrop.DropEndsWithSpace | src/utils/fileDrop.ts:107-114 | whatever the shell, a drop without text writes nothing and any other ends with a space |
| FileDrop.FormattingIsInjective | src/utils/fileDrop.ts:103-138 | drops that are formatted alike are read alike |
| FileDrop.TranslationIsIdempotent | src/utils/fileDrop.ts:129-138 | a translated drive path is not translated again and holds no backslash |
| BuilderStore.Builder.LoadResponse | src/store/useBuilderStore.ts:38-51 | the loaded blueprint becomes blueprint and baseline under a new identity |
| BuilderStore.Builder.SaveRequest | src/store/useBuilderStore.ts:58-61 | what a save remembers is accepted and unedited at that moment |
| BuilderStore.Builder.SaveResponse | src/store/useBuilderStore.ts:62-75 | true only when the written value is current and has become the baseline; a response that is not accepted changes nothing |
| BuilderStore.Builder.SetBlueprint | src/store/useBuilderStore.ts:88-98 | an edit is dirty, and a new identity iff the id changes |
| BuilderStore.Builder.Discard | src/store/useBuilderStore.ts:99-109 | back to the baseline, clean, same identity |
| BuilderStore.Builder.Initialize | src/store/useBuilderStore.ts:77-87 | only an empty builder is initialised |
| BuilderStore.Builder.Reset | src/store/useBuilderStore.ts:111-123 | an empty builder under a new identity |
| BuilderStore.CleanMeansBaseline | src/store/useBuilderStore.ts:38-123 | in every run a store that is not dirty shows its baseline |
| BuilderStore.RevisionIdentifiesContent | src/store/useBuilderStore.ts:14-15 | an unchanged resource revision means nothing but the diagnostics changed |
| BuilderStore.CountersTrackHistory | src/store/useBuilderStore.ts:38-123 | what equal identity and edit revisions say about everything that happened in between |
| BuilderStore.ResponseIsAcceptedIffResourceKept | src/store/useBuilderStore.ts:62-66 | a save response is accepted iff the same automation stayed open under the same id at every step since the request, and otherwise changes nothing |
| BuilderStore.SaveSucceedsIffUntouched | src/store/useBuilderStore.ts:58-76 | a save returns true iff it was written, the automation stayed open and nobody edited or discarded since |
| BuilderStore.ObjectComparisonIsRedundant | src/store/useBuilderStore.ts:67-68 | comparing the blueprint objects adds nothing to comparing revisions |
| BuilderStore.LastResponseWins | src/store/useBuilderStore.ts:38-51 | the load response that arrives last decides which automation is open |
| BuilderStore.LastRequestIsShownIffAnsweredLast | src/store/useBuilderStore.ts:38-51 | the object that the last request's response brought is the baseline, and shown until an edit, iff no response to an earlier load, of the same automation or another, arrives after it; with a path of its own the open path says the same |
| BuilderStore.ValidationIsCurrentIffUntouched | src/store/useBuilderStore.ts:52-57 | the diagnostics of a validation belong to the shown revision iff the automation stayed open and nobody edited or discarded since the request; they are shown either way |
| BuilderStore.OlderLoadCanWin | src/store/useBuilderStore.ts:38-51 | a run in which the automation requested first ends up open |
| BuilderStore.OlderValidationCanWin | src/store/useBuilderStore.ts:52-57 | a run in which the diagnostics of one blueprint are shown beside another |
| BuilderHistory.FieldsFollowEvents | src/store/useBuilderStore.ts:38-123 | which events set path, blueprint, baseline, dirty flag and diagnostics, a save response only if its automation stayed open |
| BuilderHistory.DirtyIffLastDirties | src/store/useBuilderStore.ts:38-123 | the store is dirty iff the last event that cleans or dirties it dirties it: an edit, or a save not written or overtaken |
| QueueMerge.MergeIsPointwise | src-tauri/src/utils/queue.rs:90-160 | the backend's merge decides every id from its own base, incoming and latest entries |
| QueueMerge.MergeKeepsIdsDistinct | src-tauri/src/utils/queue.rs:90-160 | distinct ids stay distinct |
| QueueMerge.SecondSaveKeepsDismissalsIff | src/store/useQueueStore.ts:101-113 | saving the same dismissals twice keeps all of them iff their marker texts differ |
| QueueMerge.ColonFreeTextsDiffer | src/store/useQueueStore.ts:105 | automation ids without a colon never share a marker text |
| QueueMerge.ColonTextsCollide | src/store/useQueueStore.ts:105 | without the backend's check of ids two runs could share one |
| QueueIds.SafeComponentHasNoColon | crates/wardian-core/src/paths.rs:151-160 | an id that the backend accepts has no colon, also where only its trimmed form is checked |
| QueueIds.IdTextsDiffer | src/store/useQueueStore.ts:101-276 | no two ids of queue items have the same text: markers, completions, approvals, notifications, notices and random ids |
| QueueIds.RunKeepsSafeIds | crates/wardian-core/src/paths.rs:144-160 | if the first file names accepted runs only, and the backend announces and lists only such, so do store, chain, load and file after every step |
| QueueIds.DismissedTextsDiffer | src/store/useQueueStore.ts:101-113 | so at no time do two dismissed runs share a marker text |
| QueueStore.Queue.PersistItems | src/store/useQueueStore.ts:115-144 | chains one save of the legacy items, the read acknowledgements and the dismissal markers |
| QueueStore.Queue.PersistDismissedAgentCompletions | src/store/useQueueStore.ts:146-153 | chains a dismissal iff there is something to dismiss |
| QueueStore.Queue.AddAutomationCompletion | src/store/useQueueStore.ts:557-601 | adds and saves a completion unless its run is shown or dismissed, and removes the run's approval cards |
| QueueStore.Queue.DismissItem | src/store/useQueueStore.ts:603-625 | removes, remembers and saves, unless the item is protected |
| QueueStore.Queue.ClearRead | src/store/useQueueStore.ts:666-692 | the same for every read item that may be cleared |
| QueueStore.Queue.MarkRead | src/store/useQueueStore.ts:638-649 | marks and acknowledges one item |
| QueueStore.Queue.MarkAllRead | src/store/useQueueStore.ts:651-664 | marks and acknowledges every unprotected item |
| QueueStore.Queue.ApplyPersistedAgentCompletion | src/store/useQueueStore.ts:496-512 | shows a notice once without saving it |
| QueueStore.Queue.StartLoad | src/store/useQueueStore.ts:325-331 | one load at a time, which waits for the saves chained so far |
| QueueStore.Queue.SavesDone | src/store/useQueueStore.ts:330-333 | the first revision check |
| QueueStore.Queue.ListsArrive | src/store/useQueueStore.ts:334-378 | the second revision check and the commit |
| QueueProtocol.RunCallKeepsSettled | src-tauri/src/commands/watchlist.rs:778-793 | running a chained call does not change what the file settles to |
| QueueProtocol.NoticesOnlyGrow | src-tauri/src/utils/queue.rs:113-131 | a provider notice on disk stays, and stays read and dismissed |
| QueueInvariant.SavingSettles | src/store/useQueueStore.ts:115-144 | a chained save makes the store and the settled file agree, whatever the chain held before |
| QueueSteps.MutationKeepsInv | src/store/useQueueStore.ts:557-692 | every saving mutation keeps the agreement |
| QueueLoad.CommitEstablishesInv | src/store/useQueueStore.ts:334-377 | a committed load establishes the agreement by itself |
| QueueLoad.StepKeepsInv | src/store/useQueueStore.ts:325-692 | every step of store, chain, load and backend keeps it |
| QueueTheorems.NoLocalChangeIsLost | src/store/useQueueStore.ts:325-392 | from any committed load on, a committed load agrees with every mutation issued before its commit on every unexpired saved item and its read flag, on acknowledgements, fresh dismissal markers and notices; an overtaken load changes nothing |
| QueueTheorems.OneCompletionPerRun | src/store/useQueueStore.ts:343-377 | from any committed load on, each automation run has at most one completion, and none while it is dismissed |
| QueueMemory.DiscardedRunStaysGone | src/store/useQueueStore.ts:557-692 | a dismissed or cleared run does not reappear through events, loads or saves for seven days, for all runs with ids the backend accepts |
| QueueMemory.UnsharedRunStaysGone | src/store/useQueueStore.ts:557-692 | the same of the store alone, whatever the ids, while no other dismissed run shares the marker text |
| QueueMemory.ColonFreeRunsHaveNoTwins | src/store/useQueueStore.ts:101-113 | which holds when the automation ids have no colon |
| QueueMemory.AcknowledgementStays | src/store/useQueueStore.ts:638-664 | a notification that was marked read stays acknowledged, through every load and save, for seven days |
| QueueShown.CommittedLoadShows | src/store/useQueueStore.ts:334-378 | a committed load shows at every id exactly what file and lists say, a listed update read iff a fresh acknowledgement is on disk and an approval request iff it awaits no reply, and remembers the fresh acknowledgements and dismissals |
| QueueShown.ReadUpdateIsShownRead | src/store/useQueueStore.ts:195-197 | an update marked read is shown read by every load that commits within seven days |
| QueueShown.PageShows | src/store/useQueueStore.ts:394-425 | a further page shows its notifications in the same way, by the acknowledgements it was asked under, and leaves every other item alone |
| QueueActions.ActionShows | src/store/useQueueStore.ts:496-692 | which items every action takes away, changes and brings, in terms of the items' fields |
| QueueActions.DecisionsSurvive | src/store/useQueueStore.ts:603-692 | what awaits a decision survives dismissal, clearing and marking all as read |
| QueueActions.ActionRemembers | src/store/useQueueStore.ts:557-692 | which notifications every action acknowledges and which runs it dismisses |
| QueueActions.ActionChains | src/store/useQueueStore.ts:115-153 | a mutation chains one save of what is shown and remembered then, after the dismissal of the notices that leave, and nothing else |
| QueueActions.SaveSends | src/store/useQueueStore.ts:115-144 | what a save sends at every id |
| QueueActions.LoadCommitsIffUndisturbed | src/store/useQueueStore.ts:325-378 | a load commits iff no local action changed the store since it began; otherwise it leaves the store as it is |
| QueueFile.StepMakesFile | src-tauri/src/utils/queue.rs:90-160 | what every step makes of every record of the queue file: the merge of a save, a dismissal of notices, a notice of the backend, and nothing else |
| QueueFile.CommittedLoadShowsNotices | src/store/useQueueStore.ts:334-338 | a committed load shows the notices it read that are younger than seven days and not dismissed, as the file had them |
| QueueMemory.DismissalsAreSaved | src/store/useQueueStore.ts:115-144 | for all runs with ids the backend accepts, each dismissed run has its marker on disk once the chained calls have run |
| QueueClash.DismissalIsSavedIffLast | src/store/useQueueStore.ts:101-144 | right after a save a dismissed run has a record on disk iff it is the last dismissed one with its marker text |
| QueueClash.UnrecordedRunIsShown | src/store/useQueueStore.ts:355-366 | a listed run without a record on disk is shown by the load that commits |
| QueueClash.ClashingRunReturns | src/store/useQueueStore.ts:101-144 | why the ids must be checked: the store alone, given any two runs with one marker text, can show the first again by the next load after its dismissal |
| ArtifactService.ValidateRequest | src-tauri/src/artifact_service.rs:379-414 | exactly when a request is valid, and exactly when it is refused with each of the three codes |
| ArtifactService.Capture | src-tauri/src/artifact_service.rs:124-154 | returns the bytes of one stable try, never of several; gives up at the first unstable try after the timeout, within timeout / 40 ms + 1 tries |
| ArtifactService.Service.FindActiveThread | crates/wardian-core/src/artifacts/store.rs:230-245 | finds an active thread of the session and path iff there is one |
| ArtifactService.Service.Present | src-tauri/src/artifact_service.rs:186-352 | one call alone: exactly when and with which code it stores nothing, which thread gets the version on each branch and what that thread then holds, when it reports success, and whether an event goes out |
| ArtifactService.StepKeepsInv | src-tauri/src/artifact_service.rs:186-352 | every interleaved stage of any number of calls keeps the store sound |
| ArtifactService.VersionsComeFromTheirThread | src-tauri/src/artifact_service.rs:223-282 | every version of a thread came from the thread's own origin session and canonical path |
| ArtifactService.EventsNameStoredVersions | src-tauri/src/artifact_service.rs:304-351 | every event names a stored version, and every success was announced |
| ArtifactService.FaultsEndCalls | src-tauri/src/artifact_service.rs:223-290 | in every run the calls that end with a failed index write number the index faults met |
| ArtifactService.VersionsAreAccounted | src-tauri/src/artifact_service.rs:186-352 | stored versions number the Ok and ui_delivery_failed calls plus the index faults of the run, so the calls alone iff the run met no index fault |
| ArtifactService.FaultOnCreateIsReachable | crates/wardian-core/src/artifacts/store.rs:87-121 | for every valid request, a run that stores a version and reports none: the index write fails when the thread is created |
| ArtifactService.FaultOnAppendIsReachable | crates/wardian-core/src/artifacts/store.rs:123-158 | and a run in which it fails when the second call appends |
| ArtifactCalls.StepsFollowTables | src-tauri/src/artifact_service.rs:186-352 | in every run, what each step does to its call, to the threads and to the events |
| ArtifactCalls.NoFailureMeansPresented | src-tauri/src/artifact_service.rs:186-352 | a proper call for which nothing fails can only end by reporting success, however it interleaves with others |
| ArtifactCalls.NotStoredLeavesNothing | src-tauri/src/artifact_service.rs:186-352 | a call that ends without storing has no version in any thread |
| TopologyAudit.AuditLog.Append | src-tauri/src/topology_audit.rs:48-67 | succeeds iff nothing fails on the way, and then the log ends with the line; keeps archive and log a contiguous suffix of everything written, the archive at or above the limit and both below the limit plus one record, under every failure |
| TopologyAudit.AuditLog.RotateIfNeeded | src-tauri/src/topology_audit.rs:69-82 | moves the log to the archive iff it has reached the limit; loses the archive only when the rename fails after the removal |

## Left out

- Sockets, named pipes, Tauri wiring, request dispatch, PTY writes, provider process launch and serialisation: plumbing without a property of its own.
- OutputWatch.LookMissesOnlyWhatDoesNotFit: one look, without the transcript text and the tail limit; removing terminal controls is a parameter. The waiter's runs (`WatchWait`) have event conditions.
- AgentWatch.AgentWatchState.TakeSnapshot: the transcript messages, the tail limit and the control-stripped form of the output are absent.
- Ready-prompt heuristics, React components, settings normalisers, listener generations and the topology debounce: pattern lists and field clamps, or small next to the core.
- `replay_settled_claude_completions` (src-tauri/src/lib.rs:848) runs between the passes under the held claims. It reads the roster and writes finished turns to the queue file, and takes no gate and no slot.
- Outside holders of lifecycle gates are assumed to hold one gate at a time and to give it back; the order in which waiting tasks get a slot or a gate is not modelled, so progress is stated as an enabled step and a bound on the number of steps.
- Delivery.DeliverMessage: target resolution, the first lookup of all targets and the wording of errors are parameters or absent; that a transport crosses the boundary at most once in a call and reports it truthfully is its contract here.
- `record_headless_message_exchange` and the conversation archive: their currency check and append are not under one lock.
- AgentWatch.AgentWatchState.PushRecord: the u64 saturation of the sequence counter and the hexadecimal text of cursors are not modelled.
- EchoGuard.OutputMatchIsPromptEchoOnly: the JSON reading of a line is a parameter, and candidates are neither sorted nor deduplicated, which no search for any match can tell.
- FileDrop.FormattedPathsReadBack: fish, PowerShell and cmd read other grammars; their quoting is in the printer without a reader.
- Queue behaviour before the first committed load and failed saves, which the store swallows: outside what the code promises. Writers of the queue file other than the desktop and the backend's own notices are not part of the protocol, only of the merge.
- QueueStore.Queue.DismissItem: the notices put back after a failed dismissal call are absent, because backend calls succeed here.
- QueueStore.Queue.ClearRead: the same.
- Queue items are keyed by id, so display order is not modelled; the deduplication of action-needed cards, summaries and agent buffers are absent.
- QueueStore.Queue.ListsArrive: automation runs listed with an empty automation or run id have no key and are not deduplicated by the code; the protocol lists runs with both ids.
- Disk contents behind the builder store: the code relates the blueprint to `baseline` only.
- ArtifactService.Service.Present: titles, descriptions, addressed comments of a version, review status and blobs are absent; a failed manifest write is taken to leave the old manifest.
