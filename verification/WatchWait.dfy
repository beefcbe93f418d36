/** The blocking watch (src-tauri/src/control.rs, wait_for_watch_condition): one
    waiter, the log it watches, and whoever pushes to the log. */
module WatchWait {
  import opened Common
  import opened AgentWatch

  /** The conditions that look at events. */
  datatype Condition =
    | Status(status: string)
    | EventKind(kind: string)
    | DeliveryState(state: string)

  datatype Watch = Watch(
    agentId: string,
    since: Cursor,
    condition: Condition,
    timeout: nat,
    maxRecords: nat,
    maxOutputBytes: nat,
    normalize: string -> string)

  datatype Outcome =
    | Success(snapshot: Snapshot)
    | GapDetected
    | Invalid
    | TimedOut(snapshot: Snapshot)

  /** `ticket` is the number of notify_waiters calls at which the wait for the
      next one was created. */
  datatype Pc =
    | Begin
    | Armed(ticket: nat)
    | Looked(ticket: nat, snapshot: Snapshot)
    | Parked(ticket: nat, snapshot: Snapshot)
    | Done(outcome: Outcome)

  datatype State = State(log: Log, notifications: nat, elapsed: nat, pc: Pc)

  datatype Action =
    | Arm
    | Look
    | CheckClock
    | Wake
    | TimerFires
    | Push(kind: RecordKind)
    | Tick

  /** watch_condition_matches for one event. */
  predicate Matches(w: Watch, kind: RecordKind)
    requires IsEvent(kind)
  {
    match w.condition
    case Status(status) =>
      EventName(kind) == "status" && kind.payload.status.Some? && w.normalize(kind.payload.status.value) == status
    case EventKind(name) => EventName(kind) == name
    case DeliveryState(state) => EventName(kind) == "delivery" && kind.payload.deliveryState == Some(state)
  }

  predicate EventMatches(w: Watch, e: WatchEvent) {
    IsEvent(e.kind) && Matches(w, e.kind)
  }

  predicate AnyMatches(w: Watch, events: seq<WatchEvent>) {
    exists e | e in events :: EventMatches(w, e)
  }

  /** watch_start_cursor: without a requested cursor a condition starts at the
      latest one, so nothing retained can satisfy it. */
  function StartCursor(log: Log, agentId: string, requested: Option<Cursor>): Cursor {
    if requested.Some? then requested.value else Cursor(agentId, |log.history|)
  }

  ghost predicate Enabled(w: Watch, s: State, a: Action) {
    match a
    case Arm => s.pc.Begin?
    case Look => s.pc.Armed?
    case CheckClock => s.pc.Looked?
    // The timer polls the notification before it looks at the clock.
    case Wake => s.pc.Parked? && s.notifications != s.pc.ticket
    case TimerFires => s.pc.Parked? && s.notifications == s.pc.ticket && s.elapsed >= w.timeout
    case Push(_) => true
    case Tick => true
  }

  ghost function Apply(w: Watch, s: State, a: Action): State
    requires Enabled(w, s, a)
  {
    match a
    case Arm => s.(pc := Armed(s.notifications))
    case Look =>
      (match SnapshotSince(s.log, w.agentId, Some(w.since))
       case Ok(snapshot) =>
         s.(pc := if AnyMatches(w, snapshot.events) then Done(Success(snapshot)) else Looked(s.pc.ticket, snapshot))
       case Err(CursorExpired(_)) => s.(pc := Done(GapDetected))
       case Err(InvalidCursor) => s.(pc := Done(Invalid)))
    case CheckClock =>
      s.(pc := if s.elapsed >= w.timeout then Done(TimedOut(s.pc.snapshot)) else Parked(s.pc.ticket, s.pc.snapshot))
    case Wake => s.(pc := Begin)
    case TimerFires => s.(pc := Done(TimedOut(s.pc.snapshot)))
    // Pushing and notifying happen in one critical section of the log's mutex.
    case Push(kind) =>
      s.(log := Pushed(s.log, kind, w.maxRecords, w.maxOutputBytes), notifications := s.notifications + 1)
    case Tick => s.(elapsed := s.elapsed + 1)
  }

  ghost predicate Initial(w: Watch, s: State) {
    && w.maxRecords >= 1
    && ValidLog(s.log)
    && s.notifications == |s.log.history|
    && s.pc.Begin?
  }

  ghost predicate Runs(w: Watch, s: State, actions: seq<Action>, t: State)
    decreases |actions|
  {
    if actions == [] then s == t
    else Enabled(w, s, actions[0]) && Runs(w, Apply(w, s, actions[0]), actions[1..], t)
  }

  // ----- what every step keeps -----

  ghost predicate Baseline(w: Watch) {
    w.since.Cursor? && w.since.agentId == w.agentId
  }

  /** The snapshot shows exactly the events after the baseline among the first
      `cursor` ever pushed. */
  ghost predicate Covers(w: Watch, log: Log, snapshot: Snapshot) {
    && Baseline(w)
    && snapshot.cursor <= |log.history|
    && snapshot.events == EventsOf(log.history[..snapshot.cursor], w.since.sequence)
  }

  ghost predicate Unmatched(w: Watch, log: Log, snapshot: Snapshot) {
    Covers(w, log, snapshot) && !AnyMatches(w, snapshot.events)
  }

  ghost predicate Inv(w: Watch, s: State) {
    && w.maxRecords >= 1
    && ValidLog(s.log)
    && s.notifications == |s.log.history|
    && match s.pc
       case Begin => true
       case Armed(ticket) => ticket <= s.notifications
       case Looked(ticket, snapshot) => Unmatched(w, s.log, snapshot) && ticket <= snapshot.cursor
       case Parked(ticket, snapshot) => Unmatched(w, s.log, snapshot) && ticket <= snapshot.cursor
       case Done(Success(snapshot)) => Covers(w, s.log, snapshot) && AnyMatches(w, snapshot.events)
       case Done(GapDetected) => Baseline(w) && GapAt(s.log, w.since.sequence)
       case Done(Invalid) => !Baseline(w)
       case Done(TimedOut(snapshot)) => Unmatched(w, s.log, snapshot)
  }

  /** The record right after the baseline was pushed and is gone. */
  ghost predicate GapAt(log: Log, since: nat) {
    since < |log.history| && !Retains(log.records, since + 1)
  }

  lemma CoverageSurvivesPush(w: Watch, log: Log, kind: RecordKind, snapshot: Snapshot)
    requires Covers(w, log, snapshot)
    ensures Covers(w, Pushed(log, kind, w.maxRecords, w.maxOutputBytes), snapshot)
  {
    assert (log.history + [kind])[..snapshot.cursor] == log.history[..snapshot.cursor];
  }

  /** A record that is gone never comes back. */
  lemma GapSurvivesPush(w: Watch, log: Log, kind: RecordKind, since: nat)
    requires ValidLog(log) && GapAt(log, since)
    ensures GapAt(Pushed(log, kind, w.maxRecords, w.maxOutputBytes), since)
  {
    hide TrimOutput, ValidLog;
    var grown := log.records + [Record(|log.history| + 1, kind)];
    TrimInventsNothing(Newest(grown, w.maxRecords), w.maxOutputBytes);
    var records := Pushed(log, kind, w.maxRecords, w.maxOutputBytes).records;
    forall i | 0 <= i < |records|
      ensures records[i].sequence != since + 1
    {
      assert records[i] in Newest(grown, w.maxRecords);
      var k :| 0 <= k < |grown| && grown[k] == records[i];
      assert k < |log.records| ==> log.records[k].sequence != since + 1;
    }
  }

  lemma {:induction false} TrimInventsNothing(records: seq<Record>, maxOutputBytes: nat)
    ensures forall r :: r in TrimOutput(records, maxOutputBytes) ==> r in records
    decreases |records|
  {
    var first := FirstOutput(records);
    if OutputBytes(records) > maxOutputBytes && first.Some? {
      TrimInventsNothing(Without(records, first.value), maxOutputBytes);
    }
  }

  lemma LookKeepsInv(w: Watch, s: State)
    requires Inv(w, s) && s.pc.Armed?
    ensures Inv(w, Apply(w, s, Look))
  {
    hide AnyMatches, EventsIn, EventsOf;
    if Baseline(w) {
      ExpiryMeansLoss(s.log, w.since.sequence);
      if Oldest(s.log) <= w.since.sequence + 1 {
        SnapshotIsComplete(s.log, w.since.sequence);
        assert s.log.history[..|s.log.history|] == s.log.history;
      }
    }
  }

  lemma PushKeepsInv(w: Watch, s: State, kind: RecordKind)
    requires Inv(w, s)
    ensures Inv(w, Apply(w, s, Push(kind)))
  {
    hide ValidLog, Covers, AnyMatches;
    PushKeepsValid(s.log, kind, w.maxRecords, w.maxOutputBytes);
    match s.pc
    case Looked(_, snapshot) => CoverageSurvivesPush(w, s.log, kind, snapshot);
    case Parked(_, snapshot) => CoverageSurvivesPush(w, s.log, kind, snapshot);
    case Done(Success(snapshot)) => CoverageSurvivesPush(w, s.log, kind, snapshot);
    case Done(TimedOut(snapshot)) => CoverageSurvivesPush(w, s.log, kind, snapshot);
    case Done(GapDetected) => GapSurvivesPush(w, s.log, kind, w.since.sequence);
    case _ =>
  }

  lemma StepKeepsInv(w: Watch, s: State, a: Action)
    requires Inv(w, s) && Enabled(w, s, a)
    ensures Inv(w, Apply(w, s, a))
  {
    match a
    case Look => LookKeepsInv(w, s);
    case Push(kind) => PushKeepsInv(w, s, kind);
    case _ => hide ValidLog, Covers, AnyMatches, GapAt;
  }

  lemma {:induction false} RunKeepsInv(w: Watch, s: State, actions: seq<Action>, t: State)
    requires Inv(w, s) && Runs(w, s, actions, t)
    ensures Inv(w, t)
    decreases |actions|
  {
    hide Inv, Apply, Enabled;
    if actions != [] {
      StepKeepsInv(w, s, actions[0]);
      RunKeepsInv(w, Apply(w, s, actions[0]), actions[1..], t);
    }
  }

  lemma Reachable(w: Watch, start: State, actions: seq<Action>, s: State)
    requires Initial(w, start) && Runs(w, start, actions, s)
    ensures Inv(w, s)
  {
    RunKeepsInv(w, start, actions, s);
  }

  // ----- the promises -----

  /** The record is one the watch waits for: a status event whose text normalises to
      the wanted status, an event of the wanted kind (deliveries are of kind "delivery"),
      or a delivery in the wanted state. */
  ghost predicate IsWanted(w: Watch, record: RecordKind) {
    match w.condition
    case Status(wanted) =>
      record.Event? && record.kind == "status"
      && exists text :: record.payload.status == Some(text) && w.normalize(text) == wanted
    case EventKind(name) =>
      (record.Event? && record.kind == name) || (record.Delivery? && name == "delivery")
    case DeliveryState(state) =>
      || (record.Delivery? && record.payload.deliveryState == Some(state))
      || (record.Event? && record.kind == "delivery" && record.payload.deliveryState == Some(state))
  }

  lemma MatchesIffWanted(w: Watch, record: RecordKind)
    ensures IsEvent(record) && Matches(w, record) <==> IsWanted(w, record)
  {}

  /** A record the watch waits for was pushed after the baseline. */
  ghost predicate Witness(w: Watch, log: Log, q: nat) {
    && Baseline(w)
    && w.since.sequence < q <= |log.history|
    && IsWanted(w, log.history[q - 1])
  }

  lemma MatchIsWitnessed(w: Watch, log: Log, snapshot: Snapshot)
    requires Covers(w, log, snapshot)
    ensures AnyMatches(w, snapshot.events) <==> exists q: nat :: q <= snapshot.cursor && Witness(w, log, q)
  {
    hide IsEvent, EventsOf, Matches, IsWanted;
    forall record
      ensures IsEvent(record) && Matches(w, record) <==> IsWanted(w, record)
    {
      MatchesIffWanted(w, record);
    }
    var seen := log.history[..snapshot.cursor];
    EventsOfMeaning(seen, w.since.sequence);
    if AnyMatches(w, snapshot.events) {
      var e :| e in snapshot.events && EventMatches(w, e);
      assert seen[e.sequence - 1] == log.history[e.sequence - 1];
      assert Witness(w, log, e.sequence);
    }
    if q: nat :| q <= snapshot.cursor && Witness(w, log, q) {
      var e := WatchEvent(q, log.history[q - 1]);
      assert seen[q - 1] == log.history[q - 1];
      assert e in snapshot.events && EventMatches(w, e);
    }
  }

  /** No lost wake-up: while the waiter is parked, either its last snapshot showed
      everything pushed so far, or a wake-up is pending. */
  lemma NoLostWakeUp(w: Watch, start: State, actions: seq<Action>, s: State)
    requires Initial(w, start) && Runs(w, start, actions, s)
    requires s.pc.Parked?
    ensures Enabled(w, s, Wake) || s.pc.snapshot.cursor == |s.log.history|
  {
    Reachable(w, start, actions, s);
  }

  /** No stale success: a success has a witness event after the baseline, and the
      snapshot it returns shows it. */
  lemma SuccessHasWitness(w: Watch, start: State, actions: seq<Action>, s: State) returns (q: nat)
    requires Initial(w, start) && Runs(w, start, actions, s)
    requires s.pc.Done? && s.pc.outcome.Success?
    ensures Witness(w, s.log, q)
    ensures WatchEvent(q, s.log.history[q - 1]) in s.pc.outcome.snapshot.events
  {
    Reachable(w, start, actions, s);
    var snapshot := s.pc.outcome.snapshot;
    EventsOfMeaning(s.log.history[..snapshot.cursor], w.since.sequence);
    var e :| e in snapshot.events && EventMatches(w, e);
    MatchesIffWanted(w, e.kind);
    q := e.sequence;
  }

  /** No silent gap: a look at the log ends the wait whenever a matching event was
      pushed after the baseline, with success if nothing after the baseline was
      evicted from the front and with gap_detected otherwise; and gap_detected is
      reported only when the record after the baseline really is gone. */
  lemma LookMissesNothing(w: Watch, start: State, actions: seq<Action>, s: State)
    requires Initial(w, start) && Runs(w, start, actions, s)
    requires s.pc.Armed? && Baseline(w)
    ensures var pc := Apply(w, s, Look).pc;
            && (pc == Done(GapDetected) <==> w.since.sequence + 1 < Oldest(s.log))
            && (pc == Done(GapDetected) ==> GapAt(s.log, w.since.sequence))
            && (pc.Done? && pc.outcome.Success? <==>
                  w.since.sequence + 1 >= Oldest(s.log) && exists q: nat :: Witness(w, s.log, q))
            && (pc.Looked? <==>
                  w.since.sequence + 1 >= Oldest(s.log) && !exists q: nat :: Witness(w, s.log, q))
  {
    hide AnyMatches, IsWanted;
    Reachable(w, start, actions, s);
    LookKeepsInv(w, s);
    var log := s.log;
    if w.since.sequence + 1 >= Oldest(log) {
      SnapshotIsComplete(log, w.since.sequence);
      var snapshot := Snapshot(|log.history|, EventsIn(log.records, w.since.sequence), OutputIn(log.records, w.since.sequence));
      assert log.history[..|log.history|] == log.history;
      MatchIsWitnessed(w, log, snapshot);
      if q: nat :| Witness(w, log, q) {
        assert q <= snapshot.cursor && Witness(w, log, q);
      }
    }
  }

  /** An evicted event always shows up as a gap, even one that would not match. */
  lemma EvictedEventIsAGap(w: Watch, start: State, actions: seq<Action>, s: State, q: nat)
    requires Initial(w, start) && Runs(w, start, actions, s)
    requires s.pc.Armed? && Baseline(w)
    requires w.since.sequence < q <= |s.log.history| && IsEvent(s.log.history[q - 1]) && !Retains(s.log.records, q)
    ensures Apply(w, s, Look).pc == Done(GapDetected)
  {
    Reachable(w, start, actions, s);
    ExpiryMeansLoss(s.log, w.since.sequence);
  }

  /** A timeout means the final snapshot held no match; and when the timer fires on
      a parked waiter, no matching event has been pushed at all. */
  lemma TimeoutMeansNoMatch(w: Watch, start: State, actions: seq<Action>, s: State)
    requires Initial(w, start) && Runs(w, start, actions, s)
    ensures s.pc.Done? && s.pc.outcome.TimedOut? ==>
      forall q: nat :: q <= s.pc.outcome.snapshot.cursor ==> !Witness(w, s.log, q)
    ensures Enabled(w, s, TimerFires) ==> forall q: nat :: !Witness(w, s.log, q)
  {
    Reachable(w, start, actions, s);
    if s.pc.Done? && s.pc.outcome.TimedOut? {
      MatchIsWitnessed(w, s.log, s.pc.outcome.snapshot);
    }
    if Enabled(w, s, TimerFires) {
      MatchIsWitnessed(w, s.log, s.pc.snapshot);
      assert s.pc.snapshot.cursor == |s.log.history|;
    }
  }

  /** A watch without a requested cursor succeeds on new events only: its witness
      was pushed after the watch began. */
  lemma UnanchoredWatchSeesNewEventsOnly(w: Watch, start: State, actions: seq<Action>, s: State) returns (q: nat)
    requires Initial(w, start) && Runs(w, start, actions, s)
    requires w.since == StartCursor(start.log, w.agentId, None)
    requires s.pc.Done? && s.pc.outcome.Success?
    ensures |start.log.history| < q <= |s.log.history| && Witness(w, s.log, q)
  {
    q := SuccessHasWitness(w, start, actions, s);
  }
}
