/** The bounded log behind `agent watch` (src-tauri/src/state/agent_watch.rs). */
module AgentWatch {
  import opened Common

  /** The two payload fields a watch condition looks at, and the rest. */
  datatype Payload = Payload(status: Option<string>, deliveryState: Option<string>, rest: string)

  datatype RecordKind =
    | Event(kind: string, payload: Payload)
    | Delivery(payload: Payload)
    | Output(bytes: string)
    | Transcript(text: string)

  datatype Record = Record(sequence: nat, kind: RecordKind)

  /** A cursor text: `<agent>:<sequence in hex>`, or something else. */
  datatype Cursor = Cursor(agentId: string, sequence: nat) | MalformedCursor

  /** An event of a snapshot; a delivery shows up as an event of kind "delivery". */
  datatype WatchEvent = WatchEvent(sequence: nat, kind: RecordKind)

  /** `output` is the retained output before any tail limit. */
  datatype Snapshot = Snapshot(cursor: nat, events: seq<WatchEvent>, output: string)

  datatype SnapshotError = CursorExpired(oldest: nat) | InvalidCursor

  predicate IsEvent(kind: RecordKind) {
    kind.Event? || kind.Delivery?
  }

  /** The kind under which a snapshot lists the event. */
  function EventName(kind: RecordKind): string
    requires IsEvent(kind)
  {
    if kind.Event? then kind.kind else "delivery"
  }

  /** The state of the log. `history` is everything ever pushed, in order; the
      record with sequence q is history[q - 1]. */
  datatype Log = Log(history: seq<RecordKind>, records: seq<Record>)

  function OldestOf(records: seq<Record>, next: nat): nat {
    if records == [] then next else records[0].sequence
  }

  function Oldest(log: Log): nat {
    OldestOf(log.records, |log.history|)
  }

  ghost predicate Sorted(records: seq<Record>) {
    forall i, j :: 0 <= i < j < |records| ==> records[i].sequence < records[j].sequence
  }

  ghost predicate Retains(records: seq<Record>, q: nat) {
    exists i :: 0 <= i < |records| && records[i].sequence == q
  }

  /** What is retained is part of the history. */
  ghost predicate Truthful(log: Log) {
    forall i :: 0 <= i < |log.records| ==>
      && 1 <= log.records[i].sequence <= |log.history|
      && log.history[log.records[i].sequence - 1] == log.records[i].kind
  }

  /** The q-th record ever pushed was not output. */
  predicate MustStay(history: seq<RecordKind>, q: nat) {
    1 <= q <= |history| && !history[q - 1].Output?
  }

  /** From the oldest record on, only output may be missing. */
  ghost predicate Complete(log: Log) {
    forall q: nat :: MustStay(log.history, q) && Oldest(log) <= q ==> Retains(log.records, q)
  }

  ghost predicate ValidLog(log: Log) {
    Sorted(log.records) && Truthful(log) && Complete(log)
  }

  // ----- pushing -----

  function OutputSize(record: Record): nat {
    if record.kind.Output? then |record.kind.bytes| else 0
  }

  function OutputBytes(records: seq<Record>): nat {
    if records == [] then 0 else OutputBytes(records[..|records| - 1]) + OutputSize(records[|records| - 1])
  }

  function FirstOutput(records: seq<Record>): (r: Option<nat>)
    ensures r.None? <==> forall i :: 0 <= i < |records| ==> !records[i].kind.Output?
    ensures r.Some? ==> r.value < |records| && records[r.value].kind.Output?
    ensures r.Some? ==> forall i :: 0 <= i < r.value ==> !records[i].kind.Output?
  {
    if records == [] then None
    else if records[0].kind.Output? then Some(0)
    else
      var rest := FirstOutput(records[1..]);
      if rest.Some? then Some(rest.value + 1) else None
  }

  function Without(records: seq<Record>, i: nat): (r: seq<Record>)
    requires i < |records|
    ensures |r| == |records| - 1
    ensures forall k :: 0 <= k < |r| ==> r[k] == if k < i then records[k] else records[k + 1]
  {
    records[..i] + records[i + 1..]
  }

  /** Old output goes first until the retained output fits. */
  function TrimOutput(records: seq<Record>, maxOutputBytes: nat): seq<Record>
    decreases |records|
  {
    var first := FirstOutput(records);
    if OutputBytes(records) <= maxOutputBytes || first.None? then records
    else TrimOutput(Without(records, first.value), maxOutputBytes)
  }

  function Newest(records: seq<Record>, maxRecords: nat): seq<Record> {
    if |records| <= maxRecords then records else records[|records| - maxRecords..]
  }

  function Pushed(log: Log, kind: RecordKind, maxRecords: nat, maxOutputBytes: nat): Log {
    Log(log.history + [kind],
        TrimOutput(Newest(log.records + [Record(|log.history| + 1, kind)], maxRecords), maxOutputBytes))
  }

  /** The log after these pushes. */
  function LogOf(history: seq<RecordKind>, maxRecords: nat, maxOutputBytes: nat): (r: Log)
    ensures r.history == history
  {
    if history == [] then Log([], [])
    else Pushed(LogOf(history[..|history| - 1], maxRecords, maxOutputBytes), history[|history| - 1], maxRecords, maxOutputBytes)
  }

  lemma PushStepsLog(history: seq<RecordKind>, kind: RecordKind, maxRecords: nat, maxOutputBytes: nat)
    ensures LogOf(history + [kind], maxRecords, maxOutputBytes)
         == Pushed(LogOf(history, maxRecords, maxOutputBytes), kind, maxRecords, maxOutputBytes)
  {
    hide Pushed;
    assert (history + [kind])[..|history|] == history;
  }

  lemma {:induction false} OutputBytesWithout(records: seq<Record>, i: nat)
    requires i < |records|
    ensures OutputBytes(Without(records, i)) + OutputSize(records[i]) == OutputBytes(records)
  {
    var shorter := Without(records, i);
    if i == |records| - 1 {
      assert shorter == records[..i];
    } else {
      OutputBytesWithout(records[..|records| - 1], i);
      assert shorter[..|shorter| - 1] == Without(records[..|records| - 1], i);
    }
  }

  lemma AppendKeepsValid(log: Log, kind: RecordKind)
    requires ValidLog(log)
    ensures ValidLog(Log(log.history + [kind], log.records + [Record(|log.history| + 1, kind)]))
  {
    var next := |log.history| + 1;
    var grown := Log(log.history + [kind], log.records + [Record(next, kind)]);
    forall q: nat | MustStay(grown.history, q) && Oldest(grown) <= q
      ensures Retains(grown.records, q)
    {
      if q < next {
        assert MustStay(log.history, q);
        var i := RetainedPlace(log, q);
        assert grown.records[i].sequence == q;
      } else {
        assert grown.records[|log.records|].sequence == q;
      }
    }
  }

  /** Evicting from the front moves the oldest record, so the rest stays complete. */
  lemma EvictionKeepsValid(log: Log, cut: nat)
    requires ValidLog(log) && cut < |log.records|
    ensures ValidLog(log.(records := log.records[cut..]))
  {
    var kept := log.(records := log.records[cut..]);
    forall q: nat | MustStay(log.history, q) && Oldest(kept) <= q
      ensures Retains(kept.records, q)
    {
      var i := RetainedPlace(log, q);
      assert kept.records[i - cut].sequence == q;
    }
  }

  /** Removing an output record loses nothing but output. */
  lemma RemovalKeepsValid(log: Log, i: nat)
    requires ValidLog(log) && i < |log.records| && log.records[i].kind.Output?
    ensures ValidLog(log.(records := Without(log.records, i)))
  {
    hide Complete, MustStay;
    var kept := log.(records := Without(log.records, i));
    assert Sorted(kept.records) && Oldest(log) <= Oldest(kept);
    assert Complete(kept) by {
      RemovalKeepsComplete(log, i);
    }
  }

  lemma RemovalKeepsComplete(log: Log, i: nat)
    requires ValidLog(log) && i < |log.records| && log.records[i].kind.Output?
    requires Oldest(log) <= Oldest(log.(records := Without(log.records, i)))
    ensures Complete(log.(records := Without(log.records, i)))
  {
    hide Sorted;
    var kept := log.(records := Without(log.records, i));
    forall q: nat | MustStay(log.history, q) && Oldest(kept) <= q
      ensures Retains(kept.records, q)
    {
      var k := RetainedPlace(log, q);
      if k < i {
        assert kept.records[k].sequence == q;
      } else {
        assert kept.records[k - 1].sequence == q;
      }
    }
  }

  lemma RetainedPlace(log: Log, q: nat) returns (k: nat)
    requires Truthful(log) && Complete(log)
    requires MustStay(log.history, q) && Oldest(log) <= q
    ensures k < |log.records| && log.records[k].sequence == q && !log.records[k].kind.Output?
  {
    assert Retains(log.records, q);
    k :| 0 <= k < |log.records| && log.records[k].sequence == q;
  }

  lemma {:induction false} TrimKeepsValid(log: Log, maxOutputBytes: nat)
    requires ValidLog(log)
    ensures ValidLog(log.(records := TrimOutput(log.records, maxOutputBytes)))
    decreases |log.records|
  {
    hide ValidLog;
    var first := FirstOutput(log.records);
    if OutputBytes(log.records) > maxOutputBytes && first.Some? {
      RemovalKeepsValid(log, first.value);
      TrimKeepsValid(log.(records := Without(log.records, first.value)), maxOutputBytes);
    }
  }

  /** Pushing keeps the log valid, whatever is evicted or trimmed. */
  lemma PushKeepsValid(log: Log, kind: RecordKind, maxRecords: nat, maxOutputBytes: nat)
    requires ValidLog(log) && maxRecords >= 1
    ensures ValidLog(Pushed(log, kind, maxRecords, maxOutputBytes))
  {
    hide ValidLog, TrimOutput;
    AppendKeepsValid(log, kind);
    var grown := Log(log.history + [kind], log.records + [Record(|log.history| + 1, kind)]);
    if |grown.records| > maxRecords {
      EvictionKeepsValid(grown, |grown.records| - maxRecords);
    }
    TrimKeepsValid(grown.(records := Newest(grown.records, maxRecords)), maxOutputBytes);
  }

  lemma {:induction false} LogOfIsValid(history: seq<RecordKind>, maxRecords: nat, maxOutputBytes: nat)
    requires maxRecords >= 1
    ensures ValidLog(LogOf(history, maxRecords, maxOutputBytes))
  {
    hide ValidLog, Pushed;
    if history == [] {
      EmptyIsValid();
    } else {
      LogOfIsValid(history[..|history| - 1], maxRecords, maxOutputBytes);
      PushKeepsValid(LogOf(history[..|history| - 1], maxRecords, maxOutputBytes), history[|history| - 1],
                     maxRecords, maxOutputBytes);
    }
  }

  lemma EmptyIsValid()
    ensures ValidLog(Log([], []))
  {}

  // ----- snapshots -----

  function ParseSince(log: Log, agentId: string, since: Option<Cursor>): Result<nat, SnapshotError> {
    match since
    case None => Ok(if Oldest(log) > 0 then Oldest(log) - 1 else 0)
    case Some(MalformedCursor) => Err(InvalidCursor)
    case Some(Cursor(agent, sequence)) => if agent == agentId then Ok(sequence) else Err(InvalidCursor)
  }

  function EventsIn(records: seq<Record>, since: nat): seq<WatchEvent> {
    if records == [] then []
    else
      var last := records[|records| - 1];
      EventsIn(records[..|records| - 1], since)
      + if last.sequence > since && IsEvent(last.kind) then [WatchEvent(last.sequence, last.kind)] else []
  }

  /** Every event ever pushed after `since`, in order. */
  ghost function EventsOf(history: seq<RecordKind>, since: nat): seq<WatchEvent> {
    if history == [] then []
    else
      var last := history[|history| - 1];
      EventsOf(history[..|history| - 1], since)
      + if |history| > since && IsEvent(last) then [WatchEvent(|history|, last)] else []
  }

  function OutputIn(records: seq<Record>, since: nat): string {
    if records == [] then ""
    else
      var last := records[|records| - 1];
      OutputIn(records[..|records| - 1], since)
      + if last.sequence > since && last.kind.Output? then last.kind.bytes else ""
  }

  /** All output ever pushed after `since`. */
  ghost function OutputOf(history: seq<RecordKind>, since: nat): string {
    if history == [] then ""
    else
      var last := history[|history| - 1];
      OutputOf(history[..|history| - 1], since)
      + if |history| > since && last.Output? then last.bytes else ""
  }

  function SnapshotSince(log: Log, agentId: string, since: Option<Cursor>): Result<Snapshot, SnapshotError> {
    match ParseSince(log, agentId, since)
    case Err(e) => Err(e)
    case Ok(sequence) =>
      if sequence + 1 < Oldest(log) then Err(CursorExpired(Oldest(log)))
      else Ok(Snapshot(|log.history|, EventsIn(log.records, sequence), OutputIn(log.records, sequence)))
  }

  ghost predicate EventsSorted(events: seq<WatchEvent>) {
    forall i, j :: 0 <= i < j < |events| ==> events[i].sequence < events[j].sequence
  }

  lemma {:induction false} EventsInMeaning(records: seq<Record>, since: nat)
    requires Sorted(records)
    ensures EventsSorted(EventsIn(records, since))
    ensures forall e :: e in EventsIn(records, since) <==>
      e.sequence > since && IsEvent(e.kind) && Record(e.sequence, e.kind) in records
  {
    if records != [] {
      var front, last := records[..|records| - 1], records[|records| - 1];
      EventsInMeaning(front, since);
      assert records == front + [last];
    }
  }

  /** The event was the q-th push, after the baseline. */
  predicate PushedAfter(history: seq<RecordKind>, since: nat, e: WatchEvent) {
    since < e.sequence <= |history| && IsEvent(e.kind) && history[e.sequence - 1] == e.kind
  }

  lemma {:induction false} EventsOfMeaning(history: seq<RecordKind>, since: nat)
    ensures EventsSorted(EventsOf(history, since))
    ensures forall e :: e in EventsOf(history, since) <==> PushedAfter(history, since, e)
  {
    hide PushedAfter, IsEvent;
    if history == [] {
      forall e
        ensures !PushedAfter(history, since, e)
      {
        NothingPushed(since, e);
      }
    } else {
      var front := history[..|history| - 1];
      EventsOfMeaning(front, since);
      forall e
        ensures e in EventsOf(history, since) <==> PushedAfter(history, since, e)
        ensures PushedAfter(front, since, e) ==> e.sequence < |history|
      {
        OneMorePushed(history, since, e);
      }
    }
  }

  lemma NothingPushed(since: nat, e: WatchEvent)
    ensures !PushedAfter([], since, e)
  {}

  lemma OneMorePushed(history: seq<RecordKind>, since: nat, e: WatchEvent)
    requires history != []
    ensures var front, last := history[..|history| - 1], history[|history| - 1];
            && (PushedAfter(front, since, e) ==> e.sequence < |history|)
            && (PushedAfter(history, since, e) <==>
                PushedAfter(front, since, e)
                || (e == WatchEvent(|history|, last) && |history| > since && IsEvent(last)))
  {}

  lemma {:induction false} SortedEventsAreUnique(xs: seq<WatchEvent>, ys: seq<WatchEvent>)
    requires EventsSorted(xs) && EventsSorted(ys)
    requires forall e :: e in xs <==> e in ys
    ensures xs == ys
  {
    hide EventsSorted;
    assert |xs| > 0 ==> xs[0] in ys;
    assert |ys| > 0 ==> ys[0] in xs;
    if xs != [] {
      var x, y := xs[|xs| - 1], ys[|ys| - 1];
      var xs', ys' := xs[..|xs| - 1], ys[..|ys| - 1];
      LastEvent(xs);
      LastEvent(ys);
      assert x in ys && y in xs;
      SortedEventsAreUnique(xs', ys');
      assert xs == xs' + [x] && ys == ys' + [y];
    }
  }

  lemma LastEvent(events: seq<WatchEvent>)
    requires EventsSorted(events) && events != []
    ensures var last, front := events[|events| - 1], events[..|events| - 1];
            && EventsSorted(front)
            && (forall e :: e in events ==> e.sequence < last.sequence || e == last)
            && (forall e :: e in front <==> e in events && e != last)
  {
    var last, front := events[|events| - 1], events[..|events| - 1];
    assert events == front + [last];
    forall e | e in front
      ensures e.sequence < last.sequence
    {}
  }

  /** A snapshot that succeeds shows every event and delivery pushed after the
      baseline, none twice and none missing. */
  lemma SnapshotIsComplete(log: Log, since: nat)
    requires ValidLog(log) && Oldest(log) <= since + 1
    ensures EventsIn(log.records, since) == EventsOf(log.history, since)
  {
    hide EventsIn, EventsOf;
    EventsInMeaning(log.records, since);
    EventsOfMeaning(log.history, since);
    forall e | e in EventsOf(log.history, since)
      ensures e in EventsIn(log.records, since)
    {
      var k := RetainedPlace(log, e.sequence);
      assert log.records[k] == Record(e.sequence, e.kind);
    }
    forall e | e in EventsIn(log.records, since)
      ensures e in EventsOf(log.history, since)
    {
      assert Record(e.sequence, e.kind) in log.records;
    }
    SortedEventsAreUnique(EventsIn(log.records, since), EventsOf(log.history, since));
  }

  /** A cursor expires iff the record right after it was dropped together with
      everything before; in particular a lost event always expires the cursor. */
  lemma ExpiryMeansLoss(log: Log, since: nat)
    requires ValidLog(log)
    ensures since + 1 < Oldest(log) ==> since < |log.history| && !Retains(log.records, since + 1)
    ensures (exists q :: since < q <= |log.history| && IsEvent(log.history[q - 1]) && !Retains(log.records, q))
            ==> since + 1 < Oldest(log)
  {
    if q :| since < q <= |log.history| && IsEvent(log.history[q - 1]) && !Retains(log.records, q) {
      assert MustStay(log.history, q);
    }
  }

  /** AgentWatchState. `notifications` counts the notify_waiters calls. */
  class AgentWatchState {
    const agentId: string
    const maxRecords: nat
    const maxOutputBytes: nat
    var nextSequence: nat
    var records: seq<Record>
    var notifications: nat
    ghost var history: seq<RecordKind>

    ghost predicate Valid()
      reads this
    {
      && maxRecords >= 1 && maxOutputBytes >= 1
      && nextSequence == |history|
      && notifications == |history|
      && View() == LogOf(history, maxRecords, maxOutputBytes)
      && ValidLog(View())
    }

    ghost function View(): Log
      reads this
    {
      Log(history, records)
    }

    constructor (agentId: string, maxRecords: nat, maxOutputBytes: nat)
      ensures Valid() && View() == Log([], [])
      ensures this.agentId == agentId
    {
      this.agentId := agentId;
      this.maxRecords := if maxRecords >= 1 then maxRecords else 1;
      this.maxOutputBytes := if maxOutputBytes >= 1 then maxOutputBytes else 1;
      nextSequence, records, notifications, history := 0, [], 0, [];
    }

    method LatestCursor() returns (cursor: Cursor)
      requires Valid()
      ensures cursor == Cursor(agentId, |history|)
    {
      cursor := Cursor(agentId, nextSequence);
    }

    method PushRecord(kind: RecordKind)
      requires Valid()
      modifies this
      ensures Valid()
      ensures View() == Pushed(old(View()), kind, maxRecords, maxOutputBytes)
      ensures notifications == old(notifications) + 1
    {
      hide ValidLog, TrimOutput, Sorted, LogOf;
      ghost var before := View();
      PushKeepsValid(View(), kind, maxRecords, maxOutputBytes);
      nextSequence := nextSequence + 1;
      history := history + [kind];
      records := records + [Record(nextSequence, kind)];
      ghost var grown := records;
      while |records| > maxRecords
        invariant records == grown || |records| >= maxRecords
        invariant |records| <= |grown| && records == grown[|grown| - |records|..]
        invariant nextSequence == old(nextSequence) + 1 && history == old(history) + [kind]
        invariant notifications == old(notifications)
        decreases |records|
      {
        records := records[1..];
      }
      assert records == Newest(grown, maxRecords);
      TrimOutputRecords();
      notifications := notifications + 1;
      PushStepsLog(before.history, kind, maxRecords, maxOutputBytes);
    }

    method TrimOutputRecords()
      modifies this`records
      ensures records == TrimOutput(old(records), maxOutputBytes)
    {
      var outputBytes := RetainedOutputBytes();
      while outputBytes > maxOutputBytes
        invariant outputBytes == OutputBytes(records)
        invariant TrimOutput(records, maxOutputBytes) == TrimOutput(old(records), maxOutputBytes)
        decreases |records|
      {
        var index := FirstOutput(records);
        if index.None? {
          break;
        }
        OutputBytesWithout(records, index.value);
        outputBytes := outputBytes - |records[index.value].kind.bytes|;
        records := Without(records, index.value);
      }
    }

    method RetainedOutputBytes() returns (total: nat)
      ensures total == OutputBytes(records)
    {
      total := 0;
      var i := 0;
      while i < |records|
        invariant i <= |records|
        invariant total == OutputBytes(records[..i])
      {
        total := total + OutputSize(records[i]);
        assert records[..i + 1][..i] == records[..i];
        i := i + 1;
      }
      assert records[..i] == records;
    }

    method TakeSnapshot(since: Option<Cursor>) returns (r: Result<Snapshot, SnapshotError>)
      requires Valid()
      ensures r == SnapshotSince(View(), agentId, since)
      ensures r.Ok? && since.Some? ==> r.value.events == EventsOf(history, since.value.sequence)
    {
      var parsed := ParseSince(Log([], []), agentId, since);
      if since.None? {
        parsed := Ok(if OldestOf(records, nextSequence) > 0 then OldestOf(records, nextSequence) - 1 else 0);
      }
      if parsed.Err? {
        return Err(parsed.error);
      }
      if parsed.value + 1 < OldestOf(records, nextSequence) {
        return Err(CursorExpired(OldestOf(records, nextSequence)));
      }
      SnapshotIsComplete(View(), parsed.value);
      r := Ok(Snapshot(nextSequence, EventsIn(records, parsed.value), OutputIn(records, parsed.value)));
    }
  }
}
