/** What the watch log keeps by count, and what a snapshot without a cursor shows
    (src-tauri/src/state/agent_watch.rs). */
module WatchRetention {
  import opened Common
  import opened AgentWatch

  ghost predicate HasRecord(records: seq<Record>, r: Record) {
    exists i :: 0 <= i < |records| && records[i] == r
  }

  /** Trimming by size takes output only, and adds nothing. */
  lemma {:induction false} TrimTakesOutputOnly(records: seq<Record>, limit: nat, r: Record)
    ensures |TrimOutput(records, limit)| <= |records|
    ensures HasRecord(TrimOutput(records, limit), r) ==> HasRecord(records, r)
    ensures HasRecord(records, r) && !r.kind.Output? ==> HasRecord(TrimOutput(records, limit), r)
    decreases |records|
  {
    hide HasRecord;
    var first := FirstOutput(records);
    if OutputBytes(records) > limit && first.Some? {
      TrimTakesOutputOnly(Without(records, first.value), limit, r);
      WithoutTakesOne(records, first.value, r);
    }
  }

  lemma WithoutTakesOne(records: seq<Record>, i: nat, r: Record)
    requires i < |records|
    ensures HasRecord(Without(records, i), r) ==> HasRecord(records, r)
    ensures HasRecord(records, r) && r.kind != records[i].kind ==> HasRecord(Without(records, i), r)
  {
    var rest := Without(records, i);
    if k :| 0 <= k < |rest| && rest[k] == r {
      assert records[if k < i then k else k + 1] == r;
    }
    if HasRecord(records, r) && r.kind != records[i].kind {
      var k :| 0 <= k < |records| && records[k] == r;
      assert rest[if k < i then k else k - 1] == r;
    }
  }

  /** One push, while the log holds at most `maxRecords`: it holds at most that many
      afterwards, the new record is among them unless it is output, and of the others
      that are not output exactly the oldest record leaves, if the log was full. */
  lemma PushEvictsOldestOnly(log: Log, kind: RecordKind, maxRecords: nat, limit: nat, r: Record)
    requires ValidLog(log) && 1 <= maxRecords && |log.records| <= maxRecords
    ensures var t := Pushed(log, kind, maxRecords, limit);
            && |t.records| <= maxRecords && t.history == log.history + [kind]
            && (!r.kind.Output? ==>
                  (HasRecord(t.records, r) <==>
                   || r == Record(|log.history| + 1, kind)
                   || (HasRecord(log.records, r) && !(|log.records| == maxRecords && r == log.records[0]))))
  {
    hide HasRecord, TrimOutput;
    var added := Record(|log.history| + 1, kind);
    var grown := log.records + [added];
    var newest := Newest(grown, maxRecords);
    TrimTakesOutputOnly(newest, limit, r);
    NewestIs(log, added, maxRecords, r);
  }

  lemma NewestIs(log: Log, added: Record, maxRecords: nat, r: Record)
    requires ValidLog(log) && 1 <= maxRecords && |log.records| <= maxRecords
    requires added.sequence == |log.history| + 1
    ensures var newest := Newest(log.records + [added], maxRecords);
            && |newest| <= maxRecords
            && (HasRecord(newest, r) <==>
                r == added || (HasRecord(log.records, r) && !(|log.records| == maxRecords && r == log.records[0])))
  {
    hide Complete, HasRecord;
    var kept := if |log.records| == maxRecords then log.records[1..] else log.records;
    var newest := Newest(log.records + [added], maxRecords);
    assert newest == kept + [added];
    LastIsAdded(kept, added, r);
    if |log.records| == maxRecords {
      FirstLeaves(log.records, r);
    }
  }

  lemma LastIsAdded(records: seq<Record>, added: Record, r: Record)
    ensures HasRecord(records + [added], r) <==> HasRecord(records, r) || r == added
  {
    var more := records + [added];
    if i :| 0 <= i < |records| && records[i] == r {
      assert more[i] == r;
    }
    assert more[|records|] == added;
  }

  lemma FirstLeaves(records: seq<Record>, r: Record)
    requires records != [] && Sorted(records)
    ensures HasRecord(records[1..], r) <==> HasRecord(records, r) && r != records[0]
  {
    if i :| 0 <= i < |records| && records[i] == r && i > 0 {
      assert records[1..][i - 1] == r && records[0].sequence < records[i].sequence;
    }
    if i :| 0 <= i < |records[1..]| && records[1..][i] == r {
      assert records[i + 1] == r && records[0].sequence < records[i + 1].sequence;
    }
  }

  /** The log never holds more records than it may. */
  lemma {:induction false} LogIsBounded(history: seq<RecordKind>, maxRecords: nat, limit: nat)
    requires maxRecords >= 1
    ensures |LogOf(history, maxRecords, limit).records| <= maxRecords
  {
    hide Pushed;
    if history != [] {
      var front := history[..|history| - 1];
      LogIsBounded(front, maxRecords, limit);
      LogOfIsValid(front, maxRecords, limit);
      PushEvictsOldestOnly(LogOf(front, maxRecords, limit), history[|history| - 1], maxRecords, limit, Record(0, history[0]));
    }
  }

  ghost predicate IsShownEvent(records: seq<Record>, e: WatchEvent) {
    (e.kind.Event? || e.kind.Delivery?) && HasRecord(records, Record(e.sequence, e.kind))
  }

  /** Without a cursor a snapshot never fails and shows every retained event and
      delivery; a cursor of another agent or none that can be read is refused. */
  lemma SnapshotWithoutCursorShowsAll(log: Log, agentId: string, e: WatchEvent)
    requires ValidLog(log)
    ensures var r := SnapshotSince(log, agentId, None);
            r.Ok? && r.value.cursor == |log.history| && (e in r.value.events <==> IsShownEvent(log.records, e))
  {
    var since := if Oldest(log) > 0 then Oldest(log) - 1 else 0;
    EventsInMeaning(log.records, since);
    hide Complete, EventsIn, OutputIn;
    if IsShownEvent(log.records, e) {
      var i :| 0 <= i < |log.records| && log.records[i] == Record(e.sequence, e.kind);
      assert Oldest(log) <= e.sequence;
    }
  }

  lemma ForeignCursorIsRefused(log: Log, agentId: string, cursor: Cursor)
    ensures SnapshotSince(log, agentId, Some(cursor)) == Err(InvalidCursor)
       <==> !(cursor.Cursor? && cursor.agentId == agentId)
  {
    hide EventsIn, OutputIn;
  }
}
