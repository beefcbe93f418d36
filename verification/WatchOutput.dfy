/** When the watch log keeps output (src-tauri/src/state/agent_watch.rs). Output is
    trimmed from the old end by size, wherever it stands between other records, so
    its loss need not show up as an expired cursor. */
module WatchOutput {
  import opened Common
  import opened AgentWatch

  predicate IsOutput(history: seq<RecordKind>, q: nat) {
    1 <= q <= |history| && history[q - 1].Output?
  }

  /** Lost output was followed, itself included, by more than the limit. */
  ghost predicate LostDidNotFit(log: Log, limit: nat) {
    forall q: nat :: IsOutput(log.history, q) && Oldest(log) <= q && !Retains(log.records, q) ==>
      |OutputOf(log.history, q - 1)| > limit
  }

  /** Retained output is a suffix of all output. */
  ghost predicate KeepsSuffix(log: Log) {
    forall p: nat, q: nat :: IsOutput(log.history, p) && IsOutput(log.history, q) && p <= q && Retains(log.records, p) ==>
      Retains(log.records, q)
  }

  ghost predicate OutputKept(log: Log, limit: nat) {
    LostDidNotFit(log, limit) && KeepsSuffix(log)
  }

  // ----- sizes -----

  lemma {:induction false} OutputGrows(history: seq<RecordKind>, kind: RecordKind, since: nat)
    ensures |OutputOf(history, since)| <= |OutputOf(history + [kind], since)|
  {
    assert (history + [kind])[..|history|] == history;
  }

  /** Retained output after `since` is no more than all output after `since`. */
  lemma {:induction false} RetainedIsPart(history: seq<RecordKind>, records: seq<Record>, since: nat)
    requires Sorted(records) && Truthful(Log(history, records))
    requires forall i :: 0 <= i < |records| && records[i].kind.Output? ==> records[i].sequence > since
    ensures OutputBytes(records) <= |OutputOf(history, since)|
    decreases |history|
  {
    if records != [] {
      var last := records[|records| - 1];
      var front := history[..|history| - 1];
      if last.sequence == |history| {
        RetainedIsPart(front, records[..|records| - 1], since);
      } else {
        RetainedIsPart(front, records, since);
      }
    }
  }

  lemma {:induction false} OutputInIsPart(records: seq<Record>, since: nat)
    ensures |OutputIn(records, since)| <= OutputBytes(records)
  {
    if records != [] {
      OutputInIsPart(records[..|records| - 1], since);
    }
  }

  ghost predicate AllRetained(history: seq<RecordKind>, records: seq<Record>, since: nat) {
    forall q: nat :: IsOutput(history, q) && q > since ==> Retains(records, q)
  }

  function EarlierThan(records: seq<Record>, n: nat): seq<Record> {
    if records != [] && records[|records| - 1].sequence == n then records[..|records| - 1] else records
  }

  lemma OnePushLess(history: seq<RecordKind>, records: seq<Record>)
    requires Sorted(records) && Truthful(Log(history, records)) && history != []
    ensures var rest := EarlierThan(records, |history|);
            && Sorted(rest) && Truthful(Log(history[..|history| - 1], rest))
            && (rest != records ==> records[|records| - 1].kind == history[|history| - 1])
  {
    var rest, front := EarlierThan(records, |history|), history[..|history| - 1];
    forall i | 0 <= i < |rest|
      ensures 1 <= rest[i].sequence <= |front| && front[rest[i].sequence - 1] == rest[i].kind
    {
      assert rest[i] == records[i];
      assert i < |records| - 1 ==> records[i].sequence < records[|records| - 1].sequence;
    }
  }

  lemma NewestIsLast(history: seq<RecordKind>, records: seq<Record>)
    requires Sorted(records) && Truthful(Log(history, records)) && Retains(records, |history|)
    ensures records != [] && records[|records| - 1].sequence == |history|
  {
    var i :| 0 <= i < |records| && records[i].sequence == |history|;
    hide Retains;
    SortedToLast(records, i);
  }

  lemma SortedToLast(records: seq<Record>, i: nat)
    requires Sorted(records) && i < |records|
    ensures records[i].sequence <= records[|records| - 1].sequence
  {}

  lemma EarlierAreRetained(history: seq<RecordKind>, records: seq<Record>, since: nat)
    requires AllRetained(history, records, since) && history != []
    ensures AllRetained(history[..|history| - 1], EarlierThan(records, |history|), since)
    ensures IsOutput(history, |history|) && |history| > since ==> Retains(records, |history|)
  {
    var front, rest := history[..|history| - 1], EarlierThan(records, |history|);
    forall q: nat | IsOutput(front, q) && q > since
      ensures Retains(rest, q)
    {
      assert IsOutput(history, q);
      var i :| 0 <= i < |records| && records[i].sequence == q;
      assert rest[i].sequence == q;
    }
  }

  /** If all output after `since` is retained, the records give it back. */
  lemma {:induction false} RetainedIsAll(history: seq<RecordKind>, records: seq<Record>, since: nat)
    requires Sorted(records) && Truthful(Log(history, records)) && AllRetained(history, records, since)
    ensures OutputIn(records, since) == OutputOf(history, since)
    decreases |history|
  {
    if history != [] {
      OnePushLess(history, records);
      EarlierAreRetained(history, records, since);
      if IsOutput(history, |history|) && |history| > since {
        NewestIsLast(history, records);
      }
      hide Sorted, Truthful, AllRetained, Retains;
      RetainedIsAll(history[..|history| - 1], EarlierThan(records, |history|), since);
    }
  }

  // ----- what pushes keep -----

  lemma AppendKeepsOutput(log: Log, kind: RecordKind, limit: nat)
    requires ValidLog(log) && LostDidNotFit(log, limit) && KeepsSuffix(log)
    ensures var grown := Log(log.history + [kind], log.records + [Record(|log.history| + 1, kind)]);
            LostDidNotFit(grown, limit) && KeepsSuffix(grown)
  {
    var n := |log.history| + 1;
    var grown := Log(log.history + [kind], log.records + [Record(n, kind)]);
    assert grown.records[|log.records|].sequence == n;
    forall q: nat | q < n
      ensures Retains(grown.records, q) <==> Retains(log.records, q)
      ensures IsOutput(grown.history, q) <==> IsOutput(log.history, q)
    {
      if i :| 0 <= i < |log.records| && log.records[i].sequence == q {
        assert grown.records[i].sequence == q;
      }
    }
    forall q: nat | IsOutput(grown.history, q) && Oldest(grown) <= q && !Retains(grown.records, q)
      ensures |OutputOf(grown.history, q - 1)| > limit
    {
      OutputGrows(log.history, kind, q - 1);
    }
  }

  lemma EvictionKeepsOutput(log: Log, cut: nat, limit: nat)
    requires ValidLog(log) && LostDidNotFit(log, limit) && KeepsSuffix(log) && cut < |log.records|
    ensures LostDidNotFit(log.(records := log.records[cut..]), limit)
    ensures KeepsSuffix(log.(records := log.records[cut..]))
  {
    var kept := log.(records := log.records[cut..]);
    forall q: nat | Oldest(kept) <= q
      ensures Retains(kept.records, q) <==> Retains(log.records, q)
    {
      if i :| 0 <= i < |log.records| && log.records[i].sequence == q {
        assert kept.records[i - cut].sequence == q;
      }
      if i :| 0 <= i < |kept.records| && kept.records[i].sequence == q {
        assert log.records[i + cut].sequence == q;
      }
    }
    forall q: nat | Retains(kept.records, q)
      ensures Oldest(kept) <= q
    {}
  }

  lemma RemovalIs(log: Log, i: nat, q: nat)
    requires ValidLog(log) && i < |log.records|
    ensures Retains(Without(log.records, i), q) <==> Retains(log.records, q) && q != log.records[i].sequence
  {
    var kept := Without(log.records, i);
    if k :| 0 <= k < |log.records| && log.records[k].sequence == q && k != i {
      assert kept[if k < i then k else k - 1].sequence == q;
    }
    if k :| 0 <= k < |kept| && kept[k].sequence == q {
      assert log.records[if k < i then k else k + 1].sequence == q;
    }
  }

  /** Removing the first output of too much output. */
  lemma RemovalKeepsOutput(log: Log, i: nat, limit: nat)
    requires ValidLog(log) && OutputKept(log, limit)
    requires FirstOutput(log.records) == Some(i) && OutputBytes(log.records) > limit
    ensures OutputKept(log.(records := Without(log.records, i)), limit)
  {
    hide OutputOf, OutputBytes, OutputKept, Retains, Without;
    var kept := log.(records := Without(log.records, i));
    var lost := log.records[i].sequence;
    OldestAfterRemoval(log, i);
    FirstOutputIsOldest(log, i);
    RetainedIsPart(log.history, log.records, lost - 1);
    hide ValidLog, Oldest, FirstOutput;
    forall q: nat | IsOutput(log.history, q) && Oldest(kept) <= q && !Retains(kept.records, q)
      ensures |OutputOf(log.history, q - 1)| > limit
    {
      RemovalIs(log, i, q);
      if q != lost {
        LostIsTooMuch(log, limit, q);
      }
    }
    forall p: nat, q: nat
        | IsOutput(log.history, p) && IsOutput(log.history, q) && p <= q && Retains(kept.records, p)
      ensures Retains(kept.records, q)
    {
      RemovalIs(log, i, p);
      RemovalIs(log, i, q);
      RetainedStartsSuffix(log, limit, p);
    }
    OutputKeptIs(kept, limit);
  }

  lemma OutputKeptIs(log: Log, limit: nat)
    ensures OutputKept(log, limit) <==> LostDidNotFit(log, limit) && KeepsSuffix(log)
  {}

  lemma OldestAfterRemoval(log: Log, i: nat)
    requires ValidLog(log) && i < |log.records|
    ensures Oldest(log) <= Oldest(log.(records := Without(log.records, i)))
  {
    hide Complete;
  }

  lemma FirstOutputIsOldest(log: Log, i: nat)
    requires ValidLog(log) && FirstOutput(log.records) == Some(i)
    ensures forall k :: 0 <= k < |log.records| && log.records[k].kind.Output? ==>
              log.records[k].sequence >= log.records[i].sequence
    ensures forall q: nat :: IsOutput(log.history, q) && Retains(log.records, q) ==> q >= log.records[i].sequence
  {
    hide Complete;
  }

  lemma {:induction false} TrimKeepsOutput(log: Log, limit: nat)
    requires ValidLog(log) && OutputKept(log, limit)
    ensures OutputKept(log.(records := TrimOutput(log.records, limit)), limit)
    ensures OutputBytes(TrimOutput(log.records, limit)) <= limit
    decreases |log.records|
  {
    hide ValidLog, LostDidNotFit, KeepsSuffix;
    var first := FirstOutput(log.records);
    if OutputBytes(log.records) > limit {
      if first.Some? {
        RemovalKeepsValid(log, first.value);
        RemovalKeepsOutput(log, first.value, limit);
        TrimKeepsOutput(log.(records := Without(log.records, first.value)), limit);
      } else {
        NoOutputIsEmpty(log.records);
      }
    }
  }

  lemma {:induction false} NoOutputIsEmpty(records: seq<Record>)
    requires forall i :: 0 <= i < |records| ==> !records[i].kind.Output?
    ensures OutputBytes(records) == 0
  {
    if records != [] {
      NoOutputIsEmpty(records[..|records| - 1]);
    }
  }

  lemma PushKeepsOutput(log: Log, kind: RecordKind, maxRecords: nat, limit: nat)
    requires ValidLog(log) && OutputKept(log, limit) && maxRecords >= 1
    ensures OutputKept(Pushed(log, kind, maxRecords, limit), limit)
    ensures OutputBytes(Pushed(log, kind, maxRecords, limit).records) <= limit
  {
    hide ValidLog, TrimOutput, LostDidNotFit, KeepsSuffix, OutputBytes, Newest;
    NewestIs(log.records + [Record(|log.history| + 1, kind)], maxRecords);
    AppendKeepsOutput(log, kind, limit);
    AppendKeepsValid(log, kind);
    var grown := Log(log.history + [kind], log.records + [Record(|log.history| + 1, kind)]);
    if |grown.records| > maxRecords {
      EvictionKeepsOutput(grown, |grown.records| - maxRecords, limit);
      EvictionKeepsValid(grown, |grown.records| - maxRecords);
    }
    TrimKeepsOutput(grown.(records := Newest(grown.records, maxRecords)), limit);
  }

  lemma NewestIs(records: seq<Record>, maxRecords: nat)
    ensures Newest(records, maxRecords) == if |records| <= maxRecords then records else records[|records| - maxRecords..]
  {}

  lemma {:induction false} PushesKeepOutput(history: seq<RecordKind>, maxRecords: nat, limit: nat)
    requires maxRecords >= 1
    ensures var log := LogOf(history, maxRecords, limit);
            Sorted(log.records) && Truthful(log) && OutputKept(log, limit) && OutputBytes(log.records) <= limit
  {
    LogOfIsValid(history, maxRecords, limit);
    assert Sorted(LogOf(history, maxRecords, limit).records) && Truthful(LogOf(history, maxRecords, limit)) by {
      hide LogOf, Sorted, Truthful, Complete;
    }
    hide ValidLog, Pushed, OutputKept, Sorted, Truthful;
    if history == [] {
      NoRecordsAtAll(limit);
    } else {
      var front := history[..|history| - 1];
      LogOfIsValid(front, maxRecords, limit);
      PushesKeepOutput(front, maxRecords, limit);
      PushKeepsOutput(LogOf(front, maxRecords, limit), history[|history| - 1], maxRecords, limit);
    }
  }

  lemma NoRecordsAtAll(limit: nat)
    ensures OutputKept(Log([], []), limit) && OutputBytes([]) == 0
  {}

  // ----- the promises -----

  lemma LostIsTooMuch(log: Log, limit: nat, q: nat)
    requires OutputKept(log, limit) && IsOutput(log.history, q) && Oldest(log) <= q && !Retains(log.records, q)
    ensures |OutputOf(log.history, q - 1)| > limit
  {}

  lemma RetainedStartsSuffix(log: Log, limit: nat, q: nat)
    requires OutputKept(log, limit) && IsOutput(log.history, q) && Retains(log.records, q)
    ensures AllRetained(log.history, log.records, q - 1)
  {}

  /** After any pushes, an output record that is not older than the oldest record is
      retained iff the output pushed from it on fits the limit. */
  lemma OutputIsRetainedIffItFits(history: seq<RecordKind>, maxRecords: nat, limit: nat, q: nat)
    requires maxRecords >= 1
    requires IsOutput(history, q) && Oldest(LogOf(history, maxRecords, limit)) <= q
    ensures Retains(LogOf(history, maxRecords, limit).records, q) <==> |OutputOf(history, q - 1)| <= limit
  {
    hide LogOf, OutputOf, OutputBytes, OutputIn, OutputKept, Retains, AllRetained, Sorted, Truthful, Oldest;
    var log := LogOf(history, maxRecords, limit);
    PushesKeepOutput(history, maxRecords, limit);
    if Retains(log.records, q) {
      RetainedStartsSuffix(log, limit, q);
      RetainedIsAll(history, log.records, q - 1);
      OutputInIsPart(log.records, q - 1);
    } else {
      LostIsTooMuch(log, limit, q);
    }
  }

  lemma FittingIsRetained(log: Log, limit: nat, since: nat)
    requires OutputKept(log, limit) && since + 1 >= Oldest(log) && |OutputOf(log.history, since)| <= limit
    ensures AllRetained(log.history, log.records, since)
  {
    hide Oldest, Retains, OutputOf;
    forall q: nat | IsOutput(log.history, q) && q > since
      ensures Retains(log.records, q)
    {
      LaterOutputIsLess(log.history, since, q - 1);
    }
  }

  /** After any pushes, a snapshot whose cursor has not expired shows all output
      after the cursor iff that output fits the limit. */
  lemma SnapshotOutputIsCompleteIffItFits(history: seq<RecordKind>, maxRecords: nat, limit: nat,
                                          agentId: string, since: nat)
    requires maxRecords >= 1 && since + 1 >= Oldest(LogOf(history, maxRecords, limit))
    ensures var r := SnapshotSince(LogOf(history, maxRecords, limit), agentId, Some(Cursor(agentId, since)));
            r.Ok? && (r.value.output == OutputOf(history, since) <==> |OutputOf(history, since)| <= limit)
  {
    hide LogOf, OutputOf, OutputBytes, OutputIn, OutputKept, AllRetained, Sorted, Truthful, Oldest, EventsIn;
    var log := LogOf(history, maxRecords, limit);
    PushesKeepOutput(history, maxRecords, limit);
    OutputInIsPart(log.records, since);
    if |OutputOf(history, since)| <= limit {
      FittingIsRetained(log, limit, since);
      RetainedIsAll(history, log.records, since);
    }
  }

  lemma {:induction false} LaterOutputIsLess(history: seq<RecordKind>, since: nat, later: nat)
    requires since <= later
    ensures |OutputOf(history, later)| <= |OutputOf(history, since)|
  {
    if history != [] {
      LaterOutputIsLess(history[..|history| - 1], since, later);
    }
  }

  lemma {:induction false} TrimKeepsFirst(records: seq<Record>, limit: nat)
    requires records != [] && !records[0].kind.Output?
    ensures var kept := TrimOutput(records, limit);
            kept != [] && kept[0] == records[0] && |kept| <= |records|
    decreases |records|
  {
    var first := FirstOutput(records);
    if OutputBytes(records) > limit && first.Some? {
      TrimKeepsFirst(Without(records, first.value), limit);
    }
  }

  lemma PushKeepsFirst(log: Log, kind: RecordKind, maxRecords: nat, limit: nat)
    requires |log.records| < maxRecords
    requires var first := if log.records == [] then kind else log.records[0].kind; !first.Output?
    ensures var records := Pushed(log, kind, maxRecords, limit).records;
            && records != [] && |records| <= |log.records| + 1
            && records[0] == if log.records == [] then Record(|log.history| + 1, kind) else log.records[0]
  {
    var grown := log.records + [Record(|log.history| + 1, kind)];
    assert Newest(grown, maxRecords) == grown;
    TrimKeepsFirst(grown, limit);
    hide TrimOutput;
  }

  /** While the count limit is not reached, a first record without output stays. */
  lemma {:induction false} FirstNoteStays(history: seq<RecordKind>, maxRecords: nat, limit: nat)
    requires history != [] && !history[0].Output? && |history| <= maxRecords
    ensures var records := LogOf(history, maxRecords, limit).records;
            records != [] && records[0] == Record(1, history[0]) && |records| <= |history|
  {
    var front := history[..|history| - 1];
    if front != [] {
      FirstNoteStays(front, maxRecords, limit);
    }
    hide Pushed;
    PushKeepsFirst(LogOf(front, maxRecords, limit), history[|history| - 1], maxRecords, limit);
  }

  /** So output can vanish without a gap, whatever the limits: behind an older record,
      and long before the count limit is reached, output that does not fit leaves a
      snapshot that has not expired and does not show all of it. */
  lemma OutputCanVanishSilently(history: seq<RecordKind>, maxRecords: nat, limit: nat, agentId: string, since: nat)
    requires history != [] && !history[0].Output? && |history| <= maxRecords
    requires |OutputOf(history, since)| > limit
    ensures var r := SnapshotSince(LogOf(history, maxRecords, limit), agentId, Some(Cursor(agentId, since)));
            r.Ok? && r.value.output != OutputOf(history, since)
  {
    hide LogOf, OutputIn, EventsIn;
    FirstNoteStays(history, maxRecords, limit);
    SnapshotOutputIsCompleteIffItFits(history, maxRecords, limit, agentId, since);
  }

  // ----- what a snapshot shows is the end of what was pushed -----

  lemma {:induction false} LaterOutputIsTheEnd(history: seq<RecordKind>, since: nat, later: nat) returns (front: string)
    requires since <= later
    ensures OutputOf(history, since) == front + OutputOf(history, later)
  {
    if history == [] {
      front := "";
    } else {
      front := LaterOutputIsTheEnd(history[..|history| - 1], since, later);
      if since < |history| <= later {
        NoOutputAfter(history, later);
        front := OutputOf(history, since);
      }
    }
  }

  lemma {:induction false} NoOutputAfter(history: seq<RecordKind>, since: nat)
    requires |history| <= since
    ensures OutputOf(history, since) == ""
  {
    if history != [] {
      NoOutputAfter(history[..|history| - 1], since);
    }
  }

  lemma {:induction false} SkippingNothing(records: seq<Record>, since: nat, later: nat)
    requires since <= later
    requires forall i :: 0 <= i < |records| && records[i].kind.Output? ==>
      records[i].sequence <= since || records[i].sequence > later
    ensures OutputIn(records, since) == OutputIn(records, later)
  {
    if records != [] {
      SkippingNothing(records[..|records| - 1], since, later);
    }
  }

  /** The first retained output after `since`. */
  lemma {:induction false} FirstAfter(records: seq<Record>, since: nat) returns (first: Option<nat>)
    requires Sorted(records)
    ensures first.Some? ==> first.value < |records| && records[first.value].kind.Output?
                            && records[first.value].sequence > since
    ensures first.Some? ==> forall i :: 0 <= i < first.value && records[i].kind.Output? ==> records[i].sequence <= since
    ensures first.None? ==> forall i :: 0 <= i < |records| && records[i].kind.Output? ==> records[i].sequence <= since
  {
    if records == [] {
      first := None;
    } else {
      var n := |records| - 1;
      first := FirstAfter(records[..n], since);
      if first.None? && records[n].kind.Output? && records[n].sequence > since {
        first := Some(n);
      }
    }
  }

  /** After any pushes, an unexpired snapshot shows an end of the output after the
      cursor: nothing is missing in between. */
  lemma SnapshotShowsTheEnd(history: seq<RecordKind>, maxRecords: nat, limit: nat, agentId: string, since: nat)
    returns (lost: string)
    requires maxRecords >= 1 && since + 1 >= Oldest(LogOf(history, maxRecords, limit))
    ensures var r := SnapshotSince(LogOf(history, maxRecords, limit), agentId, Some(Cursor(agentId, since)));
            r.Ok? && OutputOf(history, since) == lost + r.value.output
  {
    hide LogOf, OutputOf, OutputBytes, OutputIn, OutputKept, AllRetained, Sorted, Truthful, Oldest, EventsIn;
    var log := LogOf(history, maxRecords, limit);
    PushesKeepOutput(history, maxRecords, limit);
    lost := RetainedIsTheEnd(log, limit, since);
  }

  lemma RetainedIsTheEnd(log: Log, limit: nat, since: nat) returns (lost: string)
    requires Sorted(log.records) && Truthful(log) && OutputKept(log, limit)
    ensures OutputOf(log.history, since) == lost + OutputIn(log.records, since)
  {
    hide OutputOf, OutputIn, OutputKept, AllRetained;
    var first := FirstAfter(log.records, since);
    if first.Some? {
      var q := log.records[first.value].sequence;
      assert IsOutput(log.history, q) && Retains(log.records, q);
      RetainedStartsSuffix(log, limit, q);
      RetainedIsAll(log.history, log.records, q - 1);
      SkippingNothing(log.records, since, q - 1);
      lost := LaterOutputIsTheEnd(log.history, since, q - 1);
    } else {
      OnlyEarlierShowsNothing(log.records, since);
      lost := OutputOf(log.history, since);
    }
  }

  lemma {:induction false} OnlyEarlierShowsNothing(records: seq<Record>, since: nat)
    requires forall i :: 0 <= i < |records| && records[i].kind.Output? ==> records[i].sequence <= since
    ensures OutputIn(records, since) == ""
  {
    if records != [] {
      OnlyEarlierShowsNothing(records[..|records| - 1], since);
    }
  }
}
