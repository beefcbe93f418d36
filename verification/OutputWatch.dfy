/** The output condition of the blocking watch (src-tauri/src/control.rs,
    watch_condition_matches): when does a look at the log miss output that was pushed? */
module OutputWatch {
  import opened Common
  import opened AgentWatch
  import opened WatchOutput
  import opened EchoText
  import opened EchoGuard
  import opened EchoReadings

  /** The watched token, the submitted message its echo is told by, the reading of JSON
      lines, and what is left of output without terminal controls. */
  datatype Watched = Watched(token: string, submitted: Option<string>, json: JsonContent, strip: string -> string)

  ghost predicate Hits(w: Watched, text: string) {
    Contains(text, w.token) && !Suppressed(w.token, text, w.submitted, w.json)
  }

  /** The condition is tried on the stripped and on the raw output. */
  ghost predicate OutputMatches(w: Watched, output: string) {
    Hits(w, w.strip(output)) || Hits(w, output)
  }

  /** The text holds the token somewhere else than in echoes of the message. */
  ghost predicate SaysToken(w: Watched, text: string) {
    Contains(text, w.token) && !IsEchoedOnly(w, text)
  }

  /** There is a message with the token in it, some line of the text holds the token, and
      every line that does is an echo. */
  ghost predicate IsEchoedOnly(w: Watched, text: string) {
    && w.submitted.Some? && w.token != "" && Contains(w.submitted.value, w.token)
    && Join(EchoLines(w.submitted.value)) != ""
    && (exists line :: line in EchoLines(text) && Contains(line, w.token))
    && (forall line :: line in EchoLines(text) && Contains(line, w.token) ==>
          IsEchoLine(line, Join(EchoLines(w.submitted.value)), w.token, w.json))
  }

  /** The condition holds iff the output says the token, raw or without its controls. */
  lemma OutputMatchesIff(w: Watched, output: string)
    ensures OutputMatches(w, output)
       <==> exists text :: (text == output || text == w.strip(output)) && SaysToken(w, text)
  {
    hide Contains, Suppressed, IsEchoedOnly;
    forall text
      ensures Hits(w, text) <==> SaysToken(w, text)
    {
      HitIff(w, text);
    }
    hide Hits, SaysToken;
  }

  lemma HitIff(w: Watched, text: string)
    ensures Hits(w, text) <==> SaysToken(w, text)
  {
    hide Contains, Suppressed, EchoLines, Join, IsEchoLine;
    SuppressedIffEchoesOnly(w.token, text, w.submitted, w.json);
  }

  function Look(history: seq<RecordKind>, maxRecords: nat, limit: nat, agentId: string, since: nat)
    : Result<Snapshot, SnapshotError>
  {
    SnapshotSince(LogOf(history, maxRecords, limit), agentId, Some(Cursor(agentId, since)))
  }

  /** Output that fits the byte limit is not missed: a look whose cursor has not expired
      holds iff the condition holds of everything pushed after the cursor. So a look
      that misses pushed output stands behind more output than the limit. */
  lemma LookMissesOnlyWhatDoesNotFit(w: Watched, history: seq<RecordKind>, maxRecords: nat, limit: nat,
                                     agentId: string, since: nat)
    requires maxRecords >= 1 && since + 1 >= Oldest(LogOf(history, maxRecords, limit))
    ensures var r := Look(history, maxRecords, limit, agentId, since);
            && r.Ok?
            && (|OutputOf(history, since)| <= limit ==>
                  (OutputMatches(w, r.value.output) <==> OutputMatches(w, OutputOf(history, since))))
  {
    hide OutputMatches, LogOf, OutputOf, Oldest;
    SnapshotOutputIsCompleteIffItFits(history, maxRecords, limit, agentId, since);
  }

  lemma ContainedInLonger(front: string, text: string, back: string, part: string)
    requires Contains(text, part)
    ensures Contains(front + text + back, part)
  {
    var i :| 0 <= i <= |text| - |part| && EchoText.At(text, i, part);
    var whole := front + text + back;
    var j := |front| + i;
    assert whole[j..j + |part|] == text[i..i + |part|];
    assert EchoText.At(whole, j, part);
  }

  /** Raw output that is shown with the token in it was pushed with the token in it. */
  lemma ShownTokenWasPushed(history: seq<RecordKind>, maxRecords: nat, limit: nat, agentId: string, since: nat,
                            token: string)
    requires maxRecords >= 1 && since + 1 >= Oldest(LogOf(history, maxRecords, limit))
    ensures var r := Look(history, maxRecords, limit, agentId, since);
            r.Ok? && (Contains(r.value.output, token) ==> Contains(OutputOf(history, since), token))
  {
    hide Contains, LogOf, OutputOf, Oldest;
    var lost := SnapshotShowsTheEnd(history, maxRecords, limit, agentId, since);
    var shown := Look(history, maxRecords, limit, agentId, since).value.output;
    if Contains(shown, token) {
      ContainedInLonger(lost, shown, "", token);
      assert lost + shown + "" == OutputOf(history, since);
    }
  }

  // ----- a token that scrolls away -----

  lemma {:induction false} PushIsPartOfOutput(history: seq<RecordKind>, since: nat, q: nat) returns (front: string, back: string)
    requires IsOutput(history, q) && since < q
    ensures OutputOf(history, since) == front + history[q - 1].bytes + back
    decreases |history|
  {
    var n := |history| - 1;
    var last := if history[n].Output? then history[n].bytes else "";
    if q == |history| {
      front, back := OutputOf(history[..n], since), "";
    } else {
      front, back := PushIsPartOfOutput(history[..n], since, q);
      assert front + history[q - 1].bytes + back + last == front + history[q - 1].bytes + (back + last);
      back := back + last;
    }
  }

  lemma {:induction false} ShownIsFreeOf(records: seq<Record>, since: nat, c: char)
    requires forall i :: 0 <= i < |records| && records[i].sequence > since && records[i].kind.Output? ==>
      c !in records[i].kind.bytes
    ensures c !in OutputIn(records, since)
  {
    if records != [] {
      ShownIsFreeOf(records[..|records| - 1], since, c);
    }
  }

  /** Nothing up to the q-th push is shown any more. */
  lemma LostWithEverythingBefore(log: Log, limit: nat, q: nat, i: nat)
    requires Truthful(log) && OutputKept(log, limit) && IsOutput(log.history, q) && !Retains(log.records, q)
    requires i < |log.records| && log.records[i].kind.Output?
    ensures log.records[i].sequence > q && IsOutput(log.history, log.records[i].sequence)
    ensures log.history[log.records[i].sequence - 1] == log.records[i].kind
  {
    assert Retains(log.records, log.records[i].sequence);
  }

  /** No output after the q-th push has the first character of the token. */
  ghost predicate TokenStartIsOver(history: seq<RecordKind>, q: nat, token: string)
    requires token != ""
  {
    forall p: nat :: IsOutput(history, p) && p > q ==> token[0] !in history[p - 1].bytes
  }

  lemma StartIsMissing(text: string, token: string)
    requires token != "" && token[0] !in text
    ensures !Contains(text, token)
  {
    forall i | 0 <= i <= |text| - |token|
      ensures !EchoText.At(text, i, token)
    {
      assert text[i..i + |token|][0] == text[i];
    }
  }

  /** And such output is missed without a gap: the token was pushed after the cursor,
      more output than the limit followed, and the look neither finds the token nor
      reports that its cursor expired. */
  lemma TokenScrollsAway(w: Watched, history: seq<RecordKind>, maxRecords: nat, limit: nat, agentId: string,
                         since: nat, q: nat)
    requires history != [] && !history[0].Output? && |history| <= maxRecords
    requires IsOutput(history, q) && since < q
    requires w.token != "" && Contains(history[q - 1].bytes, w.token)
    requires TokenStartIsOver(history, q, w.token) && |OutputOf(history, q - 1)| > limit
    requires forall text :: w.token[0] !in text ==> w.token[0] !in w.strip(text)
    ensures var r := Look(history, maxRecords, limit, agentId, since);
            r.Ok? && Contains(OutputOf(history, since), w.token) && !OutputMatches(w, r.value.output)
  {
    hide Contains, LogOf, OutputOf, OutputIn, EventsIn, Suppressed, Retains, OutputKept, Truthful, Sorted, OutputBytes;
    FirstNoteStays(history, maxRecords, limit);
    var log := LogOf(history, maxRecords, limit);
    PushesKeepOutput(history, maxRecords, limit);
    OutputIsRetainedIffItFits(history, maxRecords, limit, q);
    var front, back := PushIsPartOfOutput(history, since, q);
    ContainedInLonger(front, history[q - 1].bytes, back, w.token);
    forall i | 0 <= i < |log.records| && log.records[i].sequence > since && log.records[i].kind.Output?
      ensures w.token[0] !in log.records[i].kind.bytes
    {
      LostWithEverythingBefore(log, limit, q, i);
    }
    ShownIsFreeOf(log.records, since, w.token[0]);
    var shown := OutputIn(log.records, since);
    StartIsMissing(shown, w.token);
    StartIsMissing(w.strip(shown), w.token);
  }
}
