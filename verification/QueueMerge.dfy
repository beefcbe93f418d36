/** The queue's items and the backend's three-way merge of a saved snapshot
    (src/store/useQueueStore.ts, src-tauri/src/utils/queue.rs). */
module QueueMerge {
  import opened Common

  /** An automation and one of its runs. */
  type Pair = (string, string)

  datatype Kind = AgentUpdate | ApprovalRequest | ActionNeeded | AgentCompleted | AgentTurnEnded | AutomationCompleted

  /** `inbox` is the inbox notification the item shows, `approval` the automation
      run whose gate it shows. */
  datatype Item<I> = Item(
    id: I,
    kind: Kind,
    timestamp: int,
    read: bool,
    dismissed: bool,
    inbox: Option<string>,
    approval: Option<Pair>,
    automation: Option<string>,
    run: Option<string>,
    awaitingReply: bool,
    choiceSent: Option<string>,
    choicePending: Option<string>)

  predicate IsProviderTurnNotice<I>(item: Item<I>) {
    item.kind.AgentCompleted? || item.kind.AgentTurnEnded?
  }

  predicate IsText(s: Option<string>) {
    s.Some? && s.value != ""
  }

  /** automationRunKey: only completions with both parts have one. */
  function KeyOf<I>(item: Item<I>): Option<Pair> {
    if item.kind.AutomationCompleted? && IsText(item.automation) && IsText(item.run)
    then Some((item.automation.value, item.run.value))
    else None
  }

  // ----- merge_desktop_snapshot -----

  /** The last item with the id, as a map collected from the list has it. */
  function Last<I(==)>(items: seq<Item<I>>, id: I): (r: Option<Item<I>>)
    ensures r.Some? <==> exists k :: 0 <= k < |items| && items[k].id == id
    ensures r.Some? ==> r.value in items && r.value.id == id
  {
    if items == [] then None
    else if items[|items| - 1].id == id then Some(items[|items| - 1])
    else
      Last(items[..|items| - 1], id)
  }

  function MergedNotice<I>(latest: Item<I>, incoming: Option<Item<I>>): Item<I> {
    if latest.dismissed || (incoming.Some? && incoming.value.read) then latest.(read := true) else latest
  }

  function MergedItem<I>(latest: Item<I>, incoming: Item<I>): Item<I> {
    incoming.(read := latest.read || incoming.read,
              choiceSent := if latest.choiceSent.Some? then latest.choiceSent else incoming.choiceSent,
              choicePending := if latest.choicePending.Some? then latest.choicePending else incoming.choicePending)
  }

  function KeptItem<I>(inBase: bool, incoming: Option<Item<I>>, latest: Item<I>): Option<Item<I>> {
    if IsProviderTurnNotice(latest) then Some(MergedNotice(latest, incoming))
    else if !inBase then Some(latest)
    else if incoming.Some? then Some(MergedItem(latest, incoming.value))
    else None
  }

  function Kept<I(==)>(base: set<I>, incoming: seq<Item<I>>, latest: seq<Item<I>>): seq<Item<I>> {
    if latest == [] then []
    else
      var item := latest[|latest| - 1];
      var kept := KeptItem(item.id in base, Last(incoming, item.id), item);
      Kept(base, incoming, latest[..|latest| - 1]) + if kept.Some? then [kept.value] else []
  }

  function Added<I(==)>(base: set<I>, latest: seq<Item<I>>, incoming: seq<Item<I>>): seq<Item<I>> {
    if incoming == [] then []
    else
      var item := incoming[|incoming| - 1];
      Added(base, latest, incoming[..|incoming| - 1])
      + if item.id !in base && Last(latest, item.id).None? then [item] else []
  }

  function Merge<I(==)>(base: Option<set<I>>, incoming: seq<Item<I>>, latest: seq<Item<I>>): seq<Item<I>> {
    if base.None? then latest
    else Kept(base.value, incoming, latest) + Added(base.value, latest, incoming)
  }

  // ----- the merge, one id at a time -----

  function MergedAt<I>(inBase: bool, incoming: Option<Item<I>>, latest: Option<Item<I>>): Option<Item<I>> {
    if latest.Some? then KeptItem(inBase, incoming, latest.value)
    else if !inBase then incoming
    else None
  }

  ghost predicate DistinctIds<I(!new)>(items: seq<Item<I>>) {
    forall i, j :: 0 <= i < j < |items| ==> items[i].id != items[j].id
  }

  /** With distinct ids on disk the merge decides every id on its own, from the
      base, incoming and latest entries of that id alone. */
  lemma MergeIsPointwise<I(!new)>(base: set<I>, incoming: seq<Item<I>>, latest: seq<Item<I>>, id: I)
    requires DistinctIds(latest)
    ensures Last(Merge(Some(base), incoming, latest), id)
         == MergedAt(id in base, Last(incoming, id), Last(latest, id))
  {
    KeptAt(base, incoming, latest, id);
    AddedAt(base, latest, incoming, id);
    LastOfConcat(Kept(base, incoming, latest), Added(base, latest, incoming), id);
  }

  lemma {:induction false} LastOfConcat<I>(xs: seq<Item<I>>, ys: seq<Item<I>>, id: I)
    ensures Last(xs + ys, id) == if Last(ys, id).Some? then Last(ys, id) else Last(xs, id)
  {
    if ys == [] {
      assert xs + ys == xs;
    } else {
      assert (xs + ys)[..|xs + ys| - 1] == xs + ys[..|ys| - 1];
      LastOfConcat(xs, ys[..|ys| - 1], id);
    }
  }

  lemma {:induction false} KeptAt<I(!new)>(base: set<I>, incoming: seq<Item<I>>, latest: seq<Item<I>>, id: I)
    requires DistinctIds(latest)
    ensures var item := Last(latest, id);
            Last(Kept(base, incoming, latest), id)
            == if item.Some? then KeptItem(id in base, Last(incoming, id), item.value) else None
  {
    if latest != [] {
      var n := |latest| - 1;
      KeptAt(base, incoming, latest[..n], id);
      var kept := KeptItem(latest[n].id in base, Last(incoming, latest[n].id), latest[n]);
      var tail := if kept.Some? then [kept.value] else [];
      LastOfConcat(Kept(base, incoming, latest[..n]), tail, id);
      assert forall k :: 0 <= k < n ==> latest[..n][k].id != latest[n].id;
    }
  }

  lemma {:induction false} AddedAt<I(!new)>(base: set<I>, latest: seq<Item<I>>, incoming: seq<Item<I>>, id: I)
    ensures Last(Added(base, latest, incoming), id)
         == if id !in base && Last(latest, id).None? then Last(incoming, id) else None
  {
    if incoming != [] {
      var n := |incoming| - 1;
      AddedAt(base, latest, incoming[..n], id);
      var tail := if incoming[n].id !in base && Last(latest, incoming[n].id).None? then [incoming[n]] else [];
      LastOfConcat(Added(base, latest, incoming[..n]), tail, id);
    }
  }

  /** Distinct ids stay distinct. */
  lemma MergeKeepsIdsDistinct<I(!new)>(base: set<I>, incoming: seq<Item<I>>, latest: seq<Item<I>>)
    requires DistinctIds(latest) && DistinctIds(incoming)
    ensures DistinctIds(Merge(Some(base), incoming, latest))
  {
    var kept, added := Kept(base, incoming, latest), Added(base, latest, incoming);
    KeptIsDistinct(base, incoming, latest);
    AddedIsDistinct(base, latest, incoming);
    forall i, j | 0 <= i < |kept| && 0 <= j < |added|
      ensures kept[i].id != added[j].id
    {
      KeptAt(base, incoming, latest, kept[i].id);
      AddedAt(base, latest, incoming, added[j].id);
      assert Last(kept, kept[i].id).Some? && Last(added, added[j].id).Some?;
    }
  }

  lemma {:induction false} KeptIsDistinct<I(!new)>(base: set<I>, incoming: seq<Item<I>>, latest: seq<Item<I>>)
    requires DistinctIds(latest)
    ensures DistinctIds(Kept(base, incoming, latest))
  {
    if latest != [] {
      var n := |latest| - 1;
      var front := Kept(base, incoming, latest[..n]);
      KeptIsDistinct(base, incoming, latest[..n]);
      forall i | 0 <= i < |front|
        ensures front[i].id != latest[n].id
      {
        KeptAt(base, incoming, latest[..n], front[i].id);
        assert Last(front, front[i].id).Some?;
        var k :| 0 <= k < n && latest[..n][k].id == front[i].id;
        assert latest[k].id == front[i].id;
      }
    }
  }

  lemma {:induction false} AddedIsDistinct<I(!new)>(base: set<I>, latest: seq<Item<I>>, incoming: seq<Item<I>>)
    requires DistinctIds(incoming)
    ensures DistinctIds(Added(base, latest, incoming))
  {
    if incoming != [] {
      var n := |incoming| - 1;
      var front := Added(base, latest, incoming[..n]);
      AddedIsDistinct(base, latest, incoming[..n]);
      forall i | 0 <= i < |front|
        ensures front[i].id != incoming[n].id
      {
        AddedAt(base, latest, incoming[..n], front[i].id);
        assert Last(front, front[i].id).Some?;
        var k :| 0 <= k < n && incoming[..n][k].id == front[i].id;
        assert incoming[k].id == front[i].id;
      }
    }
  }

  // ----- the text of a dismissal marker's id -----

  function MarkerText(p: Pair): string {
    "automation-dismissed:" + p.0 + ":" + p.1
  }

  function Marker<I>(id: I, p: Pair, now: int): Item<I> {
    Item(id, AutomationCompleted, now, true, true, None, None, Some(p.0), Some(p.1), false, None, None)
  }

  function Markers(pairs: seq<Pair>, now: int): (r: seq<Item<string>>)
    ensures |r| == |pairs|
    ensures forall k :: 0 <= k < |r| ==> r[k] == Marker(MarkerText(pairs[k]), pairs[k], now)
  {
    seq(|pairs|, k requires 0 <= k < |pairs| => Marker(MarkerText(pairs[k]), pairs[k], now))
  }

  ghost predicate Marked(items: seq<Item<string>>, p: Pair) {
    exists k :: 0 <= k < |items| && items[k].dismissed && KeyOf(items[k]) == Some(p)
  }

  function Ids<I(==)>(items: seq<Item<I>>): (r: set<I>)
    ensures forall k :: 0 <= k < |items| ==> items[k].id in r
  {
    set item | item in items :: item.id
  }

  /** No two of the runs share a marker text. */
  ghost predicate TextsDiffer(pairs: seq<Pair>) {
    forall p, q :: p in pairs && q in pairs && MarkerText(p) == MarkerText(q) ==> p == q
  }

  ghost predicate AllMarked(items: seq<Item<string>>, pairs: seq<Pair>) {
    forall k :: 0 <= k < |pairs| ==> Marked(items, pairs[k])
  }

  ghost predicate AreRunPairs(pairs: seq<Pair>) {
    && (forall k :: 0 <= k < |pairs| ==> pairs[k].0 != "" && pairs[k].1 != "")
    && (forall i, j :: 0 <= i < j < |pairs| ==> pairs[i] != pairs[j])
  }

  /** Saving the same dismissals twice keeps all of them iff their marker texts
      differ: two pairs with one text are merged into one marker. */
  lemma SecondSaveKeepsDismissalsIff(pairs: seq<Pair>, now: int, later: int)
    requires AreRunPairs(pairs)
    ensures AllMarked(SecondSave(pairs, now, later), pairs) <==> TextsDiffer(pairs)
  {
    hide SecondSave, Marked;
    if TextsDiffer(pairs) {
      DifferentTextsAreKept(pairs, now, later);
    } else {
      var p, q :| p in pairs && q in pairs && MarkerText(p) == MarkerText(q) && p != q;
      var i, j :| 0 <= i < |pairs| && 0 <= j < |pairs| && pairs[i] == p && pairs[j] == q;
      var first, last := if i < j then i else j, if i < j then j else i;
      SharedTextIsLost(pairs, now, later, first, last);
      assert !Marked(SecondSave(pairs, now, later), pairs[first]);
    }
  }

  function SecondSave(pairs: seq<Pair>, now: int, later: int): seq<Item<string>> {
    var first := Markers(pairs, now);
    Merge(Some(Ids(first)), Markers(pairs, later), first)
  }

  lemma SecondSaveRefreshes(pairs: seq<Pair>, now: int, later: int)
    ensures SecondSave(pairs, now, later) == Resaved(Markers(pairs, now), Markers(pairs, later))
  {
    var first, incoming := Markers(pairs, now), Markers(pairs, later);
    ResavedMarkers(pairs, now, later, |pairs|);
    assert first[..|pairs|] == first;
    hide Resaved, Kept;
    forall k | 0 <= k < |incoming|
      ensures incoming[k].id in Ids(first)
    {
      assert incoming[k].id == first[k].id;
    }
    NothingAdded(Ids(first), first, incoming);
  }

  /** After the second save the k-th marker is that of the last run with its text. */
  lemma SecondSaveAt(pairs: seq<Pair>, now: int, later: int, k: nat) returns (m: nat)
    requires AreRunPairs(pairs) && k < |pairs|
    ensures |SecondSave(pairs, now, later)| == |pairs|
    ensures k <= m < |pairs| && MarkerText(pairs[m]) == MarkerText(pairs[k])
    ensures forall i :: m < i < |pairs| ==> MarkerText(pairs[i]) != MarkerText(pairs[k])
    ensures var marker := SecondSave(pairs, now, later)[k]; marker.dismissed && KeyOf(marker) == Some(pairs[m])
  {
    hide SecondSave, MarkerText, Last;
    var first, incoming := Markers(pairs, now), Markers(pairs, later);
    SecondSaveRefreshes(pairs, now, later);
    m := LastIndex(incoming, k);
    assert incoming[k].id == first[k].id;
    assert Resaved(first, incoming)[k] == Refreshed(first[k], incoming);
    forall i | m < i < |pairs|
      ensures MarkerText(pairs[i]) != MarkerText(pairs[k])
    {
      assert incoming[i].id != incoming[k].id;
    }
  }

  lemma DifferentTextsAreKept(pairs: seq<Pair>, now: int, later: int)
    requires AreRunPairs(pairs) && TextsDiffer(pairs)
    ensures AllMarked(SecondSave(pairs, now, later), pairs)
  {
    hide SecondSave, MarkerText;
    forall k | 0 <= k < |pairs|
      ensures Marked(SecondSave(pairs, now, later), pairs[k])
    {
      var m := SecondSaveAt(pairs, now, later, k);
      assert pairs[m] in pairs && pairs[k] in pairs;
    }
  }

  lemma SharedTextIsLost(pairs: seq<Pair>, now: int, later: int, i: nat, j: nat)
    requires AreRunPairs(pairs) && i < j < |pairs| && MarkerText(pairs[i]) == MarkerText(pairs[j])
    ensures !Marked(SecondSave(pairs, now, later), pairs[i])
  {
    hide SecondSave, MarkerText;
    var second := SecondSave(pairs, now, later);
    SecondSaveRefreshes(pairs, now, later);
    forall k | 0 <= k < |second|
      ensures KeyOf(second[k]) != Some(pairs[i])
    {
      var m := SecondSaveAt(pairs, now, later, k);
    }
  }

  function Refreshed(item: Item<string>, incoming: seq<Item<string>>): Item<string> {
    var last := Last(incoming, item.id);
    if last.Some? then MergedItem(item, last.value) else item
  }

  function Resaved(first: seq<Item<string>>, incoming: seq<Item<string>>): (r: seq<Item<string>>)
    ensures |r| == |first|
    ensures forall k :: 0 <= k < |r| ==> r[k] == Refreshed(first[k], incoming)
  {
    seq(|first|, k requires 0 <= k < |first| => Refreshed(first[k], incoming))
  }

  lemma KeptOneMore(base: set<string>, incoming: seq<Item<string>>, items: seq<Item<string>>, n: nat)
    requires 0 < n <= |items| && items[n - 1].id in base && !IsProviderTurnNotice(items[n - 1])
    requires Last(incoming, items[n - 1].id).Some?
    ensures Kept(base, incoming, items[..n]) == Kept(base, incoming, items[..n - 1]) + [Refreshed(items[n - 1], incoming)]
  {
    hide Last, MergedItem;
    assert items[..n][..n - 1] == items[..n - 1];
  }

  lemma MarkerIsResent(pairs: seq<Pair>, now: int, later: int, k: nat)
    requires k < |pairs|
    ensures var item := Markers(pairs, now)[k];
            item.id in Ids(Markers(pairs, now)) && !IsProviderTurnNotice(item) && Last(Markers(pairs, later), item.id).Some?
  {
    hide MarkerText;
    assert Markers(pairs, later)[k].id == Markers(pairs, now)[k].id;
  }

  lemma {:induction false} ResavedMarkers(pairs: seq<Pair>, now: int, later: int, n: nat)
    requires n <= |pairs|
    ensures var first, incoming := Markers(pairs, now), Markers(pairs, later);
            Kept(Ids(first), incoming, first[..n]) == Resaved(first[..n], incoming)
  {
    var first, incoming := Markers(pairs, now), Markers(pairs, later);
    if n > 0 {
      hide Markers, MarkerText, Marker, Ids, Refreshed, Kept, Last, Resaved;
      ResavedMarkers(pairs, now, later, n - 1);
      MarkerIsResent(pairs, now, later, n - 1);
      KeptOneMore(Ids(first), incoming, first, n);
      ResavedOneMore(first, incoming, n);
    } else {
      assert Resaved(first[..0], incoming) == [];
    }
  }

  lemma ResavedOneMore(items: seq<Item<string>>, incoming: seq<Item<string>>, n: nat)
    requires 0 < n <= |items|
    ensures Resaved(items[..n], incoming) == Resaved(items[..n - 1], incoming) + [Refreshed(items[n - 1], incoming)]
  {
    hide Refreshed;
  }

  lemma {:induction false} NothingAdded(base: set<string>, latest: seq<Item<string>>, incoming: seq<Item<string>>)
    requires forall k :: 0 <= k < |incoming| ==> incoming[k].id in base
    ensures Added(base, latest, incoming) == []
  {
    if incoming != [] {
      NothingAdded(base, latest, incoming[..|incoming| - 1]);
    }
  }

  lemma {:induction false} LastIndex(items: seq<Item<string>>, k: nat) returns (m: nat)
    requires k < |items|
    ensures k <= m < |items| && items[m].id == items[k].id
    ensures Last(items, items[k].id) == Some(items[m])
    ensures forall i :: m < i < |items| ==> items[i].id != items[k].id
  {
    m := |items| - 1;
    if items[m].id != items[k].id {
      m := LastIndex(items[..|items| - 1], k);
    }
  }

  /** What stands before the first colon, and after it, can be read off the text. */
  lemma FirstColonSplits(a: string, x: string, b: string, y: string)
    requires ':' !in a && ':' !in b && a + ":" + x == b + ":" + y
    ensures a == b && x == y
  {
    var s, t := a + ":" + x, b + ":" + y;
    assert s[|a|] == ':' && t[|b|] == ':';
    assert forall k :: 0 <= k < |a| ==> s[k] != ':';
    assert forall k :: 0 <= k < |b| ==> t[k] != ':';
    assert |a| == |b|;
    assert s[..|a|] == a && t[..|b|] == b;
    assert s[|a| + 1..] == x && t[|b| + 1..] == y;
  }

  /** Automation ids without a colon never share a marker text. */
  lemma ColonFreeTextsDiffer(p: Pair, q: Pair)
    requires ':' !in p.0 && ':' !in q.0
    requires MarkerText(p) == MarkerText(q)
    ensures p == q
  {
    var s, t := p.0 + ":" + p.1, q.0 + ":" + q.1;
    assert MarkerText(p) == "automation-dismissed:" + s && MarkerText(q) == "automation-dismissed:" + t;
    assert MarkerText(p)[21..] == s && MarkerText(q)[21..] == t;
    FirstColonSplits(p.0, p.1, q.0, q.1);
  }

  /** With a colon, which the backend refuses in ids, they could. */
  lemma ColonTextsCollide()
    ensures MarkerText(("a:b", "c")) == MarkerText(("a", "b:c"))
  {
    assert "automation-dismissed:" + "a:b" + ":" + "c" == "automation-dismissed:" + "a" + ":" + "b:c";
  }
}
