/** What startup writes back to the durable roster: the three-way merge of
    persist_roster (src-tauri/src/startup_restore.rs) and the runtime snapshot it
    starts from (src-tauri/src/manager/mod.rs, state_configs_snapshot). */
module PersistRoster {
  import opened Common
  import opened Leases

  ghost predicate DistinctIds(configs: seq<AgentConfig>) {
    forall i, j :: 0 <= i < j < |configs| ==> configs[i].sessionId != configs[j].sessionId
  }

  /** The first entry with this id, as Iterator::find gives it. */
  function Find(configs: seq<AgentConfig>, id: string): (r: Option<nat>)
    ensures r.None? <==> forall i :: 0 <= i < |configs| ==> configs[i].sessionId != id
    ensures r.Some? ==> r.value < |configs| && configs[r.value].sessionId == id
    ensures r.Some? ==> forall i :: 0 <= i < r.value ==> configs[i].sessionId != id
  {
    if configs == [] then None
    else if configs[0].sessionId == id then Some(0)
    else
      var rest := Find(configs[1..], id);
      if rest.Some? then Some(rest.value + 1) else None
  }

  // ----- the runtime snapshot -----

  ghost predicate KeyedById(agents: map<string, AgentConfig>) {
    forall id :: id in agents ==> agents[id].sessionId == id
  }

  function Ids(configs: seq<AgentConfig>): seq<string> {
    seq(|configs|, i requires 0 <= i < |configs| => configs[i].sessionId)
  }

  /** The registered ids of the order, each once, at its first place. */
  function OrderedIds(order: seq<string>, agents: map<string, AgentConfig>): seq<string> {
    if order == [] then []
    else
      var last := order[|order| - 1];
      var front := OrderedIds(order[..|order| - 1], agents);
      if last in agents && last !in front then front + [last] else front
  }

  /** The first place of an id in the order. */
  ghost predicate FirstAt(order: seq<string>, id: string, i: nat) {
    i < |order| && order[i] == id && forall j :: 0 <= j < i ==> order[j] != id
  }

  /** What that means: the registered ids of the order, none twice, and of two of them the
      one that stands first in the order comes first. */
  lemma {:induction false} OrderedIdsAre(order: seq<string>, agents: map<string, AgentConfig>)
    ensures var ids := OrderedIds(order, agents);
            && (forall id :: id in ids <==> id in order && id in agents)
            && (forall i, j :: 0 <= i < j < |ids| ==> ids[i] != ids[j])
            && (forall i, j, p, q :: 0 <= i < j < |ids| && FirstAt(order, ids[i], p) && FirstAt(order, ids[j], q) ==> p < q)
  {
    if order != [] {
      var n := |order| - 1;
      var front, ids := OrderedIds(order[..n], agents), OrderedIds(order, agents);
      OrderedIdsAre(order[..n], agents);
      assert order == order[..n] + [order[n]];
      forall i, j, p: nat, q: nat | 0 <= i < j < |ids| && FirstAt(order, ids[i], p) && FirstAt(order, ids[j], q)
        ensures p < q
      {
        FirstInFront(order, ids[i], p);
        FirstInFront(order, ids[j], q);
      }
    }
  }

  lemma FirstInFront(order: seq<string>, id: string, p: nat)
    requires order != [] && FirstAt(order, id, p)
    ensures id in order[..|order| - 1] ==> FirstAt(order[..|order| - 1], id, p)
    ensures id !in order[..|order| - 1] ==> p == |order| - 1
  {
    var front := order[..|order| - 1];
    if p < |order| - 1 {
      assert front[p] == order[p];
    }
    if id in front {
      var k :| 0 <= k < |front| && front[k] == id;
      assert order[k] == id;
    }
  }

  /** Every entry is the live configuration of its agent. */
  ghost predicate TakenFrom(snapshot: seq<AgentConfig>, agents: map<string, AgentConfig>) {
    forall i :: 0 <= i < |snapshot| ==> snapshot[i].sessionId in agents && snapshot[i] == agents[snapshot[i].sessionId]
  }

  lemma TakeOneMore(snapshot: seq<AgentConfig>, agents: map<string, AgentConfig>, id: string)
    requires KeyedById(agents) && TakenFrom(snapshot, agents) && id in agents
    ensures TakenFrom(snapshot + [agents[id]], agents)
    ensures Ids(snapshot + [agents[id]]) == Ids(snapshot) + [id]
    ensures DistinctIds(snapshot) && id !in Ids(snapshot) ==> DistinctIds(snapshot + [agents[id]])
  {
    assert forall i :: 0 <= i < |snapshot| ==> snapshot[i].sessionId == Ids(snapshot)[i];
  }

  /** The order of strings, character by character. */
  predicate Precedes(a: string, b: string) {
    b != "" && (a == "" || a[0] < b[0] || (a[0] == b[0] && Precedes(a[1..], b[1..])))
  }

  /** The two texts agree up to `k`, and there the first one ends or has the smaller
      character. */
  ghost predicate DiffersUpwardsAt(a: string, b: string, k: int) {
    0 <= k <= |a| && k < |b| && a[..k] == b[..k] && (k < |a| ==> a[k] < b[k])
  }

  lemma SameHead(a: string, b: string, k: int)
    requires DiffersUpwardsAt(a, b, k) && k > 0
    ensures a != "" && b != "" && a[0] == b[0]
  {
    assert a[0] == a[..k][0] && b[0] == b[..k][0];
  }

  lemma {:induction false} PrecedesIff(a: string, b: string)
    ensures Precedes(a, b) <==> exists k :: DiffersUpwardsAt(a, b, k)
  {
    if a == "" || b == "" || a[0] != b[0] {
      if b != "" && (a == "" || a[0] < b[0]) {
        assert DiffersUpwardsAt(a, b, 0);
      }
      if k :| DiffersUpwardsAt(a, b, k) && k > 0 {
        SameHead(a, b, k);
      }
    } else {
      PrecedesIff(a[1..], b[1..]);
      if k :| DiffersUpwardsAt(a[1..], b[1..], k) {
        assert a[..k + 1] == [a[0]] + a[1..][..k] && b[..k + 1] == [b[0]] + b[1..][..k];
        assert DiffersUpwardsAt(a, b, k + 1);
      }
      if k :| DiffersUpwardsAt(a, b, k) {
        assert k > 0;
        assert a[1..][..k - 1] == a[..k][1..] && b[1..][..k - 1] == b[..k][1..];
        assert DiffersUpwardsAt(a[1..], b[1..], k - 1);
      }
    }
  }

  lemma {:induction false} PrecedesIsTotal(a: string, b: string)
    ensures a == b || Precedes(a, b) || Precedes(b, a)
  {
    if a != "" && b != "" && a[0] == b[0] {
      PrecedesIsTotal(a[1..], b[1..]);
      assert a == [a[0]] + a[1..] && b == [b[0]] + b[1..];
    }
  }

  lemma {:induction false} PrecedesIsTransitive(a: string, b: string, c: string)
    requires Precedes(a, b) && Precedes(b, c)
    ensures Precedes(a, c)
  {
    if a != "" && a[0] == b[0] == c[0] {
      PrecedesIsTransitive(a[1..], b[1..], c[1..]);
    }
  }

  method Least(ids: set<string>) returns (least: string)
    requires ids != {}
    ensures least in ids && forall id :: id in ids && id != least ==> Precedes(least, id)
  {
    least :| least in ids;
    var rest := ids - {least};
    while rest != {}
      invariant rest <= ids && least in ids - rest
      invariant forall id :: id in ids - rest && id != least ==> Precedes(least, id)
      decreases rest
    {
      var next :| next in rest;
      rest := rest - {next};
      PrecedesIsTotal(next, least);
      if Precedes(next, least) {
        forall id | id in ids - rest && id != next && id != least
          ensures Precedes(next, id)
        {
          PrecedesIsTransitive(next, least, id);
        }
        least := next;
      }
    }
  }

  ghost predicate SortedFrom(ids: seq<string>, start: nat) {
    forall i, j :: start <= i < j < |ids| ==> Precedes(ids[i], ids[j])
  }

  ghost predicate AllPrecede(ids: seq<string>, start: nat, later: set<string>) {
    forall i, id :: start <= i < |ids| && id in later ==> Precedes(ids[i], id)
  }

  lemma SortedGrows(ids: seq<string>, start: nat, later: set<string>, least: string)
    requires start <= |ids| && SortedFrom(ids, start) && AllPrecede(ids, start, later) && least in later
    requires forall id :: id in later && id != least ==> Precedes(least, id)
    ensures SortedFrom(ids + [least], start) && AllPrecede(ids + [least], start, later - {least})
  {
    hide Precedes;
  }

  /** state_configs_snapshot: the ordered agents first, then every agent the order
      misses, sorted by id. Each live agent appears exactly once. */
  method Snapshot(agents: map<string, AgentConfig>, order: seq<string>) returns (snapshot: seq<AgentConfig>)
    requires KeyedById(agents)
    ensures DistinctIds(snapshot)
    ensures forall id :: id in agents <==> id in Ids(snapshot)
    ensures TakenFrom(snapshot, agents)
    ensures OrderedIds(order, agents) <= Ids(snapshot)
    ensures SortedFrom(Ids(snapshot), |OrderedIds(order, agents)|)
  {
    hide TakenFrom, KeyedById, DistinctIds, Ids, Precedes;
    snapshot := [];
    var seen: set<string> := {};
    NothingTaken(agents);
    var k := 0;
    while k < |order|
      invariant k <= |order|
      invariant Ids(snapshot) == OrderedIds(order[..k], agents)
      invariant DistinctIds(snapshot) && TakenFrom(snapshot, agents)
      invariant forall id :: id in seen <==> id in Ids(snapshot)
      invariant seen <= agents.Keys
    {
      assert order[..k + 1][..k] == order[..k];
      if order[k] in agents && order[k] !in seen {
        TakeOneMore(snapshot, agents, order[k]);
        snapshot := snapshot + [agents[order[k]]];
        seen := seen + {order[k]};
      }
      k := k + 1;
    }
    assert order[..k] == order;
    ghost var ordered := Ids(snapshot);
    var missing := agents.Keys - seen;
    NothingAppended(ordered, missing);
    hide SortedFrom, AllPrecede;
    while missing != {}
      invariant missing <= agents.Keys
      invariant ordered <= Ids(snapshot)
      invariant SortedFrom(Ids(snapshot), |ordered|) && AllPrecede(Ids(snapshot), |ordered|, missing)
      invariant DistinctIds(snapshot) && TakenFrom(snapshot, agents)
      invariant forall id :: id in Ids(snapshot) <==> id in agents && id !in missing
      decreases missing
    {
      var id := Least(missing);
      TakeOneMore(snapshot, agents, id);
      SortedGrows(Ids(snapshot), |ordered|, missing, id);
      snapshot := snapshot + [agents[id]];
      missing := missing - {id};
    }
  }

  lemma NothingAppended(ids: seq<string>, later: set<string>)
    ensures SortedFrom(ids, |ids|) && AllPrecede(ids, |ids|, later)
  {}

  lemma NothingTaken(agents: map<string, AgentConfig>)
    ensures DistinctIds([]) && TakenFrom([], agents) && Ids([]) == []
  {}

  // ----- the merge -----

  /** An agent may be written back: it is live, startup selected it, and the
      durable entry is still the one startup selected. */
  ghost predicate MayWrite(snapshot: seq<AgentConfig>, selected: seq<AgentConfig>, durable: seq<AgentConfig>, j: nat)
    requires j < |durable|
  {
    var id := durable[j].sessionId;
    && Find(durable, id) == Some(j)
    && Find(snapshot, id).Some?
    && Find(selected, id).Some?
    && durable[j] == selected[Find(selected, id).value]
  }

  ghost function MergedEntry(snapshot: seq<AgentConfig>, selected: seq<AgentConfig>, durable: seq<AgentConfig>, j: nat):
    AgentConfig
    requires j < |durable|
  {
    if MayWrite(snapshot, selected, durable, j)
    then snapshot[Find(snapshot, durable[j].sessionId).value]
    else durable[j]
  }

  /** The merge, entry by entry. */
  ghost function Merged(snapshot: seq<AgentConfig>, selected: seq<AgentConfig>, durable: seq<AgentConfig>): (r: seq<AgentConfig>)
    ensures |r| == |durable|
  {
    seq(|durable|, j requires 0 <= j < |durable| => MergedEntry(snapshot, selected, durable, j))
  }

  /** The loop of persist_roster over the runtime snapshot. */
  method Merge(snapshot: seq<AgentConfig>, selected: seq<AgentConfig>, loaded: seq<AgentConfig>)
    returns (durable: seq<AgentConfig>)
    requires DistinctIds(snapshot)
    ensures durable == Merged(snapshot, selected, loaded)
  {
    hide Merged;
    durable := loaded;
    var k := 0;
    NothingToMerge(selected, loaded);
    assert snapshot[..0] == [];
    hide DistinctIds, Find;
    while k < |snapshot|
      invariant k <= |snapshot|
      invariant durable == Merged(snapshot[..k], selected, loaded)
    {
      var runtime := snapshot[k];
      MergeOneMore(snapshot, selected, loaded, k);
      var chosen := Find(selected, runtime.sessionId);
      var current := Find(durable, runtime.sessionId);
      ghost var before := durable;
      if chosen.Some? && current.Some? {
        if durable[current.value] == selected[chosen.value] {
          durable := durable[current.value := runtime];
        }
      }
      assert durable == WrittenBack(before, selected, runtime);
      k := k + 1;
    }
    assert snapshot[..k] == snapshot;
  }

  lemma SameIdsSameFind(xs: seq<AgentConfig>, ys: seq<AgentConfig>)
    requires |xs| == |ys| && forall j :: 0 <= j < |xs| ==> xs[j].sessionId == ys[j].sessionId
    ensures forall id :: Find(xs, id) == Find(ys, id)
  {
    forall id
      ensures Find(xs, id) == Find(ys, id)
    {
      SameFind(xs, ys, id);
    }
  }

  lemma {:induction false} SameFind(xs: seq<AgentConfig>, ys: seq<AgentConfig>, id: string)
    requires |xs| == |ys| && forall j :: 0 <= j < |xs| ==> xs[j].sessionId == ys[j].sessionId
    ensures Find(xs, id) == Find(ys, id)
  {
    if xs != [] {
      SameFind(xs[1..], ys[1..], id);
    }
  }

  lemma NothingToMerge(selected: seq<AgentConfig>, loaded: seq<AgentConfig>)
    ensures Merged([], selected, loaded) == loaded
  {}

  /** Merging keeps every id in its place. */
  lemma MergeKeepsIds(snapshot: seq<AgentConfig>, selected: seq<AgentConfig>, durable: seq<AgentConfig>)
    ensures Ids(Merged(snapshot, selected, durable)) == Ids(durable)
    ensures forall id :: Find(Merged(snapshot, selected, durable), id) == Find(durable, id)
  {
    hide Find;
    var merged := Merged(snapshot, selected, durable);
    forall j | 0 <= j < |durable|
      ensures merged[j].sessionId == durable[j].sessionId
    {
      assert merged[j] == MergedEntry(snapshot, selected, durable, j);
    }
    assert forall j :: 0 <= j < |durable| ==> merged[j].sessionId == durable[j].sessionId;
    SameIdsSameFind(merged, durable);
  }

  /** One round of the loop. */
  function WrittenBack(durable: seq<AgentConfig>, selected: seq<AgentConfig>, runtime: AgentConfig): seq<AgentConfig> {
    var chosen := Find(selected, runtime.sessionId);
    var current := Find(durable, runtime.sessionId);
    if chosen.Some? && current.Some? && durable[current.value] == selected[chosen.value]
    then durable[current.value := runtime]
    else durable
  }

  /** One more runtime entry changes at most the first durable entry of its id. */
  lemma MergeOneMore(snapshot: seq<AgentConfig>, selected: seq<AgentConfig>, loaded: seq<AgentConfig>, k: nat)
    requires DistinctIds(snapshot) && k < |snapshot|
    ensures Merged(snapshot[..k + 1], selected, loaded)
            == WrittenBack(Merged(snapshot[..k], selected, loaded), selected, snapshot[k])
  {
    hide Merged, MayWrite, MergedEntry;
    var id := snapshot[k].sessionId;
    var before := Merged(snapshot[..k], selected, loaded);
    MergeKeepsIds(snapshot[..k], selected, loaded);
    forall j | 0 <= j < |loaded|
      ensures Merged(snapshot[..k + 1], selected, loaded)[j]
              == if Find(loaded, id) == Some(j) && WasSelected(before, selected, j) then snapshot[k] else before[j]
    {
      MergeEntryOneMore(snapshot, selected, loaded, k, j);
    }
  }

  ghost predicate WasSelected(durable: seq<AgentConfig>, selected: seq<AgentConfig>, j: nat)
    requires j < |durable|
  {
    var chosen := Find(selected, durable[j].sessionId);
    chosen.Some? && durable[j] == selected[chosen.value]
  }

  lemma MergeEntryOneMore(snapshot: seq<AgentConfig>, selected: seq<AgentConfig>, loaded: seq<AgentConfig>, k: nat, j: nat)
    requires DistinctIds(snapshot) && k < |snapshot| && j < |loaded|
    ensures var before := Merged(snapshot[..k], selected, loaded);
            Merged(snapshot[..k + 1], selected, loaded)[j]
            == if Find(loaded, snapshot[k].sessionId) == Some(j) && WasSelected(before, selected, j)
               then snapshot[k] else before[j]
  {
    hide Find;
    var id := loaded[j].sessionId;
    FindInPrefix(snapshot, k, id);
    if id == snapshot[k].sessionId {
      NotYetThere(snapshot, k);
    } else {
      FindGivesId(loaded, snapshot[k].sessionId);
    }
  }

  lemma NotYetThere(snapshot: seq<AgentConfig>, k: nat)
    requires DistinctIds(snapshot) && k < |snapshot|
    ensures Find(snapshot[..k], snapshot[k].sessionId).None?
  {}

  lemma FindGivesId(configs: seq<AgentConfig>, id: string)
    ensures forall j :: 0 <= j < |configs| && Find(configs, id) == Some(j) ==> configs[j].sessionId == id
  {}

  lemma FindInPrefix(snapshot: seq<AgentConfig>, k: nat, id: string)
    requires DistinctIds(snapshot) && k < |snapshot|
    ensures Find(snapshot[..k + 1], id) == if id == snapshot[k].sessionId then Some(k) else Find(snapshot[..k], id)
  {
    var longer, shorter := Find(snapshot[..k + 1], id), Find(snapshot[..k], id);
    assert forall i :: 0 <= i < k ==> snapshot[..k][i] == snapshot[i] == snapshot[..k + 1][i];
    assert snapshot[..k + 1][k] == snapshot[k];
    if longer.Some? && shorter.Some? {
      assert longer.value <= shorter.value;
    }
  }

  /** Writing back twice changes nothing more. */
  lemma MergeIsIdempotent(snapshot: seq<AgentConfig>, selected: seq<AgentConfig>, durable: seq<AgentConfig>)
    ensures Merged(snapshot, selected, Merged(snapshot, selected, durable)) == Merged(snapshot, selected, durable)
  {
    var once := Merged(snapshot, selected, durable);
    MergeKeepsIds(snapshot, selected, durable);
    forall j | 0 <= j < |durable|
      ensures MergedEntry(snapshot, selected, once, j) == once[j]
    {
      assert once[j] == MergedEntry(snapshot, selected, durable, j);
      assert once[j].sessionId == durable[j].sessionId;
    }
    assert Merged(snapshot, selected, once) == once;
  }

  /** With distinct ids the rule reads as promised: an agent that is live and was
      selected gets its runtime configuration iff nobody changed its durable one
      since; an agent removed from disk does not come back; everybody keeps their
      place. */
  lemma MergeRespectsDurableChanges(snapshot: seq<AgentConfig>, selected: seq<AgentConfig>, durable: seq<AgentConfig>)
    requires DistinctIds(snapshot) && DistinctIds(selected) && DistinctIds(durable)
    ensures var merged := Merged(snapshot, selected, durable);
            && Ids(merged) == Ids(durable)
            && (forall r, s, j | 0 <= r < |snapshot| && 0 <= s < |selected| && 0 <= j < |durable|
                  && snapshot[r].sessionId == selected[s].sessionId == durable[j].sessionId ::
                  merged[j] == if durable[j] == selected[s] then snapshot[r] else durable[j])
            && (forall j | 0 <= j < |durable|
                  && (durable[j].sessionId !in Ids(snapshot) || durable[j].sessionId !in Ids(selected)) ::
                  merged[j] == durable[j])
  {
    MergeKeepsIds(snapshot, selected, durable);
    hide Find;
    var merged := Merged(snapshot, selected, durable);
    forall r, s, j | 0 <= r < |snapshot| && 0 <= s < |selected| && 0 <= j < |durable|
        && snapshot[r].sessionId == selected[s].sessionId == durable[j].sessionId
      ensures merged[j] == if durable[j] == selected[s] then snapshot[r] else durable[j]
    {
      FindWhenDistinct(snapshot, r);
      FindWhenDistinct(selected, s);
      FindWhenDistinct(durable, j);
    }
    forall j | 0 <= j < |durable|
        && (durable[j].sessionId !in Ids(snapshot) || durable[j].sessionId !in Ids(selected))
      ensures merged[j] == durable[j]
    {
      FindWhenMissing(snapshot, durable[j].sessionId);
      FindWhenMissing(selected, durable[j].sessionId);
    }
  }

  lemma FindWhenDistinct(configs: seq<AgentConfig>, j: nat)
    requires DistinctIds(configs) && j < |configs|
    ensures Find(configs, configs[j].sessionId) == Some(j)
  {}

  lemma FindWhenMissing(configs: seq<AgentConfig>, id: string)
    ensures id !in Ids(configs) ==> Find(configs, id).None?
  {
    var place := Find(configs, id);
    if place.Some? {
      assert Ids(configs)[place.value] == id;
    }
  }
}
