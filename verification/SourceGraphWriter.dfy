/** source_graph_writer.py: deduplicate one source's extraction output and plan its transactions. */
module SourceGraphWriter {
  import opened Prelude
  import opened MapFold
  import opened Metadata
  import opened Ordering
  import opened Graph
  import opened BatchedWrite

  // ----- what grouping a list by identity means -----

  function CombineEntities(seen: Option<EntityItem>, e: EntityItem): EntityItem {
    match seen
    case None => e.(metadata := MergedChunks([e.metadata]))
    case Some(c) =>
      c.(embedding := if c.embedding.None? then e.embedding else c.embedding,
         name := if c.name == "" then e.name else c.name,
         kind := if c.kind == "" then e.kind else c.kind,
         metadata := MergedChunks([c.metadata, e.metadata]))
  }

  function CombineMentions(seen: Option<MentionItem>, m: MentionItem): MentionItem {
    match seen
    case None => m
    case Some(c) => c.(confidence := Max(c.confidence, m.confidence))
  }

  function MergeSourceFiles(left: Option<seq<string>>, right: Option<seq<string>>): Option<seq<string>> {
    if left.None? then right
    else if right.None? then left
    else Some(AppendNew(left.value, right.value))
  }

  function CombineRelations(seen: Option<RelationItem>, r: RelationItem): RelationItem {
    match seen
    case None => r
    case Some(c) => c.(weight := (c.weight + r.weight) / 2.0, files := MergeSourceFiles(c.files, r.files))
  }

  function EntityGrouping(): Upsert<Id, EntityItem, EntityItem> {
    Upsert((e: EntityItem) => e.id, (s, e) => CombineEntities(s, e))
  }

  function MentionGrouping(): Upsert<Edge, MentionItem, MentionItem> {
    Upsert((m: MentionItem) => MentionEdge(m), (s, m) => CombineMentions(s, m))
  }

  function RelationGrouping(): Upsert<RelationKey, RelationItem, RelationItem> {
    Upsert((r: RelationItem) => KeyOf(r), (s, r) => CombineRelations(s, r))
  }

  function EntityRank(e: EntityItem): seq<string> { [e.id] }

  function MentionRank(m: MentionItem): seq<string> { [m.doc, m.ent] }

  function RelationRank(r: RelationItem): seq<string> { [r.source, r.target, r.kind] }

  function Grouped<K, V>(u: Upsert<K, V, V>, items: seq<V>): map<K, V> {
    ApplyAll(u, map[], items)
  }

  /** `out` lists the values of the grouping, sorted strictly by their identity. */
  ghost predicate IsDeduplicated<K, V>(u: Upsert<K, V, V>, rank: V -> seq<string>, items: seq<V>, out: seq<V>) {
    var m := Grouped(u, items);
    && StrictlySorted(out, rank)
    && (forall i :: 0 <= i < |out| ==> u.key(out[i]) in m && m[u.key(out[i])] == out[i])
    && (forall k :: k in m ==> m[k] in out)
  }

  /** Dictionary values in insertion order, sorted. */
  method SortedValues<K, V(!new)>(ghost u: Upsert<K, V, V>, rank: V -> seq<string>, ghost items: seq<V>,
                            grouped: map<K, V>, order: seq<K>) returns (out: seq<V>)
    requires Distinct(order) && (forall k :: k in order <==> k in grouped)
    requires grouped == Grouped(u, items)
    requires forall k :: k in grouped ==> u.key(grouped[k]) == k
    requires forall v, w :: rank(v) == rank(w) ==> u.key(v) == u.key(w)
    ensures IsDeduplicated(u, rank, items, out)
  {
    var values := seq(|order|, i requires 0 <= i < |order| => assert order[i] in order; grouped[order[i]]);
    forall i, j | 0 <= i < j < |values| ensures rank(values[i]) != rank(values[j]) {
      assert order[i] in order && order[j] in order;
      assert u.key(values[i]) == order[i] && u.key(values[j]) == order[j];
    }
    out := SortBy(values, rank);
    SortSorted(values, rank);
    forall i | 0 <= i < |out| ensures u.key(out[i]) in grouped && grouped[u.key(out[i])] == out[i] {
      SortMembers(values, rank, out[i]);
      var j :| 0 <= j < |values| && values[j] == out[i];
      assert order[j] in order;
    }
    forall k | k in grouped ensures grouped[k] in out {
      var j :| 0 <= j < |order| && order[j] == k;
      assert values[j] == grouped[k];
      SortMembers(values, rank, grouped[k]);
    }
  }

  // ----- the three loops -----

  /** Grouping one value alone gives it back, and the group's value keeps the group's key. */
  ghost predicate Settled<K, V>(u: Upsert<K, V, V>, v: V) {
    u.merge(None, v) == v
  }

  ghost predicate Settling<K, V(!new)>(u: Upsert<K, V, V>) {
    && (forall v :: u.key(u.merge(None, v)) == u.key(v) && Settled(u, u.merge(None, v)))
    && (forall c, v :: u.key(u.merge(Some(c), v)) == u.key(c) && Settled(u, u.merge(Some(c), v)))
  }

  lemma EntitiesSettle()
    ensures Settling(EntityGrouping())
  {
    var u := EntityGrouping();
    forall v: EntityItem ensures u.key(u.merge(None, v)) == u.key(v) && Settled(u, u.merge(None, v)) {
      MergedChunksAppend([v.metadata], []);
      assert [MergedChunks([v.metadata])] + [] == [MergedChunks([v.metadata])] && [v.metadata] + [] == [v.metadata];
    }
    forall c: EntityItem, v: EntityItem
      ensures u.key(u.merge(Some(c), v)) == u.key(c) && Settled(u, u.merge(Some(c), v))
    {
      var raws := [c.metadata, v.metadata];
      MergedChunksAppend(raws, []);
      assert [MergedChunks(raws)] + [] == [MergedChunks(raws)] && raws + [] == raws;
    }
  }

  lemma {:induction false} GroupedSettled<K, V(!new)>(u: Upsert<K, V, V>, items: seq<V>)
    requires Settling(u)
    ensures forall k :: k in Grouped(u, items) ==> u.key(Grouped(u, items)[k]) == k && Settled(u, Grouped(u, items)[k])
  {
    if items != [] {
      var shorter, v := items[..|items| - 1], items[|items| - 1];
      GroupedSettled(u, shorter);
      var m := Grouped(u, shorter);
      assert Grouped(u, items) == m[u.key(v) := u.merge(Get(m, u.key(v)), v)];
      if u.key(v) in m {
        assert Get(m, u.key(v)) == Some(m[u.key(v)]);
        assert Settled(u, m[u.key(v)]);
      } else {
        assert Settled(u, u.merge(None, v));
      }
    }
  }

  method GroupEntities(entities: seq<EntityItem>)
    returns (grouped: map<Id, EntityItem>, metadata: map<Id, seq<Accumulated>>, order: seq<Id>)
    ensures Distinct(order) && (forall k :: k in order <==> k in grouped)
    ensures RawGroups(grouped, metadata, Grouped(EntityGrouping(), entities))
  {
    grouped, metadata, order := map[], map[], [];
    for n := 0 to |entities|
      invariant Distinct(order) && (forall k :: k in order <==> k in grouped)
      invariant RawGroups(grouped, metadata, Grouped(EntityGrouping(), entities[..n]))
    {
      var e := entities[n];
      assert entities[..n + 1][..n] == entities[..n];
      ghost var g := Grouped(EntityGrouping(), entities[..n]);
      assert Grouped(EntityGrouping(), entities[..n + 1]) == g[e.id := CombineEntities(Get(g, e.id), e)];
      RawGroupsStep(grouped, metadata, g, e);
      if e.id !in grouped {
        DistinctPush(order, e.id);
        metadata := metadata[e.id := [e.metadata]];
        grouped := grouped[e.id := e];
        order := order + [e.id];
      } else {
        metadata := metadata[e.id := metadata[e.id] + [e.metadata]];
        var current := grouped[e.id];
        if current.embedding.None? && e.embedding.Some? {
          current := current.(embedding := e.embedding);
        }
        if current.name == "" && e.name != "" {
          current := current.(name := e.name);
        }
        if current.kind == "" && e.kind != "" {
          current := current.(kind := e.kind);
        }
        assert current == RawCombine(grouped[e.id], e);
        grouped := grouped[e.id := current];
      }
    }
    assert entities[..|entities|] == entities;
  }

  /** The dictionaries before the metadata lists are merged: everything but the metadata is final. */
  ghost predicate RawGroups(grouped: map<Id, EntityItem>, metadata: map<Id, seq<Accumulated>>, final: map<Id, EntityItem>) {
    && grouped.Keys == metadata.Keys == final.Keys
    && (forall k :: k in grouped ==> grouped[k].(metadata := MergedChunks(metadata[k])) == final[k])
  }

  function RawCombine(current: EntityItem, e: EntityItem): EntityItem {
    current.(embedding := if current.embedding.None? then e.embedding else current.embedding,
             name := if current.name == "" then e.name else current.name,
             kind := if current.kind == "" then e.kind else current.kind)
  }

  /** One more item: the dictionaries stay the grouping without its metadata. */
  lemma RawGroupsStep(grouped: map<Id, EntityItem>, metadata: map<Id, seq<Accumulated>>, final: map<Id, EntityItem>, e: EntityItem)
    requires RawGroups(grouped, metadata, final)
    ensures var next := final[e.id := CombineEntities(Get(final, e.id), e)];
            if e.id !in grouped then RawGroups(grouped[e.id := e], metadata[e.id := [e.metadata]], next)
            else RawGroups(grouped[e.id := RawCombine(grouped[e.id], e)], metadata[e.id := metadata[e.id] + [e.metadata]], next)
  {
    if e.id in grouped {
      RawMerged(grouped[e.id], metadata[e.id], final[e.id], e);
    }
  }

  lemma RawMerged(current: EntityItem, raws: seq<Accumulated>, final: EntityItem, e: EntityItem)
    requires current.(metadata := MergedChunks(raws)) == final
    ensures RawCombine(current, e).(metadata := MergedChunks(raws + [e.metadata])) == CombineEntities(Some(final), e)
  {
    MergedChunksAppend(raws, [e.metadata]);
    assert [MergedChunks(raws)] + [e.metadata] == [MergedChunks(raws), e.metadata];
  }

  method DedupeEntities(entities: seq<EntityItem>) returns (out: seq<EntityItem>)
    ensures IsDeduplicated(EntityGrouping(), EntityRank, entities, out)
  {
    var grouped, metadata, order := GroupEntities(entities);
    grouped := MergeGroupMetadata(grouped, metadata, order, Grouped(EntityGrouping(), entities));
    EntitiesSettle();
    GroupedSettled(EntityGrouping(), entities);
    forall v: EntityItem, w: EntityItem | EntityRank(v) == EntityRank(w) ensures v.id == w.id {
      assert EntityRank(v)[0] == EntityRank(w)[0];
    }
    out := SortedValues(EntityGrouping(), EntityRank, entities, grouped, order);
  }

  /** The second loop of `_dedupe_entities`. */
  method MergeGroupMetadata(raw: map<Id, EntityItem>, metadata: map<Id, seq<Accumulated>>, order: seq<Id>, ghost final: map<Id, EntityItem>)
    returns (grouped: map<Id, EntityItem>)
    requires Distinct(order) && (forall k :: k in order <==> k in raw) && RawGroups(raw, metadata, final)
    ensures grouped == final
  {
    grouped := raw;
    for n := 0 to |order|
      invariant grouped.Keys == raw.Keys
      invariant forall i :: 0 <= i < n ==> order[i] in grouped && grouped[order[i]] == final[order[i]]
      invariant forall i :: n <= i < |order| ==> order[i] in grouped && grouped[order[i]] == raw[order[i]]
    {
      var merged := MergeChunkMetadata(metadata[order[n]]);
      grouped := grouped[order[n] := grouped[order[n]].(metadata := merged)];
    }
    forall k | k in grouped ensures grouped[k] == final[k] {
      assert k in order;
      var i :| 0 <= i < |order| && order[i] == k;
    }
  }

  method DedupeMentions(mentions: seq<MentionItem>) returns (out: seq<MentionItem>)
    ensures IsDeduplicated(MentionGrouping(), MentionRank, mentions, out)
  {
    var grouped: map<Edge, MentionItem> := map[];
    var order: seq<Edge> := [];
    for n := 0 to |mentions|
      invariant Distinct(order) && (forall k :: k in order <==> k in grouped)
      invariant grouped == Grouped(MentionGrouping(), mentions[..n])
    {
      var m := mentions[n];
      assert mentions[..n + 1][..n] == mentions[..n];
      var key := Edge(m.doc, m.ent);
      if key !in grouped {
        grouped := grouped[key := m];
        order := order + [key];
      } else {
        var current := grouped[key];
        grouped := grouped[key := current.(confidence := Max(current.confidence, m.confidence))];
      }
    }
    assert mentions[..|mentions|] == mentions;
    GroupedSettled(MentionGrouping(), mentions);
    forall v: MentionItem, w: MentionItem | MentionRank(v) == MentionRank(w) ensures MentionEdge(v) == MentionEdge(w) {
      assert MentionRank(v)[0] == MentionRank(w)[0] && MentionRank(v)[1] == MentionRank(w)[1];
    }
    out := SortedValues(MentionGrouping(), MentionRank, mentions, grouped, order);
  }

  method DedupeRelations(relations: seq<RelationItem>) returns (out: seq<RelationItem>)
    ensures IsDeduplicated(RelationGrouping(), RelationRank, relations, out)
  {
    var grouped: map<RelationKey, RelationItem> := map[];
    var order: seq<RelationKey> := [];
    for n := 0 to |relations|
      invariant Distinct(order) && (forall k :: k in order <==> k in grouped)
      invariant grouped == Grouped(RelationGrouping(), relations[..n])
    {
      var r := relations[n];
      assert relations[..n + 1][..n] == relations[..n];
      var key := RelationKey(r.source, r.target, r.kind);
      if key !in grouped {
        grouped := grouped[key := r];
        order := order + [key];
      } else {
        var current := grouped[key];
        current := current.(weight := (current.weight + r.weight) / 2.0);
        current := current.(files := MergeSourceFiles(current.files, r.files));
        grouped := grouped[key := current];
      }
    }
    assert relations[..|relations|] == relations;
    GroupedSettled(RelationGrouping(), relations);
    forall v: RelationItem, w: RelationItem | RelationRank(v) == RelationRank(w) ensures KeyOf(v) == KeyOf(w) {
      assert RelationRank(v)[0] == RelationRank(w)[0] && RelationRank(v)[1] == RelationRank(w)[1] && RelationRank(v)[2] == RelationRank(w)[2];
    }
    out := SortedValues(RelationGrouping(), RelationRank, relations, grouped, order);
  }

  // ----- planning -----

  datatype PlanError = MaxItemsBelowOne

  /** `plan_write_transactions`. */
  method PlanWriteTransactions(p: Plan, maxItems: int) returns (r: Result<seq<Plan>, PlanError>)
    ensures r.Err? <==> maxItems < 1
    ensures r.Ok? ==> Planned(p, maxItems, r.value)
  {
    if maxItems < 1 {
      return Err(MaxItemsBelowOne);
    }
    if |p.entities| + |p.relations| <= maxItems {
      return Ok([p]);
    }
    var entityPlans := PlanEntities(p, maxItems);
    var relationPlans := PlanRelations(p.relations, maxItems);
    return Ok(entityPlans + relationPlans);
  }

  method PlanEntities(p: Plan, maxItems: nat) returns (plans: seq<Plan>)
    requires maxItems >= 1
    ensures var ec := Chunks(p.entities, maxItems);
            |plans| == |ec| && forall c :: 0 <= c < |ec| ==> EntityPlan(plans[c], ec[c], p.mentions)
  {
    var mentionsByEntity := GroupByEntity(p.mentions);
    var chunks := Slices(p.entities, maxItems);
    plans := [];
    for n := 0 to |chunks|
      invariant |plans| == n
      invariant forall c :: 0 <= c < n ==> EntityPlan(plans[c], chunks[c], p.mentions)
    {
      var chosen := ChooseMentions(chunks[n], p.mentions, mentionsByEntity);
      plans := plans + [Plan(chunks[n], chosen, [])];
    }
  }

  method PlanRelations(relations: seq<RelationItem>, maxItems: nat) returns (plans: seq<Plan>)
    requires maxItems >= 1
    ensures var rc := Chunks(relations, maxItems);
            |plans| == |rc| && forall c :: 0 <= c < |rc| ==> plans[c] == Plan([], [], rc[c])
  {
    var chunks := Slices(relations, maxItems);
    plans := [];
    for n := 0 to |chunks|
      invariant |plans| == n
      invariant forall c :: 0 <= c < n ==> plans[c] == Plan([], [], chunks[c])
    {
      plans := plans + [Plan([], [], chunks[n])];
    }
  }

  function MentionsNaming(mentions: seq<MentionItem>, id: Id): seq<MentionItem> {
    Filter(mentions, (m: MentionItem) => m.ent == id)
  }

  /** `mentions_by_entity`: each entity's mentions, in payload order. */
  ghost predicate ByEntity(byEntity: map<Id, seq<MentionItem>>, mentions: seq<MentionItem>) {
    forall id :: MentionsNaming(mentions, id) == MentionsIn(byEntity, id)
  }

  function MentionsIn(byEntity: map<Id, seq<MentionItem>>, id: Id): seq<MentionItem> {
    if id in byEntity then byEntity[id] else []
  }

  method GroupByEntity(mentions: seq<MentionItem>) returns (byEntity: map<Id, seq<MentionItem>>)
    ensures ByEntity(byEntity, mentions)
  {
    byEntity := map[];
    for n := 0 to |mentions|
      invariant ByEntity(byEntity, mentions[..n])
    {
      var m := mentions[n];
      ghost var before := byEntity;
      byEntity := byEntity[m.ent := MentionsIn(byEntity, m.ent) + [m]];
      forall id ensures MentionsNaming(mentions[..n + 1], id) == MentionsIn(byEntity, id) {
        assert mentions[..n + 1][..n] == mentions[..n];
        assert MentionsNaming(mentions[..n], id) == MentionsIn(before, id);
      }
    }
    assert mentions[..|mentions|] == mentions;
  }

  /** All occurrences of the mentions that name one of these ids. */
  ghost predicate Chosen(chosen: seq<MentionItem>, mentions: seq<MentionItem>, ids: seq<Id>) {
    && (forall m :: m in chosen <==> m in mentions && m.ent in ids)
    && (forall m :: m in chosen ==> multiset(chosen)[m] == multiset(mentions)[m])
    && (UniqueKeys(MentionUpsert(), mentions) ==> UniqueKeys(MentionUpsert(), chosen))
  }

  lemma {:induction false} NamingCount(mentions: seq<MentionItem>, id: Id, m: MentionItem)
    ensures multiset(MentionsNaming(mentions, id))[m] == if m.ent == id then multiset(mentions)[m] else 0
  {
    if mentions != [] {
      assert mentions == mentions[..|mentions| - 1] + [mentions[|mentions| - 1]];
      NamingCount(mentions[..|mentions| - 1], id, m);
    }
  }

  lemma ChosenStep(chosen: seq<MentionItem>, mentions: seq<MentionItem>, ids: seq<Id>, n: nat)
    requires n < |ids| && Distinct(ids) && Chosen(chosen, mentions, ids[..n])
    ensures Chosen(chosen + MentionsNaming(mentions, ids[n]), mentions, ids[..n + 1])
  {
    var more := MentionsNaming(mentions, ids[n]);
    assert ids[n] !in ids[..n];
    forall m | m in chosen + more ensures multiset(chosen + more)[m] == multiset(mentions)[m] {
      NamingCount(mentions, ids[n], m);
      assert m !in chosen ==> multiset(chosen)[m] == 0;
    }
    if UniqueKeys(MentionUpsert(), mentions) {
      ChosenUnique(chosen, mentions, ids[n]);
    }
  }

  lemma ChosenUnique(chosen: seq<MentionItem>, mentions: seq<MentionItem>, id: Id)
    requires UniqueKeys(MentionUpsert(), mentions) && UniqueKeys(MentionUpsert(), chosen)
    requires forall m :: m in chosen ==> m.ent != id
    ensures UniqueKeys(MentionUpsert(), chosen + MentionsNaming(mentions, id))
  {
    var more := MentionsNaming(mentions, id);
    UniqueFilter(MentionUpsert(), mentions, (m: MentionItem) => m.ent == id);
    forall i, j | 0 <= i < |chosen| && 0 <= j < |more| ensures MentionEdge(chosen[i]) != MentionEdge(more[j]) {
      assert chosen[i] in chosen && more[j] in more;
    }
  }

  method ChooseMentions(chunk: seq<EntityItem>, mentions: seq<MentionItem>, byEntity: map<Id, seq<MentionItem>>)
    returns (chosen: seq<MentionItem>)
    requires ByEntity(byEntity, mentions)
    ensures ChunkMentions(chosen, chunk, mentions)
    ensures forall m :: m in chosen ==> multiset(chosen)[m] == multiset(mentions)[m]
  {
    var entityIds := set e | e in chunk :: e.id;
    var ids := Rows(entityIds);
    chosen := [];
    for n := 0 to |ids|
      invariant Chosen(chosen, mentions, ids[..n])
    {
      ChosenStep(chosen, mentions, ids, n);
      chosen := chosen + MentionsIn(byEntity, ids[n]);
    }
    assert ids[..|ids|] == ids;
    forall id ensures id in entityIds <==> id in Ids(chunk) {
      if id in entityIds {
        var e :| e in chunk && e.id == id;
        KeysMember(EntityUpsert(), chunk, e);
      }
      if id in Ids(chunk) {
        var i :| 0 <= i < |chunk| && EntityUpsert().key(chunk[i]) == id;
        assert chunk[i] in chunk;
      }
    }
  }
}
