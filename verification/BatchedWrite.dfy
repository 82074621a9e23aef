/** Splitting a source's write into a sequence of transactions gives the graph one transaction gives. */
module BatchedWrite {
  import opened Prelude
  import opened MapFold
  import opened Metadata
  import opened Graph

  // ----- what the writer's plans look like -----

  ghost function Ids(items: seq<EntityItem>): set<Id> {
    Keys(EntityUpsert(), items)
  }

  /** Every mention names an entity of the same payload. */
  ghost predicate Closed(entities: seq<EntityItem>, mentions: seq<MentionItem>) {
    forall m :: m in mentions ==> m.ent in Ids(entities)
  }

  ghost predicate Deduplicated(p: Plan) {
    && UniqueKeys(EntityUpsert(), p.entities)
    && UniqueKeys(MentionUpsert(), p.mentions)
    && UniqueKeys(RelationUpsert(), p.relations)
  }

  /** `chosen` are the mentions of a chunk's entities, in whatever order the set of ids is iterated. */
  ghost predicate ChunkMentions(chosen: seq<MentionItem>, chunk: seq<EntityItem>, mentions: seq<MentionItem>) {
    && (forall m :: m in chosen <==> m in mentions && m.ent in Ids(chunk))
    && (UniqueKeys(MentionUpsert(), mentions) ==> UniqueKeys(MentionUpsert(), chosen))
  }

  /** What `plan_write_transactions` returns. */
  ghost predicate Planned(p: Plan, maxItems: nat, plans: seq<Plan>)
    requires maxItems >= 1
  {
    if |p.entities| + |p.relations| <= maxItems then plans == [p]
    else Split(p, Chunks(p.entities, maxItems), Chunks(p.relations, maxItems), plans)
  }

  ghost predicate Split(p: Plan, entityChunks: seq<seq<EntityItem>>, relationChunks: seq<seq<RelationItem>>, plans: seq<Plan>) {
    && |plans| == |entityChunks| + |relationChunks|
    && (forall c :: 0 <= c < |entityChunks| ==> EntityPlan(plans[c], entityChunks[c], p.mentions))
    && (forall c :: 0 <= c < |relationChunks| ==> plans[|entityChunks| + c] == Plan([], [], relationChunks[c]))
  }

  ghost predicate EntityPlan(plan: Plan, chunk: seq<EntityItem>, mentions: seq<MentionItem>) {
    plan.entities == chunk && plan.relations == [] && ChunkMentions(plan.mentions, chunk, mentions)
  }

  // ----- one transaction, node by node and edge by edge -----

  ghost predicate Attached(g: Graph, mentions: seq<MentionItem>, id: Id) {
    exists m :: m in mentions && m.ent == id && m.doc in g.documents
  }

  lemma ClosedLinks(g: Graph, g1: Graph, entities: seq<EntityItem>, mentions: seq<MentionItem>)
    requires Closed(entities, mentions)
    requires g1.documents == g.documents && Ids(entities) <= g1.entities.Keys
    ensures Linked(g1, mentions) == Filter(mentions, (m: MentionItem) => m.doc in g.documents)
  {
    FilterSame(mentions,
      (m: MentionItem) => m.doc in g1.documents && m.ent in g1.entities,
      (m: MentionItem) => m.doc in g.documents);
  }

  ghost function AttachedMentions(g: Graph, mentions: seq<MentionItem>): seq<MentionItem> {
    Filter(mentions, (m: MentionItem) => m.doc in g.documents)
  }

  ghost function ProvenanceOf(g: Graph, mentions: seq<MentionItem>): set<Edge> {
    set m | m in AttachedMentions(g, mentions) :: MentionEdge(m)
  }

  /** The parts of the committed graph a payload without relations produces. */
  lemma TxParts(g: Graph, p: Plan)
    requires Deduplicated(p) && Closed(p.entities, p.mentions)
    ensures var h := WriteTx(g, p.(relations := []));
            && h.documents == g.documents && h.similar == g.similar && h.relations == g.relations
            && h.entities.Keys == g.entities.Keys + Ids(p.entities)
            && h.mentions == ApplyAll(MentionUpsert(), g.mentions, AttachedMentions(g, p.mentions))
            && h.provenance == g.provenance + ProvenanceOf(g, p.mentions)
  {
    var written := Overwritten(g.entities, p.entities);
    OverwrittenKeys(g.entities, p.entities);
    ApplyKeys(EntityUpsert(), g.entities, written);
    var g1 := WriteEntities(g, written);
    ClosedLinks(g, g1, p.entities, p.mentions);
    var g2 := WriteMentions(g1, p.mentions);
    ClosedLinks(g, g2, p.entities, p.mentions);
    var g3 := WriteProvenance(g2, p.mentions);
    assert Joined(g3, []) == [];
    assert WriteTx(g, p.(relations := [])) == WriteRelations(g3, []);
  }

  lemma OverwrittenKeys(entities: map<Id, Entity>, items: seq<EntityItem>)
    ensures Keys(EntityUpsert(), Overwritten(entities, items)) == Keys(EntityUpsert(), items)
    ensures UniqueKeys(EntityUpsert(), items) ==> UniqueKeys(EntityUpsert(), Overwritten(entities, items))
  {
    var o := Overwritten(entities, items);
    assert forall i :: 0 <= i < |items| ==> o[i].id == items[i].id;
    forall k | k in Keys(EntityUpsert(), o) ensures k in Keys(EntityUpsert(), items) {
      var i :| 0 <= i < |o| && EntityUpsert().key(o[i]) == k;
      assert EntityUpsert().key(items[i]) == k;
    }
    forall k | k in Keys(EntityUpsert(), items) ensures k in Keys(EntityUpsert(), o) {
      var i :| 0 <= i < |items| && EntityUpsert().key(items[i]) == k;
      assert EntityUpsert().key(o[i]) == k;
    }
  }

  /** A payload entity after the transaction: upserted with the merged metadata, tracked once a
      mention of it found its document. */
  lemma TxEntity(g: Graph, p: Plan, i: nat)
    requires Deduplicated(p) && Closed(p.entities, p.mentions) && i < |p.entities|
    ensures var item := p.entities[i];
            var e := MergeEntity(Get(g.entities, item.id), OverwrittenItem(g.entities, item));
            Get(WriteTx(g, p.(relations := [])).entities, item.id)
              == Some(e.(tracked := e.tracked || Attached(g, p.mentions, item.id)))
  {
    var item := p.entities[i];
    var written := Overwritten(g.entities, p.entities);
    OverwrittenKeys(g.entities, p.entities);
    ApplyKeys(EntityUpsert(), g.entities, written);
    ApplyAt(EntityUpsert(), g.entities, written, i);
    var g1 := WriteEntities(g, written);
    TrackedOnceLinked(g, WriteMentions(g1, p.mentions), p, item.id);
  }

  lemma TrackedOnceLinked(g: Graph, g2: Graph, p: Plan, id: Id)
    requires Closed(p.entities, p.mentions) && g2.documents == g.documents && Ids(p.entities) <= g2.entities.Keys && id in g2.entities
    ensures var h := WriteRelations(WriteProvenance(g2, p.mentions), []);
            Get(h.entities, id) == Some(g2.entities[id].(tracked := g2.entities[id].tracked || Attached(g, p.mentions, id)))
  {
    ClosedLinks(g, g2, p.entities, p.mentions);
    var linked := Linked(g2, p.mentions);
    assert (exists m :: m in linked && m.ent == id) == Attached(g, p.mentions, id);
  }

  /** An entity outside the payload is not touched. */
  lemma TxOther(g: Graph, p: Plan, id: Id)
    requires Deduplicated(p) && Closed(p.entities, p.mentions) && id !in Ids(p.entities)
    ensures Get(WriteTx(g, p.(relations := [])).entities, id) == Get(g.entities, id)
  {
    var written := Overwritten(g.entities, p.entities);
    OverwrittenKeys(g.entities, p.entities);
    ApplyUntouched(EntityUpsert(), g.entities, written, id);
    ApplyKeys(EntityUpsert(), g.entities, written);
    var g1 := WriteEntities(g, written);
    ClosedLinks(g, g1, p.entities, p.mentions);
    ClosedLinks(g, WriteMentions(g1, p.mentions), p.entities, p.mentions);
  }

  /** Everything a transaction without relations does, stated without its statements. */
  ghost predicate Wrote(g: Graph, entities: seq<EntityItem>, mentions: seq<MentionItem>, h: Graph) {
    && h.documents == g.documents && h.similar == g.similar && h.relations == g.relations
    && h.entities.Keys == g.entities.Keys + Ids(entities)
    && (forall i :: 0 <= i < |entities| ==> WroteItem(g, entities[i], mentions, h))
    && (forall id :: id !in Ids(entities) ==> Get(h.entities, id) == Get(g.entities, id))
    && h.mentions == ApplyAll(MentionUpsert(), g.mentions, AttachedMentions(g, mentions))
    && h.provenance == g.provenance + ProvenanceOf(g, mentions)
  }

  /** A payload entity: named by the item, its kind added to the types of a node that is there already
      and the first of a new one, embedded anew if the item has an embedding, without a concept tag, its
      metadata merged, and tracked once a mention of it found its document. */
  ghost predicate WroteItem(g: Graph, item: EntityItem, mentions: seq<MentionItem>, h: Graph) {
    && item.id in h.entities
    && var e, there := h.entities[item.id], item.id in g.entities;
       && e.name == item.name && e.conceptGen == None && !e.conceptInactive
       && e.metadata == AsStored(Merged(if there then g.entities[item.id].metadata else NoMetadata, item.metadata))
       && e.kind == (if there then g.entities[item.id].kind else Some(item.kind))
       && e.types == (if !there then [item.kind]
                      else if item.kind in g.entities[item.id].types then g.entities[item.id].types
                      else g.entities[item.id].types + [item.kind])
       && e.embedding == (if there && item.embedding.None? then g.entities[item.id].embedding else item.embedding)
       && (e.tracked <==> (there && g.entities[item.id].tracked) || Attached(g, mentions, item.id))
  }

  lemma TxWrote(g: Graph, p: Plan)
    requires Deduplicated(p) && Closed(p.entities, p.mentions)
    ensures Wrote(g, p.entities, p.mentions, WriteTx(g, p.(relations := [])))
  {
    var h := WriteTx(g, p.(relations := []));
    TxParts(g, p);
    forall i | 0 <= i < |p.entities| ensures WroteItem(g, p.entities[i], p.mentions, h) {
      TxEntity(g, p, i);
    }
    forall id | id !in Ids(p.entities) ensures Get(h.entities, id) == Get(g.entities, id) {
      TxOther(g, p, id);
    }
  }

  // ----- two batches are one -----

  lemma MergeMentions(g: Graph, e1: seq<EntityItem>, m1: seq<MentionItem>, e2: seq<EntityItem>, m2: seq<MentionItem>, ms: seq<MentionItem>)
    requires UniqueKeys(EntityUpsert(), e1 + e2)
    requires UniqueKeys(MentionUpsert(), m1) && UniqueKeys(MentionUpsert(), m2) && UniqueKeys(MentionUpsert(), ms)
    requires Closed(e1, m1) && Closed(e2, m2)
    requires forall m :: m in ms <==> m in m1 || m in m2
    ensures ApplyAll(MentionUpsert(), ApplyAll(MentionUpsert(), g.mentions, AttachedMentions(g, m1)), AttachedMentions(g, m2))
         == ApplyAll(MentionUpsert(), g.mentions, AttachedMentions(g, ms))
  {
    var u := MentionUpsert();
    var a1, a2, a := AttachedMentions(g, m1), AttachedMentions(g, m2), AttachedMentions(g, ms);
    var inDocs := (m: MentionItem) => m.doc in g.documents;
    ApplyAppend(u, g.mentions, a1, a2);
    UniqueFilter(u, m1, inDocs);
    UniqueFilter(u, m2, inDocs);
    UniqueFilter(u, ms, inDocs);
    UniqueAppend(EntityUpsert(), e1, e2);
    forall i, j | 0 <= i < j < |a1 + a2| ensures u.key((a1 + a2)[i]) != u.key((a1 + a2)[j]) {
      if i < |a1| <= j {
        assert a1[i] in m1 && a2[j - |a1|] in m2;
      }
    }
    ApplyPermuted(u, g.mentions, a1 + a2, a);
  }

  lemma MergeWroteEntity(g: Graph, e1: seq<EntityItem>, m1: seq<MentionItem>, h1: Graph,
                         e2: seq<EntityItem>, m2: seq<MentionItem>, h2: Graph,
                         ms: seq<MentionItem>, h: Graph, id: Id)
    requires UniqueKeys(EntityUpsert(), e1 + e2)
    requires Closed(e1, m1) && Closed(e2, m2)
    requires forall m :: m in ms <==> m in m1 || m in m2
    requires Wrote(g, e1, m1, h1) && Wrote(h1, e2, m2, h2) && Wrote(g, e1 + e2, ms, h)
    ensures Get(h2.entities, id) == Get(h.entities, id)
  {
    UniqueAppend(EntityUpsert(), e1, e2);
    KeysAppend(EntityUpsert(), e1, e2);
    if id in Ids(e1) {
      var i :| 0 <= i < |e1| && EntityUpsert().key(e1[i]) == id;
      assert (e1 + e2)[i] == e1[i];
      assert Attached(g, ms, id) == Attached(g, m1, id);
      WroteInFirst(g, e1[i], m1, h1, h2, ms, h);
    } else if id in Ids(e2) {
      var i :| 0 <= i < |e2| && EntityUpsert().key(e2[i]) == id;
      assert (e1 + e2)[|e1| + i] == e2[i];
      assert Attached(g, ms, id) == Attached(h1, m2, id);
      WroteInSecond(g, e2[i], h1, m2, h2, ms, h);
    } else {
      assert Get(h.entities, id) == Get(g.entities, id);
    }
  }

  lemma WroteInFirst(g: Graph, item: EntityItem, m1: seq<MentionItem>, h1: Graph, h2: Graph, ms: seq<MentionItem>, h: Graph)
    requires WroteItem(g, item, m1, h1) && WroteItem(g, item, ms, h)
    requires Get(h2.entities, item.id) == Get(h1.entities, item.id)
    requires Attached(g, ms, item.id) == Attached(g, m1, item.id)
    ensures Get(h2.entities, item.id) == Get(h.entities, item.id)
  {
  }

  lemma WroteInSecond(g: Graph, item: EntityItem, h1: Graph, m2: seq<MentionItem>, h2: Graph, ms: seq<MentionItem>, h: Graph)
    requires WroteItem(h1, item, m2, h2) && WroteItem(g, item, ms, h)
    requires Get(h1.entities, item.id) == Get(g.entities, item.id)
    requires Attached(g, ms, item.id) == Attached(h1, m2, item.id)
    ensures Get(h2.entities, item.id) == Get(h.entities, item.id)
  {
    assert StoredMetadataOf(h1.entities, item.id) == StoredMetadataOf(g.entities, item.id);
  }

  /** Two entity batches in sequence equal one transaction over both, and the order in which the
      joint mentions are listed does not matter. */
  lemma MergeWrote(g: Graph, e1: seq<EntityItem>, m1: seq<MentionItem>, h1: Graph,
                   e2: seq<EntityItem>, m2: seq<MentionItem>, h2: Graph,
                   ms: seq<MentionItem>, h: Graph)
    requires UniqueKeys(EntityUpsert(), e1 + e2)
    requires UniqueKeys(MentionUpsert(), m1) && UniqueKeys(MentionUpsert(), m2) && UniqueKeys(MentionUpsert(), ms)
    requires Closed(e1, m1) && Closed(e2, m2)
    requires forall m :: m in ms <==> m in m1 || m in m2
    requires Wrote(g, e1, m1, h1) && Wrote(h1, e2, m2, h2) && Wrote(g, e1 + e2, ms, h)
    ensures h2 == h
  {
    MergeEdges(g, e1, m1, h1, e2, m2, h2, ms, h);
    MergeEntities(g, e1, m1, h1, e2, m2, h2, ms, h);
  }

  lemma MergeEdges(g: Graph, e1: seq<EntityItem>, m1: seq<MentionItem>, h1: Graph,
                   e2: seq<EntityItem>, m2: seq<MentionItem>, h2: Graph,
                   ms: seq<MentionItem>, h: Graph)
    requires UniqueKeys(EntityUpsert(), e1 + e2)
    requires UniqueKeys(MentionUpsert(), m1) && UniqueKeys(MentionUpsert(), m2) && UniqueKeys(MentionUpsert(), ms)
    requires Closed(e1, m1) && Closed(e2, m2)
    requires forall m :: m in ms <==> m in m1 || m in m2
    requires Wrote(g, e1, m1, h1) && Wrote(h1, e2, m2, h2) && Wrote(g, e1 + e2, ms, h)
    ensures h2.mentions == h.mentions && h2.provenance == h.provenance
  {
    MergeMentions(g, e1, m1, e2, m2, ms);
    MergeProvenance(g, m1, m2, ms);
    assert AttachedMentions(h1, m2) == AttachedMentions(g, m2);
  }

  lemma MergeEntities(g: Graph, e1: seq<EntityItem>, m1: seq<MentionItem>, h1: Graph,
                      e2: seq<EntityItem>, m2: seq<MentionItem>, h2: Graph,
                      ms: seq<MentionItem>, h: Graph)
    requires UniqueKeys(EntityUpsert(), e1 + e2)
    requires Closed(e1, m1) && Closed(e2, m2)
    requires forall m :: m in ms <==> m in m1 || m in m2
    requires Wrote(g, e1, m1, h1) && Wrote(h1, e2, m2, h2) && Wrote(g, e1 + e2, ms, h)
    ensures h2.entities == h.entities
  {
    forall id ensures Get(h2.entities, id) == Get(h.entities, id) {
      MergeWroteEntity(g, e1, m1, h1, e2, m2, h2, ms, h, id);
    }
    SameEverywhere(h2.entities, h.entities);
  }

  lemma MergeProvenance(g: Graph, m1: seq<MentionItem>, m2: seq<MentionItem>, ms: seq<MentionItem>)
    requires forall m :: m in ms <==> m in m1 || m in m2
    ensures ProvenanceOf(g, m1) + ProvenanceOf(g, m2) == ProvenanceOf(g, ms)
  {
  }

  predicate NamesOneOf(m: MentionItem, entities: seq<EntityItem>) {
    exists i :: 0 <= i < |entities| && entities[i].id == m.ent
  }

  /** The mentions a prefix of the entity chunks carries. */
  function MentionsOf(entities: seq<EntityItem>, mentions: seq<MentionItem>): seq<MentionItem> {
    Filter(mentions, (m: MentionItem) => NamesOneOf(m, entities))
  }

  lemma {:induction false} NoMentionsOf(mentions: seq<MentionItem>)
    ensures MentionsOf([], mentions) == []
  {
    FilterNone(mentions, (m: MentionItem) => NamesOneOf(m, []));
  }

  lemma MentionsOfMeaning(entities: seq<EntityItem>, mentions: seq<MentionItem>)
    requires UniqueKeys(MentionUpsert(), mentions)
    ensures ChunkMentions(MentionsOf(entities, mentions), entities, mentions)
  {
    UniqueFilter(MentionUpsert(), mentions, (m: MentionItem) => NamesOneOf(m, entities));
    forall m ensures m in MentionsOf(entities, mentions) <==> m in mentions && m.ent in Ids(entities) {
      if m.ent in Ids(entities) {
        var i :| 0 <= i < |entities| && EntityUpsert().key(entities[i]) == m.ent;
        assert entities[i].id == m.ent;
      }
      if i :| 0 <= i < |entities| && entities[i].id == m.ent {
        assert EntityUpsert().key(entities[i]) == m.ent;
      }
    }
  }

  lemma OneMorePlan(g: Graph, mentions: seq<MentionItem>, e1: seq<EntityItem>, h1: Graph, e2: seq<EntityItem>, plan: Plan)
    requires UniqueKeys(MentionUpsert(), mentions) && UniqueKeys(EntityUpsert(), e1 + e2)
    requires EntityPlan(plan, e2, mentions) && Wrote(g, e1, MentionsOf(e1, mentions), h1)
    ensures Wrote(g, e1 + e2, MentionsOf(e1 + e2, mentions), WriteTx(h1, plan))
  {
    UniqueAppend(EntityUpsert(), e1, e2);
    KeysAppend(EntityUpsert(), e1, e2);
    TxWrote(h1, plan);
    assert plan.(relations := []) == plan;
    MentionsOfMeaning(e1, mentions);
    MentionsOfMeaning(e1 + e2, mentions);
    var whole := Plan(e1 + e2, MentionsOf(e1 + e2, mentions), []);
    TxWrote(g, whole);
    MergeWrote(g, e1, MentionsOf(e1, mentions), h1, e2, plan.mentions, WriteTx(h1, plan), whole.mentions, WriteTx(g, whole));
  }

  /** Running a prefix of the entity plans writes exactly the entities of those chunks, with their mentions. */
  lemma {:induction false} EntityPlansWrite(g: Graph, mentions: seq<MentionItem>, chunks: seq<seq<EntityItem>>, plans: seq<Plan>)
    requires UniqueKeys(MentionUpsert(), mentions) && UniqueKeys(EntityUpsert(), Concat(chunks))
    requires |plans| == |chunks|
    requires forall c :: 0 <= c < |chunks| ==> EntityPlan(plans[c], chunks[c], mentions)
    ensures Wrote(g, Concat(chunks), MentionsOf(Concat(chunks), mentions), WriteAll(g, plans))
  {
    if chunks == [] {
      NoMentionsOf(mentions);
      NothingWrote(g);
    } else {
      var last := |chunks| - 1;
      var e1 := Concat(chunks[..last]);
      UniqueAppend(EntityUpsert(), e1, chunks[last]);
      EntityPlansWrite(g, mentions, chunks[..last], plans[..last]);
      assert EntityPlan(plans[last], chunks[last], mentions);
      OneMorePlan(g, mentions, e1, WriteAll(g, plans[..last]), chunks[last], plans[last]);
    }
  }

  lemma {:induction false} RelationPlansWrite(g: Graph, chunks: seq<seq<RelationItem>>, plans: seq<Plan>)
    requires |plans| == |chunks|
    requires forall c :: 0 <= c < |chunks| ==> plans[c] == Plan([], [], chunks[c])
    ensures WriteAll(g, plans) == WriteRelations(g, Concat(chunks))
  {
    if chunks == [] {
      assert Joined(g, []) == [];
    } else {
      var last := |chunks| - 1;
      RelationPlansWrite(g, chunks[..last], plans[..last]);
      var h := WriteAll(g, plans[..last]);
      RelationsOnly(h, chunks[last]);
      WriteRelationsAppend(g, Concat(chunks[..last]), chunks[last]);
    }
  }

  lemma RelationsOnly(g: Graph, relations: seq<RelationItem>)
    ensures WriteTx(g, Plan([], [], relations)) == WriteRelations(g, relations)
  {
    assert Overwritten(g.entities, []) == [];
    assert Linked(g, []) == [];
    assert WriteProvenance(g, []) == g;
  }

  lemma WriteRelationsAppend(g: Graph, a: seq<RelationItem>, b: seq<RelationItem>)
    ensures WriteRelations(WriteRelations(g, a), b) == WriteRelations(g, a + b)
  {
    FilterAppend(a, b, (r: RelationItem) => r.source in g.entities && r.target in g.entities);
    ApplyAppend(RelationUpsert(), g.relations, Joined(g, a), Joined(g, b));
  }

  /** Batch-size independence: for every start graph, every guard value and every order in which
      the set of a chunk's ids is iterated, the planned transactions in sequence give the graph of
      one transaction over the whole payload. */
  lemma {:induction false} BatchSizeIndependent(g: Graph, p: Plan, maxItems: nat, plans: seq<Plan>)
    requires maxItems >= 1 && Deduplicated(p) && Closed(p.entities, p.mentions)
    requires Planned(p, maxItems, plans)
    ensures WriteAll(g, plans) == WriteTx(g, p)
  {
    if |p.entities| + |p.relations| <= maxItems {
      assert plans[..0] == [];
    } else {
      var ec, rc := Chunks(p.entities, maxItems), Chunks(p.relations, maxItems);
      ChunksConcat(p.entities, maxItems);
      ChunksConcat(p.relations, maxItems);
      SplitWrites(g, p, ec, rc, plans);
    }
  }

  lemma NothingWrote(g: Graph)
    ensures Wrote(g, [], [], g)
  {
    assert AttachedMentions(g, []) == [];
  }

  lemma TxRelations(g: Graph, p: Plan)
    ensures WriteTx(g, p) == WriteRelations(WriteTx(g, p.(relations := [])), p.relations)
  {
    var g3 := WriteProvenance(WriteMentions(WriteEntities(g, Overwritten(g.entities, p.entities)), p.mentions), p.mentions);
    assert Joined(g3, []) == [];
    assert WriteRelations(g3, []) == g3;
  }

  lemma SplitWrites(g: Graph, p: Plan, ec: seq<seq<EntityItem>>, rc: seq<seq<RelationItem>>, plans: seq<Plan>)
    requires Deduplicated(p) && Closed(p.entities, p.mentions)
    requires Concat(ec) == p.entities && Concat(rc) == p.relations
    requires Split(p, ec, rc, plans)
    ensures WriteAll(g, plans) == WriteTx(g, p)
  {
    var first, second := plans[..|ec|], plans[|ec|..];
    assert plans == first + second;
    forall c | 0 <= c < |ec| ensures EntityPlan(first[c], ec[c], p.mentions) {
      assert first[c] == plans[c];
    }
    forall c | 0 <= c < |rc| ensures second[c] == Plan([], [], rc[c]) {
      assert second[c] == plans[|ec| + c];
    }
    BothParts(g, p, ec, rc, first, second);
  }

  lemma BothParts(g: Graph, p: Plan, ec: seq<seq<EntityItem>>, rc: seq<seq<RelationItem>>, first: seq<Plan>, second: seq<Plan>)
    requires Deduplicated(p) && Closed(p.entities, p.mentions)
    requires Concat(ec) == p.entities && Concat(rc) == p.relations && |first| == |ec| && |second| == |rc|
    requires forall c :: 0 <= c < |ec| ==> EntityPlan(first[c], ec[c], p.mentions)
    requires forall c :: 0 <= c < |rc| ==> second[c] == Plan([], [], rc[c])
    ensures WriteAll(g, first + second) == WriteTx(g, p)
  {
    WriteAllAppend(g, first, second);
    EntityPart(g, p, ec, first);
    RelationPart(g, p, WriteAll(g, first), rc, second);
  }

  lemma RelationPart(g: Graph, p: Plan, h: Graph, rc: seq<seq<RelationItem>>, plans: seq<Plan>)
    requires h == WriteTx(g, p.(relations := []))
    requires Concat(rc) == p.relations && |plans| == |rc|
    requires forall c :: 0 <= c < |rc| ==> plans[c] == Plan([], [], rc[c])
    ensures WriteAll(h, plans) == WriteTx(g, p)
  {
    RelationPlansWrite(h, rc, plans);
    TxRelations(g, p);
  }

  lemma EntityPart(g: Graph, p: Plan, ec: seq<seq<EntityItem>>, plans: seq<Plan>)
    requires Deduplicated(p) && Closed(p.entities, p.mentions)
    requires Concat(ec) == p.entities && |plans| == |ec|
    requires forall c :: 0 <= c < |ec| ==> EntityPlan(plans[c], ec[c], p.mentions)
    ensures WriteAll(g, plans) == WriteTx(g, p.(relations := []))
  {
    EntityPlansWrite(g, p.mentions, ec, plans);
    TxWrote(g, p);
    WroteDetermined(g, p, WriteAll(g, plans), WriteTx(g, p.(relations := [])));
  }

  lemma WroteDetermined(g: Graph, p: Plan, h: Graph, h0: Graph)
    requires Deduplicated(p) && Closed(p.entities, p.mentions)
    requires Wrote(g, p.entities, MentionsOf(p.entities, p.mentions), h) && Wrote(g, p.entities, p.mentions, h0)
    ensures h == h0
  {
    MentionsOfMeaning(p.entities, p.mentions);
    assert p.entities + [] == p.entities;
    NothingWrote(h);
    MergeWrote(g, p.entities, MentionsOf(p.entities, p.mentions), h, [], [], h, p.mentions, h0);
  }

  // ----- exactly when splitting is harmless -----

  lemma {:induction false} ProvenanceOnlyFromMentions(g: Graph, plans: seq<Plan>, e: Edge)
    requires e in WriteAll(g, plans).provenance && e !in g.provenance
    ensures exists c, m :: 0 <= c < |plans| && m in plans[c].mentions && MentionEdge(m) == e
  {
    var last := |plans| - 1;
    var h := WriteAll(g, plans[..last]);
    if e in h.provenance {
      ProvenanceOnlyFromMentions(g, plans[..last], e);
      var c, m :| 0 <= c < last && m in plans[..last][c].mentions && MentionEdge(m) == e;
      assert m in plans[c].mentions;
    } else {
      var h2 := WriteMentions(WriteEntities(h, Overwritten(h.entities, plans[last].entities)), plans[last].mentions);
      assert WriteAll(g, plans).provenance == h.provenance + (set m | m in Linked(h2, plans[last].mentions) :: MentionEdge(m));
    }
  }

  /** A graph that holds just the two nodes a mention names. */
  function TwoNodes(m: MentionItem): Graph {
    Graph(map[m.doc := Document("", map[])],
          map[m.ent := Entity("", None, [], NoMetadata, None, None, false, false)],
          map[], {}, map[], {})
  }

  /** One transaction links every mention whose two nodes exist. */
  lemma OneTransactionLinks(g: Graph, p: Plan, m: MentionItem)
    requires m in p.mentions && m.doc in g.documents && m.ent in g.entities
    ensures MentionEdge(m) in WriteTx(g, p).provenance
  {
    ApplyKeys(EntityUpsert(), g.entities, Overwritten(g.entities, p.entities));
    var g2 := WriteMentions(WriteEntities(g, Overwritten(g.entities, p.entities)), p.mentions);
    assert m in Linked(g2, p.mentions);
  }

  /** The split plan never links a mention of an entity that is not in the payload. */
  lemma SplitNeverLinks(g: Graph, p: Plan, maxItems: nat, plans: seq<Plan>, m: MentionItem)
    requires maxItems >= 1 && |p.entities| + |p.relations| > maxItems && Planned(p, maxItems, plans)
    requires m.ent !in Ids(p.entities) && MentionEdge(m) !in g.provenance
    ensures MentionEdge(m) !in WriteAll(g, plans).provenance
  {
    var ec, rc := Chunks(p.entities, maxItems), Chunks(p.relations, maxItems);
    forall c | |ec| <= c < |plans| ensures plans[c].mentions == [] {
      assert plans[|ec| + (c - |ec|)] == Plan([], [], rc[c - |ec|]);
    }
    forall c, n | 0 <= c < |plans| && n in plans[c].mentions ensures n.ent in Ids(p.entities) {
      if c < |ec| {
        assert EntityPlan(plans[c], ec[c], p.mentions);
        ChunkIds(p.entities, maxItems, c);
      }
    }
    if MentionEdge(m) in WriteAll(g, plans).provenance {
      ProvenanceOnlyFromMentions(g, plans, MentionEdge(m));
    }
  }

  lemma ChunkIds(items: seq<EntityItem>, n: nat, c: nat)
    requires n >= 1 && c < |Chunks(items, n)|
    ensures Ids(Chunks(items, n)[c]) <= Ids(items)
    decreases |items|
  {
    if |items| > n {
      KeysAppend(EntityUpsert(), items[..n], items[n..]);
      assert items[..n] + items[n..] == items;
      if c > 0 {
        ChunkIds(items[n..], n, c - 1);
      }
    }
  }

  /** Above the guard, splitting is harmless for every start graph exactly when every mention of the
      payload names an entity of the payload; the chunk loop drops any other mention. */
  lemma {:induction false} SplitHarmlessIff(p: Plan, maxItems: nat, plans: seq<Plan>)
    requires maxItems >= 1 && Deduplicated(p) && Planned(p, maxItems, plans)
    requires |p.entities| + |p.relations| > maxItems
    ensures (forall g :: WriteAll(g, plans) == WriteTx(g, p)) <==> Closed(p.entities, p.mentions)
  {
    if Closed(p.entities, p.mentions) {
      forall g ensures WriteAll(g, plans) == WriteTx(g, p) {
        BatchSizeIndependent(g, p, maxItems, plans);
      }
    } else {
      var m :| m in p.mentions && m.ent !in Ids(p.entities);
      OneTransactionLinks(TwoNodes(m), p, m);
      SplitNeverLinks(TwoNodes(m), p, maxItems, plans, m);
    }
  }

  // ----- what fits into a transaction -----

  /** A payload within the guard is one transaction. Above it no transaction carries both entities and
      relations, none more than the guard of either, and of each kind all but the last are full. */
  lemma PlannedFits(p: Plan, maxItems: nat, plans: seq<Plan>, i: nat)
    requires maxItems >= 1 && Planned(p, maxItems, plans) && i < |plans|
    ensures |p.entities| + |p.relations| <= maxItems ==> plans == [p]
    ensures |p.entities| + |p.relations| > maxItems ==>
              && (plans[i].entities == [] || plans[i].relations == []) && 0 < |plans[i].entities| + |plans[i].relations| <= maxItems
              && (i + 1 < |plans| && plans[i].entities != [] && plans[i + 1].entities != [] ==> |plans[i].entities| == maxItems)
              && (i + 1 < |plans| && plans[i].relations != [] ==> |plans[i].relations| == maxItems && plans[i + 1].entities == [])
  {
    if |p.entities| + |p.relations| > maxItems {
      var ec, rc := Chunks(p.entities, maxItems), Chunks(p.relations, maxItems);
      if i < |ec| {
        assert EntityPlan(plans[i], ec[i], p.mentions) && ec[i] in ec;
        if i + 1 < |ec| {
          ChunksFull(p.entities, maxItems, i);
        } else if i + 1 < |plans| {
          assert plans[|ec| + 0] == Plan([], [], rc[0]);
        }
      } else {
        var c := i - |ec|;
        assert plans[|ec| + c] == Plan([], [], rc[c]) && rc[c] in rc;
        if i + 1 < |plans| {
          assert plans[|ec| + (c + 1)] == Plan([], [], rc[c + 1]);
          ChunksFull(p.relations, maxItems, c);
        }
      }
    }
  }
}
