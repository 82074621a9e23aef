/** What one transaction leaves of every entity, mention and relation of any payload, closed or not. */
module TransactionMeaning {
  import opened Prelude
  import opened MapFold
  import opened Metadata
  import opened Graph
  import opened BatchedWrite

  ghost function AfterEntities(g: Graph, p: Plan): Graph {
    WriteEntities(g, Overwritten(g.entities, p.entities))
  }

  lemma EntityIds(g: Graph, p: Plan)
    ensures AfterEntities(g, p).entities.Keys == g.entities.Keys + Ids(p.entities)
    ensures WriteTx(g, p).entities.Keys == g.entities.Keys + Ids(p.entities)
  {
    OverwrittenKeys(g.entities, p.entities);
    ApplyKeys(EntityUpsert(), g.entities, Overwritten(g.entities, p.entities));
  }

  lemma AfterMentions(g: Graph, p: Plan, id: Id)
    requires id in g.entities.Keys + Ids(p.entities)
    ensures var e := AfterEntities(g, p).entities;
            id in e && Get(WriteTx(g, p).entities, id) == Some(e[id].(tracked := e[id].tracked || Attached(g, p.mentions, id)))
  {
    EntityIds(g, p);
    var g2 := WriteMentions(AfterEntities(g, p), p.mentions);
    assert (exists m :: m in Linked(g2, p.mentions) && m.ent == id) == Attached(g, p.mentions, id);
  }

  /** Every entity of the payload. */
  lemma EntityAfterWrite(g: Graph, p: Plan, i: nat)
    requires UniqueKeys(EntityUpsert(), p.entities) && i < |p.entities|
    ensures WroteItem(g, p.entities[i], p.mentions, WriteTx(g, p))
  {
    var item := p.entities[i];
    var written := Overwritten(g.entities, p.entities);
    KeysMember(EntityUpsert(), p.entities, item);
    OverwrittenKeys(g.entities, p.entities);
    ApplyAt(EntityUpsert(), g.entities, written, i);
    AfterMentions(g, p, item.id);
  }

  lemma EntitiesAfterWrite(g: Graph, p: Plan)
    ensures UniqueKeys(EntityUpsert(), p.entities) ==> forall i :: 0 <= i < |p.entities| ==> WroteItem(g, p.entities[i], p.mentions, WriteTx(g, p))
  {
    if UniqueKeys(EntityUpsert(), p.entities) {
      forall i | 0 <= i < |p.entities| ensures WroteItem(g, p.entities[i], p.mentions, WriteTx(g, p)) {
        EntityAfterWrite(g, p, i);
      }
    }
  }

  /** Every other entity: at most tracked from now on. */
  lemma OtherAfterWrite(g: Graph, p: Plan, id: Id)
    requires id in g.entities && id !in Ids(p.entities)
    ensures var before := g.entities[id];
            Get(WriteTx(g, p).entities, id) == Some(before.(tracked := before.tracked || Attached(g, p.mentions, id)))
  {
    OverwrittenKeys(g.entities, p.entities);
    ApplyUntouched(EntityUpsert(), g.entities, Overwritten(g.entities, p.entities), id);
    AfterMentions(g, p, id);
  }

  /** The mention finds its document, and its entity among the stored and the written ones. */
  ghost predicate Finds(g: Graph, p: Plan, m: MentionItem) {
    m.doc in g.documents && m.ent in g.entities.Keys + Ids(p.entities)
  }

  lemma LinkedFinds(g: Graph, p: Plan)
    ensures Linked(AfterEntities(g, p), p.mentions) == Filter(p.mentions, (m: MentionItem) => Finds(g, p, m))
  {
    EntityIds(g, p);
    FilterSame(p.mentions,
      (m: MentionItem) => m.doc in AfterEntities(g, p).documents && m.ent in AfterEntities(g, p).entities,
      (m: MentionItem) => Finds(g, p, m));
  }

  /** Every mention that finds both its nodes has its two edges, with its own confidence; every other edge
      is as it was. */
  lemma MentionAfterWrite(g: Graph, p: Plan, e: Edge)
    requires UniqueKeys(MentionUpsert(), p.mentions)
    ensures var h := WriteTx(g, p);
            && (e in h.provenance <==> e in g.provenance || exists m :: m in p.mentions && Finds(g, p, m) && m.doc == e.doc && m.ent == e.ent)
            && (forall m :: m in p.mentions && Finds(g, p, m) && m.doc == e.doc && m.ent == e.ent ==> Get(h.mentions, e) == Some(m.confidence))
            && ((forall m :: m in p.mentions && Finds(g, p, m) ==> m.doc != e.doc || m.ent != e.ent) ==> Get(h.mentions, e) == Get(g.mentions, e))
  {
    var u, linked := MentionUpsert(), Linked(AfterEntities(g, p), p.mentions);
    LinkedFinds(g, p);
    UniqueFilter(u, p.mentions, (m: MentionItem) => Finds(g, p, m));
    if m :| m in p.mentions && Finds(g, p, m) && m.doc == e.doc && m.ent == e.ent {
      assert m in linked;
      forall n | n in p.mentions && Finds(g, p, n) && n.doc == e.doc && n.ent == e.ent
        ensures Get(ApplyAll(u, g.mentions, linked), e) == Some(n.confidence)
      {
        assert n in linked;
        var i :| 0 <= i < |linked| && linked[i] == n;
        ApplyAt(u, g.mentions, linked, i);
      }
    } else {
      forall k | k in Keys(u, linked) ensures k != e {
        var i :| 0 <= i < |linked| && u.key(linked[i]) == k;
        assert linked[i] in linked;
      }
      ApplyUntouched(u, g.mentions, linked, e);
    }
    WriteProvenanceEdges(g, p, e);
  }

  lemma WriteProvenanceEdges(g: Graph, p: Plan, e: Edge)
    ensures WriteTx(g, p).mentions == ApplyAll(MentionUpsert(), g.mentions, Linked(AfterEntities(g, p), p.mentions))
    ensures e in WriteTx(g, p).provenance <==>
            e in g.provenance || exists m :: m in Linked(AfterEntities(g, p), p.mentions) && m.doc == e.doc && m.ent == e.ent
  {
    var g1 := AfterEntities(g, p);
    var g2 := WriteMentions(g1, p.mentions);
    assert Linked(g2, p.mentions) == Linked(g1, p.mentions);
    if m :| m in Linked(g1, p.mentions) && m.doc == e.doc && m.ent == e.ent {
      assert e == MentionEdge(m);
    }
  }

  /** The relation finds both its ends. */
  ghost predicate Joinable(g: Graph, p: Plan, r: RelationItem) {
    r.source in g.entities.Keys + Ids(p.entities) && r.target in g.entities.Keys + Ids(p.entities)
  }

  /** A relation of the payload with both its ends: a new edge takes its weight and its files; an edge that
      is there gets the mean weight, keeps its files that the item does not name, in order, and then lists
      those of the item; a missing list on either side leaves the other. */
  ghost predicate RelationWritten(before: Option<Relation>, r: RelationItem, after: Relation) {
    match before
    case None => after.weight == r.weight && after.files == r.files
    case Some(b) =>
      && after.weight + after.weight == b.weight + r.weight
      && (r.files.None? ==> after.files == b.files)
      && (b.files.None? ==> after.files == r.files)
      && (r.files.Some? && b.files.Some? ==>
            && after.files.Some?
            && exists kept :: SubsequenceWithout(kept, b.files.value, r.files.value) && after.files.value == kept + r.files.value)
  }

  /** `kept` is `all` without the elements of `out`. */
  ghost predicate SubsequenceWithout(kept: seq<string>, all: seq<string>, out: seq<string>) {
    kept == Filter(all, x => x !in out)
  }

  lemma RelationAfterWrite(g: Graph, p: Plan, i: nat)
    requires UniqueKeys(RelationUpsert(), p.relations) && i < |p.relations| && Joinable(g, p, p.relations[i])
    ensures var r := p.relations[i];
            var k := RelationKey(r.source, r.target, r.kind);
            k in WriteTx(g, p).relations && RelationWritten(Get(g.relations, k), r, WriteTx(g, p).relations[k])
  {
    var u, r, joined := RelationUpsert(), p.relations[i], JoinedIn(g, p);
    EntityIds(g, p);
    UniqueFilter(u, p.relations, (x: RelationItem) => Joinable(g, p, x));
    assert r in p.relations && r in joined;
    var j :| 0 <= j < |joined| && joined[j] == r;
    JoinedSame(g, p);
    ApplyAt(u, g.relations, joined, j);
    MergedRelation(Get(g.relations, KeyOf(r)), r);
  }

  lemma MergedRelation(before: Option<Relation>, r: RelationItem)
    ensures RelationWritten(before, r, MergeRelation(before, r))
  {
    if before.Some? && before.value.files.Some? && r.files.Some? {
      assert SubsequenceWithout(Filter(before.value.files.value, x => x !in r.files.value), before.value.files.value, r.files.value);
    }
  }

  ghost function JoinedIn(g: Graph, p: Plan): seq<RelationItem> {
    Filter(p.relations, (r: RelationItem) => Joinable(g, p, r))
  }

  lemma JoinedSame(g: Graph, p: Plan)
    ensures WriteTx(g, p).relations == ApplyAll(RelationUpsert(), g.relations, JoinedIn(g, p))
  {
    EntityIds(g, p);
    var g3 := WriteProvenance(WriteMentions(AfterEntities(g, p), p.mentions), p.mentions);
    FilterSame(p.relations, (r: RelationItem) => r.source in g3.entities && r.target in g3.entities, (r: RelationItem) => Joinable(g, p, r));
  }

  /** Every edge no such relation names is as it was, and so are the documents and similarity edges. */
  lemma RestAfterWrite(g: Graph, p: Plan, k: RelationKey)
    requires forall r :: r in p.relations && Joinable(g, p, r) ==> r.source != k.source || r.target != k.target || r.kind != k.kind
    ensures Get(WriteTx(g, p).relations, k) == Get(g.relations, k)
    ensures WriteTx(g, p).documents == g.documents && WriteTx(g, p).similar == g.similar
  {
    var joined := JoinedIn(g, p);
    JoinedSame(g, p);
    forall x | x in Keys(RelationUpsert(), joined) ensures x != k {
      var i :| 0 <= i < |joined| && RelationUpsert().key(joined[i]) == x;
      assert joined[i] in joined;
    }
    ApplyUntouched(RelationUpsert(), g.relations, joined, k);
  }
}
