/** batched_delete.py and the two provenance-driven cascades built on it: the purge of one source's
    graph artifacts and the deletion of a collection's points. */
module Deletion {
  import opened Prelude
  import opened Metadata
  import opened Graph

  const DELETE_BATCH_MAX_ITEMS: nat := 100

  datatype BatchError = BelowOne | AboveGuard

  // ----- delete_in_batches -----

  /** A statement run once per batch, on the ids of that batch. */
  type Statement<!T> = (Graph, set<T>) -> Graph

  function RunBatches<T(==)>(g: Graph, statement: Statement<T>, batches: seq<seq<T>>): Graph {
    if batches == [] then g
    else statement(RunBatches(g, statement, batches[..|batches| - 1]), Elements(batches[|batches| - 1]))
  }

  /** Two batches in a row do what one batch of their union does. */
  ghost predicate Additive<T(!new)>(statement: Statement<T>) {
    && (forall g :: statement(g, {}) == g)
    && (forall g, a, b :: statement(statement(g, a), b) == statement(g, a + b))
  }

  lemma {:induction false} BatchesAreOne<T(!new)>(g: Graph, statement: Statement<T>, batches: seq<seq<T>>)
    requires Additive(statement)
    ensures RunBatches(g, statement, batches) == statement(g, Elements(Concat(batches)))
  {
    if batches == [] {
      assert Elements(Concat(batches)) == {};
    } else {
      var last := |batches| - 1;
      BatchesAreOne(g, statement, batches[..last]);
      assert Elements(Concat(batches)) == Elements(Concat(batches[..last])) + Elements(batches[last]);
    }
  }

  /** `delete_in_batches`, with the validation of `chunk_ids`. */
  method DeleteInBatches<T(==, !new)>(store: Store, ids: seq<T>, statement: Statement<T>, maxItems: int)
    returns (r: Result<nat, BatchError>)
    modifies store
    ensures maxItems < 1 ==> r == Err(BelowOne)
    ensures maxItems > DELETE_BATCH_MAX_ITEMS ==> r == Err(AboveGuard)
    ensures r.Ok? <==> 1 <= maxItems <= 100
    ensures r.Err? ==> store.graph == old(store.graph)
    ensures 1 <= maxItems <= DELETE_BATCH_MAX_ITEMS ==>
      && r == Ok(|Chunks(ids, maxItems)|)
      && store.graph == RunBatches(old(store.graph), statement, Chunks(ids, maxItems))
    ensures 1 <= maxItems <= DELETE_BATCH_MAX_ITEMS && Additive(statement) ==>
      store.graph == statement(old(store.graph), Elements(ids))
  {
    if maxItems < 1 {
      return Err(BelowOne);
    }
    if maxItems > DELETE_BATCH_MAX_ITEMS {
      return Err(AboveGuard);
    }
    var batches := Slices(ids, maxItems);
    for i := 0 to |batches|
      invariant store.graph == RunBatches(old(store.graph), statement, batches[..i])
    {
      assert batches[..i + 1][..i] == batches[..i];
      store.graph := statement(store.graph, Elements(batches[i]));
    }
    assert batches[..|batches|] == batches;
    if Additive(statement) {
      BatchesAreOne(old(store.graph), statement, batches);
      ChunksConcat(ids, maxItems);
    }
    return Ok(|batches|);
  }

  // ----- the statements -----

  predicate Mentioned(g: Graph, id: Id) {
    exists e :: e in g.mentions && e.ent == id
  }

  predicate Provenanced(g: Graph, id: Id) {
    exists e :: e in g.provenance && e.ent == id
  }

  /** DETACH DELETE of entities. */
  function DetachEntities(g: Graph, ids: set<Id>): Graph {
    g.(entities := map id | id in g.entities && id !in ids :: g.entities[id],
       mentions := map e | e in g.mentions && e.ent !in ids :: g.mentions[e],
       provenance := (set e | e in g.provenance && e.ent !in ids),
       relations := map k | k in g.relations && k.source !in ids && k.target !in ids :: g.relations[k])
  }

  function DropDocumentEdges(g: Graph, docs: set<Id>): Graph {
    g.(mentions := map e | e in g.mentions && e.doc !in docs :: g.mentions[e],
       provenance := set e | e in g.provenance && e.doc !in docs)
  }

  function PruneUnreferenced(g: Graph, ids: set<Id>): Graph {
    DetachEntities(g, set id | id in ids && !Provenanced(g, id) && !Mentioned(g, id))
  }

  function PruneTracked(g: Graph, ids: set<Id>): Graph {
    DetachEntities(g, set id | id in ids && id in g.entities && g.entities[id].tracked && !Provenanced(g, id))
  }

  function DropSimilar(g: Graph, edges: set<Similar>): Graph {
    g.(similar := g.similar - edges)
  }

  function WithoutSource(r: Relation, source: string): Relation {
    if r.files.None? then r else r.(files := Some(Filter(r.files.value, x => x != source)))
  }

  function StripRelated(source: string): Statement<RelationKey> {
    (g: Graph, keys: set<RelationKey>) =>
      g.(relations := map k | k in g.relations && !(k in keys && WithoutSource(g.relations[k], source).files == Some([])) ::
           if k in keys then WithoutSource(g.relations[k], source) else g.relations[k])
  }

  function DeleteDocuments(collection: string): Statement<Id> {
    (g: Graph, ids: set<Id>) => DetachDocuments(g, set d | d in ids && d in g.documents && g.documents[d].collection == collection)
  }

  /** DETACH DELETE of documents. */
  function DetachDocuments(g: Graph, docs: set<Id>): Graph {
    g.(documents := map d | d in g.documents && d !in docs :: g.documents[d],
       mentions := map e | e in g.mentions && e.doc !in docs :: g.mentions[e],
       provenance := (set e | e in g.provenance && e.doc !in docs),
       similar := set s | s in g.similar && s.from !in docs && s.to !in docs)
  }

  lemma {:induction false} StatementsAdditive(source: string, collection: string)
    ensures Additive(DropDocumentEdges)
    ensures Additive(DropSimilar)
    ensures Additive(DeleteDocuments(collection))
    ensures Additive(StripRelated(source))
    ensures Additive(PruneUnreferenced)
    ensures Additive(PruneTracked)
  {
    DropDocumentEdgesAdditive();
    DropSimilarAdditive();
    DeleteDocumentsAdditive(collection);
    StripRelatedAdditive(source);
    PruneUnreferencedAdditive();
    PruneTrackedAdditive();
  }

  lemma DropDocumentEdgesAdditive()
    ensures Additive(DropDocumentEdges)
  {
  }

  lemma DropSimilarAdditive()
    ensures Additive(DropSimilar)
  {
  }

  lemma DeleteDocumentsAdditive(collection: string)
    ensures Additive(DeleteDocuments(collection))
  {
    var statement := DeleteDocuments(collection);
    forall g ensures statement(g, {}) == g {
      DetachDocumentsNone(g);
      assert statement(g, {}) == DetachDocuments(g, {});
    }
    forall g, a, b ensures statement(statement(g, a), b) == statement(g, a + b) {
      var da := set d | d in a && d in g.documents && g.documents[d].collection == collection;
      var h := DetachDocuments(g, da);
      var db := set d | d in b && d in h.documents && h.documents[d].collection == collection;
      DetachDocumentsTwice(g, da, db);
      assert da + db == set d | d in a + b && d in g.documents && g.documents[d].collection == collection;
    }
  }

  lemma DetachDocumentsTwice(g: Graph, a: set<Id>, b: set<Id>)
    ensures DetachDocuments(DetachDocuments(g, a), b) == DetachDocuments(g, a + b)
  {
  }

  lemma DetachDocumentsNone(g: Graph)
    ensures DetachDocuments(g, {}) == g
  {
  }

  lemma StripRelatedAdditive(source: string)
    ensures Additive(StripRelated(source))
  {
    forall g ensures StripRelated(source)(g, {}) == g {
      assert StripRelated(source)(g, {}).relations == g.relations;
    }
    forall g, a, b ensures StripRelated(source)(StripRelated(source)(g, a), b) == StripRelated(source)(g, a + b) {
      StripTwoSets(g, source, a, b);
    }
  }

  lemma StripTwoSets(g: Graph, source: string, a: set<RelationKey>, b: set<RelationKey>)
    ensures StripRelated(source)(StripRelated(source)(g, a), b) == StripRelated(source)(g, a + b)
  {
    forall k | k in g.relations ensures WithoutSource(WithoutSource(g.relations[k], source), source) == WithoutSource(g.relations[k], source) {
      StripTwice(g.relations[k], source);
    }
    var one, both := StripRelated(source)(StripRelated(source)(g, a), b), StripRelated(source)(g, a + b);
    assert one.relations.Keys == both.relations.Keys;
    assert one.relations == both.relations;
  }

  lemma StripTwice(r: Relation, source: string)
    ensures WithoutSource(WithoutSource(r, source), source) == WithoutSource(r, source)
  {
    if r.files.Some? {
      FilterTwice(r.files.value, x => x != source);
    }
  }

  lemma DetachTwice(g: Graph, a: set<Id>, b: set<Id>)
    ensures DetachEntities(DetachEntities(g, a), b) == DetachEntities(g, a + b)
  {
  }

  lemma DetachNone(g: Graph)
    ensures DetachEntities(g, {}) == g
  {
  }

  /** Detaching some entities leaves the incoming edges of the others. */
  lemma DetachKeepsEdges(g: Graph, ids: set<Id>, id: Id)
    requires id !in ids
    ensures Provenanced(DetachEntities(g, ids), id) == Provenanced(g, id)
    ensures Mentioned(DetachEntities(g, ids), id) == Mentioned(g, id)
  {
    var h := DetachEntities(g, ids);
    if Provenanced(g, id) {
      var e :| e in g.provenance && e.ent == id;
      assert e in h.provenance;
    }
    if Mentioned(g, id) {
      var e :| e in g.mentions && e.ent == id;
      assert e in h.mentions;
    }
  }

  ghost function Unreferenced(g: Graph, ids: set<Id>): set<Id> {
    set id | id in ids && !Provenanced(g, id) && !Mentioned(g, id)
  }

  ghost function Untraced(g: Graph, ids: set<Id>): set<Id> {
    set id | id in ids && id in g.entities && g.entities[id].tracked && !Provenanced(g, id)
  }

  lemma PruneUnreferencedAdditive()
    ensures Additive(PruneUnreferenced)
  {
    forall g ensures PruneUnreferenced(g, {}) == g {
      DetachNone(g);
      assert Unreferenced(g, {}) == {};
    }
    forall g, a: set<Id>, b: set<Id> ensures PruneUnreferenced(PruneUnreferenced(g, a), b) == PruneUnreferenced(g, a + b) {
      var h := DetachEntities(g, Unreferenced(g, a));
      forall id | id !in Unreferenced(g, a) ensures Provenanced(h, id) == Provenanced(g, id) && Mentioned(h, id) == Mentioned(g, id) {
        DetachKeepsEdges(g, Unreferenced(g, a), id);
      }
      DetachTwice(g, Unreferenced(g, a), Unreferenced(h, b));
      assert Unreferenced(g, a) + Unreferenced(h, b) == Unreferenced(g, a + b);
    }
  }

  lemma PruneTrackedAdditive()
    ensures Additive(PruneTracked)
  {
    forall g ensures PruneTracked(g, {}) == g {
      DetachNone(g);
      assert Untraced(g, {}) == {};
    }
    forall g, a: set<Id>, b: set<Id> ensures PruneTracked(PruneTracked(g, a), b) == PruneTracked(g, a + b) {
      var h := DetachEntities(g, Untraced(g, a));
      forall id | id !in Untraced(g, a) ensures Provenanced(h, id) == Provenanced(g, id) {
        DetachKeepsEdges(g, Untraced(g, a), id);
      }
      DetachTwice(g, Untraced(g, a), Untraced(h, b));
      assert Untraced(g, a) + Untraced(h, b) == Untraced(g, a + b);
    }
  }
}
