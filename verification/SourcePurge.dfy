/** `purge_source_graph_artifacts` and `delete_tenant_points`: what the batched cascades delete. */
module SourcePurge {
  import opened Prelude
  import opened MapFold
  import opened Metadata
  import opened Graph
  import opened Deletion

  // ----- the purge, as one deletion -----

  function SourceDocs(g: Graph, source: string): set<Id> {
    set d | d in g.documents && IsFrom(g.documents[d], source)
  }

  /** The MENTIONS and PROVENANCE edges alike. */
  function Links(g: Graph): set<Edge> {
    g.mentions.Keys + g.provenance
  }

  /** Some document of `docs` points at the entity. */
  predicate PointedAt(g: Graph, docs: set<Id>, id: Id) {
    exists e :: e in Links(g) && e.ent == id && e.doc in docs
  }

  /** Some document outside `docs` points at the entity. */
  predicate PointedAtByOthers(g: Graph, docs: set<Id>, id: Id) {
    exists e :: e in Links(g) && e.ent == id && e.doc !in docs
  }

  /** The entities only these documents account for. */
  ghost function OnlyPointedAtBy(g: Graph, docs: set<Id>): set<Id> {
    set id | id in g.entities && PointedAt(g, docs, id) && !PointedAtByOthers(g, docs, id)
  }

  /** The relation exists only because of the source. */
  ghost predicate OnlyFromSource(r: Relation, source: string) {
    r.files.Some? && source in r.files.value && forall f :: f in r.files.value ==> f == source
  }

  ghost function Purged(g: Graph, source: string): Graph {
    var docs := SourceDocs(g, source);
    var gone := OnlyPointedAtBy(g, docs);
    Graph(
      g.documents,
      map id | id in g.entities && id !in gone :: g.entities[id],
      map e | e in g.mentions && e.doc !in docs :: g.mentions[e],
      (set e | e in g.provenance && e.doc !in docs),
      map k | k in g.relations && k.source !in gone && k.target !in gone && !OnlyFromSource(g.relations[k], source) ::
        WithoutSource(g.relations[k], source),
      (set s | s in g.similar && s.from !in docs && s.to !in docs))
  }

  lemma StrippedEmpty(r: Relation, source: string)
    ensures r.files.Some? && source in r.files.value ==>
              (WithoutSource(r, source).files == Some([]) <==> OnlyFromSource(r, source))
    ensures !(r.files.Some? && source in r.files.value) ==> WithoutSource(r, source) == r
  {
    if r.files.Some? {
      var kept := Filter(r.files.value, x => x != source);
      if source !in r.files.value {
        FilterAll(r.files.value, x => x != source);
      } else if OnlyFromSource(r, source) {
        FilterNone(r.files.value, x => x != source);
      } else {
        var f :| f in r.files.value && f != source;
        assert f in kept;
      }
    }
  }

  // ----- the purge, statement by statement -----

  function Candidates(g: Graph, docs: set<Id>): set<Id> {
    set id | id in g.entities && PointedAt(g, docs, id)
  }

  function SimilarOf(g: Graph, docs: set<Id>): set<Similar> {
    set s | s in g.similar && (s.from in docs || s.to in docs)
  }

  function RelatedOf(g: Graph, source: string): set<RelationKey> {
    set k | k in g.relations && g.relations[k].files.Some? && source in g.relations[k].files.value
  }

  method PurgeSourceGraphArtifacts(store: Store, source: string, maxItems: int := DELETE_BATCH_MAX_ITEMS) returns (docCount: nat)
    requires WellFormed(store.graph) && 1 <= maxItems <= DELETE_BATCH_MAX_ITEMS
    modifies store
    ensures store.graph == Purged(old(store.graph), source)
    ensures docCount == |SourceDocs(old(store.graph), source)|
  {
    ghost var g := store.graph;
    StatementsAdditive(source, "");
    var documentIds := Rows(SourceDocs(store.graph, source));
    ListsAll(documentIds, SourceDocs(g, source));
    docCount := |documentIds|;
    var candidateIds := Rows(Candidates(store.graph, Elements(documentIds)));
    ListsAll(candidateIds, Candidates(g, SourceDocs(g, source)));
    var _ := DeleteInBatches(store, documentIds, DropDocumentEdges, maxItems);
    var _ := DeleteInBatches(store, candidateIds, PruneUnreferenced, maxItems);
    var similarIds := Rows(SimilarOf(store.graph, Elements(documentIds)));
    ListsAll(similarIds, SimilarOf(store.graph, SourceDocs(g, source)));
    var _ := DeleteInBatches(store, similarIds, DropSimilar, maxItems);
    var relatedIds := Rows(RelatedOf(store.graph, source));
    ListsAll(relatedIds, RelatedOf(store.graph, source));
    var _ := DeleteInBatches(store, relatedIds, StripRelated(source), maxItems);
    PurgeStatements(g, source);
  }

  lemma ListsAll<T(!new)>(rows: seq<T>, s: set<T>)
    requires Lists(rows, s)
    ensures Elements(rows) == s && |rows| == |s|
  {
    assert Elements(rows) == s;
    DistinctSize(rows);
  }

  lemma {:induction false} DistinctSize<T>(rows: seq<T>)
    requires Distinct(rows)
    ensures |Elements(rows)| == |rows|
  {
    if rows != [] {
      var last := |rows| - 1;
      DistinctSize(rows[..last]);
      assert rows == rows[..last] + [rows[last]];
      assert Elements(rows) == Elements(rows[..last]) + {rows[last]};
      assert rows[last] !in rows[..last];
    }
  }

  ghost function AfterPrune(g: Graph, source: string): Graph {
    var docs := SourceDocs(g, source);
    PruneUnreferenced(DropDocumentEdges(g, docs), Candidates(g, docs))
  }

  lemma {:induction false} PruneIsExact(g: Graph, source: string)
    requires WellFormed(g)
    ensures AfterPrune(g, source) == DetachEntities(DropDocumentEdges(g, SourceDocs(g, source)), OnlyPointedAtBy(g, SourceDocs(g, source)))
  {
    var docs := SourceDocs(g, source);
    var h := DropDocumentEdges(g, docs);
    forall id ensures Provenanced(h, id) || Mentioned(h, id) <==> PointedAtByOthers(g, docs, id) {
      if e :| e in Links(g) && e.ent == id && e.doc !in docs {
        assert e in h.mentions || e in h.provenance;
      }
      if e :| e in h.mentions && e.ent == id {
        assert e in Links(g);
      }
      if e :| e in h.provenance && e.ent == id {
        assert e in Links(g);
      }
    }
    assert (set id | id in Candidates(g, docs) && !Provenanced(h, id) && !Mentioned(h, id)) == OnlyPointedAtBy(g, docs);
  }

  /** The four statements of the purge, one after the other, delete exactly `Purged`. */
  lemma PurgeStatements(g: Graph, source: string)
    requires WellFormed(g)
    ensures var docs := SourceDocs(g, source);
            var g2 := AfterPrune(g, source);
            var g3 := DropSimilar(g2, SimilarOf(g2, docs));
            StripRelated(source)(g3, RelatedOf(g3, source)) == Purged(g, source)
  {
    var docs := SourceDocs(g, source);
    var gone := OnlyPointedAtBy(g, docs);
    PruneIsExact(g, source);
    var g2 := AfterPrune(g, source);
    var g3 := DropSimilar(g2, SimilarOf(g2, docs));
    StripIsExact(g3, source);
    OthersKeepEdges(g, docs);
    PurgedParts(g, source, g3);
  }

  lemma PurgedParts(g: Graph, source: string, g3: Graph)
    requires WellFormed(g)
    requires var docs := SourceDocs(g, source);
             var g2 := DetachEntities(DropDocumentEdges(g, docs), OnlyPointedAtBy(g, docs));
             g3 == DropSimilar(g2, SimilarOf(g2, docs))
    ensures g3.(relations := StrippedRelations(g3, source)) == Purged(g, source)
  {
    var docs := SourceDocs(g, source);
    var p := Purged(g, source);
    OthersKeepEdges(g, docs);
    assert StrippedRelations(g3, source) == p.relations;
    assert g3.mentions == p.mentions;
    assert g3.provenance == p.provenance;
    assert g3.similar == p.similar;
    assert g3.entities == p.entities;
  }

  /** Relations that exist only because of the source go; the others lose it from their lists. */
  ghost function StrippedRelations(g: Graph, source: string): map<RelationKey, Relation> {
    map k | k in g.relations && !OnlyFromSource(g.relations[k], source) :: WithoutSource(g.relations[k], source)
  }

  lemma {:induction false} StripIsExact(g: Graph, source: string)
    ensures StripRelated(source)(g, RelatedOf(g, source)) == g.(relations := StrippedRelations(g, source))
  {
    var keys := RelatedOf(g, source);
    forall k | k in g.relations
      ensures k in keys ==> (WithoutSource(g.relations[k], source).files == Some([]) <==> OnlyFromSource(g.relations[k], source))
      ensures k !in keys ==> WithoutSource(g.relations[k], source) == g.relations[k]
    {
      StrippedEmpty(g.relations[k], source);
    }
    assert StripRelated(source)(g, keys).relations == StrippedRelations(g, source);
  }

  lemma OthersKeepEdges(g: Graph, docs: set<Id>)
    ensures forall e :: e in Links(g) && e.doc !in docs ==> e.ent !in OnlyPointedAtBy(g, docs)
  {
  }

  // ----- what the purge guarantees -----

  /** The source has left nothing in the graph but its documents. */
  ghost predicate ContributesNothing(g: Graph, source: string) {
    && (forall e :: e in g.mentions ==> e.doc !in SourceDocs(g, source))
    && (forall e :: e in g.provenance ==> e.doc !in SourceDocs(g, source))
    && (forall s :: s in g.similar ==> s.from !in SourceDocs(g, source) && s.to !in SourceDocs(g, source))
    && (forall k :: k in g.relations && g.relations[k].files.Some? ==> source !in g.relations[k].files.value)
  }

  lemma PurgeLeavesNothing(g: Graph, source: string)
    ensures ContributesNothing(Purged(g, source), source)
  {
    var p := Purged(g, source);
    assert SourceDocs(p, source) == SourceDocs(g, source);
    assert forall k :: k in p.relations ==> p.relations[k] == WithoutSource(g.relations[k], source);
  }

  /** Purging a source that contributes nothing is the identity; so is a second purge. */
  lemma PurgeOfNothing(g: Graph, source: string)
    requires ContributesNothing(g, source)
    ensures Purged(g, source) == g
  {
    var p := Purged(g, source);
    assert OnlyPointedAtBy(g, SourceDocs(g, source)) == {};
    forall k | k in g.relations ensures !OnlyFromSource(g.relations[k], source) && WithoutSource(g.relations[k], source) == g.relations[k] {
      StrippedEmpty(g.relations[k], source);
    }
    assert p.relations == g.relations;
    assert p.mentions == g.mentions;
    assert p.entities == g.entities;
    assert p.provenance == g.provenance;
    assert p.similar == g.similar;
  }

  lemma {:induction false} PurgeTwice(g: Graph, source: string)
    ensures Purged(Purged(g, source), source) == Purged(g, source)
  {
    PurgeLeavesNothing(g, source);
    PurgeOfNothing(Purged(g, source), source);
  }

  lemma PurgeKeepsWellFormed(g: Graph, source: string)
    requires WellFormed(g)
    ensures WellFormed(Purged(g, source))
  {
    OthersKeepEdges(g, SourceDocs(g, source));
  }

  /** Nothing another source's documents point at is lost: the document, its edges and the entities
      at their end all stay. */
  lemma PurgeSparesOthers(g: Graph, source: string, d: Id)
    requires WellFormed(g) && d in g.documents && !IsFrom(g.documents[d], source)
    ensures var p := Purged(g, source);
            && (forall e: Edge :: e.doc == d ==> (e in p.mentions <==> e in g.mentions) && (e in p.provenance <==> e in g.provenance))
            && (forall e: Edge :: e.doc == d && e in g.mentions ==> p.mentions[e] == g.mentions[e] && Get(p.entities, e.ent) == Get(g.entities, e.ent))
            && (forall e: Edge :: e.doc == d && e in g.provenance ==> Get(p.entities, e.ent) == Get(g.entities, e.ent))
  {
    OthersKeepEdges(g, SourceDocs(g, source));
  }

  /** A relation between entities that stay keeps its weight and every other file of its list; it goes
      only if the source was its only file. */
  lemma PurgeSparesRelations(g: Graph, source: string, k: RelationKey)
    requires k in g.relations && k.source in Purged(g, source).entities && k.target in Purged(g, source).entities
    ensures var r, p := g.relations[k], Purged(g, source);
            && (k !in p.relations <==> r.files.Some? && source in r.files.value && forall f :: f in r.files.value ==> f == source)
            && (k in p.relations ==> p.relations[k].weight == r.weight)
            && (k in p.relations && r.files.Some? ==> p.relations[k].files == Some(Filter(r.files.value, f => f != source)))
            && (k in p.relations && (r.files.None? || source !in r.files.value) ==> p.relations[k] == r)
  {
    StrippedEmpty(g.relations[k], source);
  }

  /** The order in which two sources are purged does not matter. */
  lemma {:induction false} PurgesCommute(g: Graph, a: string, b: string)
    requires WellFormed(g) && a != b
    ensures Purged(Purged(g, a), b) == Purged(Purged(g, b), a)
  {
    CommuteNodes(g, a, b);
    CommuteRelations(g, a, b);
  }

  lemma PurgedTwiceLinks(g: Graph, a: string, b: string)
    ensures var docs := SourceDocs(g, a) + SourceDocs(g, b);
            var ab := Purged(Purged(g, a), b);
            && ab.documents == g.documents
            && ab.mentions == (map e | e in g.mentions && e.doc !in docs :: g.mentions[e])
            && ab.provenance == (set e | e in g.provenance && e.doc !in docs)
            && ab.similar == (set s | s in g.similar && s.from !in docs && s.to !in docs)
  {
    var pa := Purged(g, a);
    assert SourceDocs(pa, b) == SourceDocs(g, b);
  }

  lemma PurgedTwiceEntities(g: Graph, a: string, b: string)
    requires a != b
    ensures Purged(Purged(g, a), b).entities ==
              map id | id in g.entities && id !in OnlyPointedAtBy(g, SourceDocs(g, a) + SourceDocs(g, b)) :: g.entities[id]
  {
    PurgedEntities(g, a, b);
  }

  lemma CommuteNodes(g: Graph, a: string, b: string)
    requires a != b
    ensures var ab, ba := Purged(Purged(g, a), b), Purged(Purged(g, b), a);
            && ab.documents == ba.documents && ab.entities == ba.entities
            && ab.mentions == ba.mentions && ab.provenance == ba.provenance && ab.similar == ba.similar
  {
    PurgedTwiceLinks(g, a, b);
    PurgedTwiceLinks(g, b, a);
    PurgedTwiceEntities(g, a, b);
    PurgedTwiceEntities(g, b, a);
    assert SourceDocs(g, a) + SourceDocs(g, b) == SourceDocs(g, b) + SourceDocs(g, a);
  }

  lemma CommuteRelations(g: Graph, a: string, b: string)
    requires WellFormed(g) && a != b
    ensures Purged(Purged(g, a), b).relations == Purged(Purged(g, b), a).relations
  {
    PurgedRelations(g, a, b);
    PurgedRelations(g, b, a);
    assert SourceDocs(g, a) + SourceDocs(g, b) == SourceDocs(g, b) + SourceDocs(g, a);
    StripsCommute(g.relations, OnlyPointedAtBy(g, SourceDocs(g, a) + SourceDocs(g, b)), a, b);
  }

  /** Both sources stripped, the edges of the entities that go dropped. */
  ghost function TwiceStripped(relations: map<RelationKey, Relation>, gone: set<Id>, a: string, b: string): map<RelationKey, Relation> {
    map k | k in relations && k.source !in gone && k.target !in gone
            && !OnlyFromSource(relations[k], a) && !OnlyFromSource(WithoutSource(relations[k], a), b) ::
      WithoutSource(WithoutSource(relations[k], a), b)
  }

  lemma StripsCommute(relations: map<RelationKey, Relation>, gone: set<Id>, a: string, b: string)
    requires a != b
    ensures TwiceStripped(relations, gone, a, b) == TwiceStripped(relations, gone, b, a)
  {
    forall k | k in relations
      ensures WithoutSource(WithoutSource(relations[k], a), b) == WithoutSource(WithoutSource(relations[k], b), a)
      ensures OnlyFromSource(relations[k], a) || OnlyFromSource(WithoutSource(relations[k], a), b)
         <==> OnlyFromSource(relations[k], b) || OnlyFromSource(WithoutSource(relations[k], b), a)
    {
      StripCommutes(relations[k], a, b);
    }
  }

  /** Two purges remove exactly the entities nobody outside the two sources points at. */
  lemma PurgedEntities(g: Graph, a: string, b: string)
    requires a != b
    ensures forall id :: id in Purged(Purged(g, a), b).entities <==>
              id in g.entities && id !in OnlyPointedAtBy(g, SourceDocs(g, a) + SourceDocs(g, b))
  {
    var pa := Purged(g, a);
    var da, db := SourceDocs(g, a), SourceDocs(g, b);
    assert SourceDocs(pa, b) == db;
    assert Links(pa) == set e | e in Links(g) && e.doc !in da;
    forall id | id in g.entities
      ensures PointedAt(pa, db, id) == PointedAt(g, db, id)
      ensures PointedAtByOthers(pa, db, id) == PointedAtByOthers(g, da + db, id)
      ensures PointedAtByOthers(g, da, id) == (PointedAt(g, db, id) || PointedAtByOthers(g, da + db, id))
      ensures PointedAt(g, da + db, id) == (PointedAt(g, da, id) || PointedAt(g, db, id))
    {
      TwoSources(g, pa, da, db, id);
    }
  }

  lemma TwoSources(g: Graph, pa: Graph, da: set<Id>, db: set<Id>, id: Id)
    requires Links(pa) == (set e | e in Links(g) && e.doc !in da) && da !! db
    ensures PointedAt(pa, db, id) == PointedAt(g, db, id)
    ensures PointedAtByOthers(pa, db, id) == PointedAtByOthers(g, da + db, id)
    ensures PointedAtByOthers(g, da, id) == (PointedAt(g, db, id) || PointedAtByOthers(g, da + db, id))
    ensures PointedAt(g, da + db, id) == (PointedAt(g, da, id) || PointedAt(g, db, id))
  {
    if e :| e in Links(g) && e.ent == id && e.doc in db {
      assert e in Links(pa);
    }
    if e :| e in Links(g) && e.ent == id && e.doc !in da + db {
      assert e in Links(pa);
    }
    if e :| e in Links(g) && e.ent == id && e.doc !in da {
      assert e.doc in db || e.doc !in da + db;
    }
  }

  lemma StripCommutes(r: Relation, a: string, b: string)
    ensures WithoutSource(WithoutSource(r, a), b) == WithoutSource(WithoutSource(r, b), a)
    ensures a != b ==> (OnlyFromSource(r, a) || OnlyFromSource(WithoutSource(r, a), b) <==>
                        OnlyFromSource(r, b) || OnlyFromSource(WithoutSource(r, b), a))
  {
    if r.files.Some? {
      FilterCommutes(r.files.value, x => x != a, x => x != b);
    }
  }

  lemma {:induction false} FilterCommutes<T(!new)>(s: seq<T>, p: T -> bool, q: T -> bool)
    ensures Filter(Filter(s, p), q) == Filter(Filter(s, q), p)
  {
    if s != [] {
      var head, last := s[..|s| - 1], s[|s| - 1];
      FilterCommutes(head, p, q);
      FilterAppend(Filter(head, p), if p(last) then [last] else [], q);
      FilterAppend(Filter(head, q), if q(last) then [last] else [], p);
    }
  }

  lemma PurgedRelations(g: Graph, a: string, b: string)
    requires WellFormed(g) && a != b
    ensures var gone := OnlyPointedAtBy(g, SourceDocs(g, a) + SourceDocs(g, b));
            Purged(Purged(g, a), b).relations == TwiceStripped(g.relations, gone, a, b)
  {
    var gone := OnlyPointedAtBy(g, SourceDocs(g, a) + SourceDocs(g, b));
    var ab, twice := Purged(Purged(g, a), b).relations, TwiceStripped(g.relations, gone, a, b);
    PurgedEntities(g, a, b);
    PurgeKeepsWellFormed(g, a);
    forall k ensures Get(ab, k) == Get(twice, k) {
      PurgedEdge(g, a, k);
      PurgedEdge(Purged(g, a), b, k);
    }
    SameEverywhere(ab, twice);
  }

  /** An edge survives a purge if its ends do and it has another file. */
  lemma PurgedEdge(g: Graph, source: string, k: RelationKey)
    requires WellFormed(g)
    ensures var p := Purged(g, source);
            && p.entities.Keys <= g.entities.Keys
            && (k in p.relations <==> k in g.relations && k.source in p.entities && k.target in p.entities && !OnlyFromSource(g.relations[k], source))
            && (k in p.relations ==> p.relations[k] == WithoutSource(g.relations[k], source))
  {
  }

  /** A similarity edge goes if and only if one of its documents is from the source, and no document does. */
  lemma PurgeSparesSimilar(g: Graph, source: string, s: Similar)
    requires WellFormed(g) && s in g.similar
    ensures s in Purged(g, source).similar <==> !IsFrom(g.documents[s.from], source) && !IsFrom(g.documents[s.to], source)
    ensures Purged(g, source).documents == g.documents
  {
  }
}
