/** `delete_tenant_points`: the documents of one collection that match a metadata filter, and the
    cascade their deletion starts. */
module PointDeletion {
  import opened Prelude
  import opened Metadata
  import opened Graph
  import opened Deletion
  import opened SourcePurge

  predicate Matches(d: Document, collection: string, filter: map<string, string>) {
    && d.collection == collection
    && forall k :: k in filter ==> k in d.metadata && d.metadata[k] == filter[k]
  }

  function MatchingDocs(g: Graph, collection: string, filter: map<string, string>): set<Id> {
    set d | d in g.documents && Matches(g.documents[d], collection, filter)
  }

  /** An empty filter matches every document of the collection. */
  lemma NoPairMatchesAll(g: Graph, collection: string)
    ensures MatchingDocs(g, collection, map[]) == set d | d in g.documents && g.documents[d].collection == collection
  {
  }

  /** One more pair keeps exactly the documents that carry it, whatever else they carry. */
  lemma PairNarrows(g: Graph, collection: string, filter: map<string, string>, key: string, value: string)
    requires key !in filter
    ensures MatchingDocs(g, collection, filter[key := value])
         == set d | d in MatchingDocs(g, collection, filter) && key in g.documents[d].metadata && g.documents[d].metadata[key] == value
  {
    var more := filter[key := value];
    forall d | d in g.documents
      ensures Matches(g.documents[d], collection, more) <==>
              Matches(g.documents[d], collection, filter) && key in g.documents[d].metadata && g.documents[d].metadata[key] == value
    {
      assert forall k :: k in filter ==> k in more && more[k] == filter[k];
      assert key in more && more[key] == value;
    }
  }

  /** The source alone selects the documents of the source. */
  lemma SourceAloneMatches(g: Graph, collection: string, source: string)
    ensures MatchingDocs(g, collection, map["source" := source])
         == set d | d in SourceDocs(g, source) && g.documents[d].collection == collection
  {
    assert "source" in map["source" := source];
  }

  /** `(metadata or {}).get("source")`; an empty string is falsy. */
  function SourceOf(filter: map<string, string>): Option<string> {
    if "source" in filter && filter["source"] != "" then Some(filter["source"]) else None
  }

  function UntracedIds(g: Graph): set<Id> {
    set id | id in g.entities && g.entities[id].tracked && !Provenanced(g, id)
  }

  function UnreferencedIds(g: Graph): set<Id> {
    set id | id in g.entities && !Provenanced(g, id) && !Mentioned(g, id)
  }

  /** The whole deletion at once: with a source, its name leaves every file list and tracked entities
      without provenance go; without one, every entity without an incoming edge goes. */
  ghost function Deleted(g: Graph, collection: string, filter: map<string, string>): Graph {
    var h := DetachDocuments(g, MatchingDocs(g, collection, filter));
    match SourceOf(filter)
    case Some(source) =>
      var stripped := h.(relations := StrippedRelations(h, source));
      DetachEntities(stripped, UntracedIds(stripped))
    case None => DetachEntities(h, UnreferencedIds(h))
  }

  /** It lies in another collection, or lacks a pair of the filter or has another value there. */
  predicate Stays(d: Document, collection: string, filter: map<string, string>) {
    d.collection != collection || exists k :: k in filter && (k !in d.metadata || d.metadata[k] != filter[k])
  }

  lemma DocumentsThatStay(g: Graph, collection: string, filter: map<string, string>)
    ensures var h := Deleted(g, collection, filter);
            && (forall d :: d in h.documents <==> d in g.documents && Stays(g.documents[d], collection, filter))
            && (forall d :: d in h.documents ==> h.documents[d] == g.documents[d])
  {
    forall d | d in g.documents ensures d in MatchingDocs(g, collection, filter) <==> !Stays(g.documents[d], collection, filter) {
    }
  }

  method DeleteTenantPoints(store: Store, collection: string, filter: map<string, string>, maxItems: int := DELETE_BATCH_MAX_ITEMS)
    requires 1 <= maxItems <= DELETE_BATCH_MAX_ITEMS
    modifies store
    ensures store.graph == Deleted(old(store.graph), collection, filter)
    ensures forall d :: d in store.graph.documents <==> d in old(store.graph.documents) && Stays(old(store.graph.documents)[d], collection, filter)
    ensures forall d :: d in store.graph.documents ==> store.graph.documents[d] == old(store.graph.documents)[d]
  {
    ghost var g := store.graph;
    DocumentsThatStay(g, collection, filter);
    var source := SourceOf(filter);
    StatementsAdditive(if source.Some? then source.value else "", collection);
    var documentIds := Rows(MatchingDocs(store.graph, collection, filter));
    ListsAll(documentIds, MatchingDocs(g, collection, filter));
    var _ := DeleteInBatches(store, documentIds, DeleteDocuments(collection), maxItems);
    OnlyMatching(g, collection, filter);
    if source.Some? {
      var relatedIds := Rows(RelatedOf(store.graph, source.value));
      ListsAll(relatedIds, RelatedOf(store.graph, source.value));
      StripIsExact(store.graph, source.value);
      var _ := DeleteInBatches(store, relatedIds, StripRelated(source.value), maxItems);
      var entityIds := Rows(UntracedIds(store.graph));
      ListsAll(entityIds, UntracedIds(store.graph));
      assert Untraced(store.graph, UntracedIds(store.graph)) == UntracedIds(store.graph);
      var _ := DeleteInBatches(store, entityIds, PruneTracked, maxItems);
    } else {
      var entityIds := Rows(UnreferencedIds(store.graph));
      ListsAll(entityIds, UnreferencedIds(store.graph));
      assert Unreferenced(store.graph, UnreferencedIds(store.graph)) == UnreferencedIds(store.graph);
      var _ := DeleteInBatches(store, entityIds, PruneUnreferenced, maxItems);
    }
  }

  lemma OnlyMatching(g: Graph, collection: string, filter: map<string, string>)
    ensures DeleteDocuments(collection)(g, MatchingDocs(g, collection, filter)) == DetachDocuments(g, MatchingDocs(g, collection, filter))
  {
    var docs := MatchingDocs(g, collection, filter);
    assert (set d | d in docs && d in g.documents && g.documents[d].collection == collection) == docs;
  }

  lemma DeletionKeepsWellFormed(g: Graph, collection: string, filter: map<string, string>)
    requires WellFormed(g)
    ensures WellFormed(Deleted(g, collection, filter))
  {
  }

  /** Exactly these entities go: with a source, the tracked ones all of whose PROVENANCE came from the
      deleted documents; without one, those no other document points at. */
  lemma DeletionExact(g: Graph, collection: string, filter: map<string, string>, id: Id)
    requires id in g.entities
    ensures var docs := MatchingDocs(g, collection, filter);
            id !in Deleted(g, collection, filter).entities <==>
              if "source" in filter && filter["source"] != ""
              then g.entities[id].tracked && forall e :: e in g.provenance && e.ent == id ==> e.doc in docs
              else !PointedAtByOthers(g, docs, id)
  {
    var docs := MatchingDocs(g, collection, filter);
    var h := DetachDocuments(g, docs);
    match SourceOf(filter)
    case Some(source) =>
      ProvenanceKept(g, docs, id);
      var stripped := h.(relations := StrippedRelations(h, source));
      assert Provenanced(stripped, id) == Provenanced(h, id);
    case None =>
      PointedAtKept(g, docs, id);
  }

  lemma ProvenanceKept(g: Graph, docs: set<Id>, id: Id)
    ensures Provenanced(DetachDocuments(g, docs), id) <==> exists e :: e in g.provenance && e.ent == id && e.doc !in docs
  {
    if e :| e in g.provenance && e.ent == id && e.doc !in docs {
      assert e in DetachDocuments(g, docs).provenance;
    }
  }

  lemma PointedAtKept(g: Graph, docs: set<Id>, id: Id)
    ensures var h := DetachDocuments(g, docs); Provenanced(h, id) || Mentioned(h, id) <==> PointedAtByOthers(g, docs, id)
  {
    var h := DetachDocuments(g, docs);
    if e :| e in Links(g) && e.ent == id && e.doc !in docs {
      assert e in h.mentions || e in h.provenance;
    }
  }

  /** A second deletion with the same filter is the identity. */
  lemma {:induction false} DeletionTwice(g: Graph, collection: string, filter: map<string, string>)
    ensures Deleted(Deleted(g, collection, filter), collection, filter) == Deleted(g, collection, filter)
  {
    var d := Deleted(g, collection, filter);
    assert MatchingDocs(d, collection, filter) == {};
    DetachDocumentsNone(d);
    match SourceOf(filter)
    case Some(source) =>
      ScopedLeavesNothing(g, MatchingDocs(g, collection, filter), source, d);
      assert d.(relations := d.relations) == d;
      DetachNone(d);
    case None =>
      var h := DetachDocuments(g, MatchingDocs(g, collection, filter));
      NothingLeftToPrune(h, UnreferencedIds(h));
      DetachNone(d);
      assert UnreferencedIds(d) == {};
  }

  lemma ScopedLeavesNothing(g: Graph, docs: set<Id>, source: string, d: Graph)
    requires var h := DetachDocuments(g, docs);
             var stripped := h.(relations := StrippedRelations(h, source));
             d == DetachEntities(stripped, UntracedIds(stripped))
    ensures StrippedRelations(d, source) == d.relations && UntracedIds(d) == {}
  {
    forall k | k in d.relations ensures !OnlyFromSource(d.relations[k], source) && WithoutSource(d.relations[k], source) == d.relations[k] {
      StripTwice(g.relations[k], source);
      StrippedEmpty(d.relations[k], source);
    }
    var h := DetachDocuments(g, docs);
    var stripped := h.(relations := StrippedRelations(h, source));
    NothingLeftToPrune(stripped, UntracedIds(stripped));
  }

  lemma NothingLeftToPrune(g: Graph, ids: set<Id>)
    ensures forall id :: id !in ids ==>
              Provenanced(DetachEntities(g, ids), id) == Provenanced(g, id) && Mentioned(DetachEntities(g, ids), id) == Mentioned(g, id)
  {
    forall id | id !in ids
      ensures Provenanced(DetachEntities(g, ids), id) == Provenanced(g, id) && Mentioned(DetachEntities(g, ids), id) == Mentioned(g, id)
    {
      DetachKeepsEdges(g, ids, id);
    }
  }

  /** A relation between entities that stay: without a source it is as it was; with one it loses the source from
      its list, keeps weight and other files in order, and goes only if the source was its only file. */
  lemma DeletionSparesRelations(g: Graph, collection: string, filter: map<string, string>, k: RelationKey)
    requires k in g.relations && k.source in Deleted(g, collection, filter).entities && k.target in Deleted(g, collection, filter).entities
    ensures var r, h := g.relations[k], Deleted(g, collection, filter);
            if "source" in filter && filter["source"] != "" then
              var source := filter["source"];
              && (k !in h.relations <==> r.files.Some? && source in r.files.value && forall f :: f in r.files.value ==> f == source)
              && (k in h.relations ==> h.relations[k].weight == r.weight)
              && (k in h.relations && r.files.Some? ==> h.relations[k].files == Some(Filter(r.files.value, f => f != source)))
              && (k in h.relations && r.files.None? ==> h.relations[k] == r)
            else k in h.relations && h.relations[k] == r
  {
    match SourceOf(filter)
    case Some(source) => StrippedEmpty(g.relations[k], source);
    case None =>
  }

  lemma EdgesDetached(g: Graph, docs: set<Id>, relations: map<RelationKey, Relation>, ids: set<Id>, h: Graph, e: Edge, s: Similar)
    requires WellFormed(g) && h == DetachEntities(DetachDocuments(g, docs).(relations := relations), ids)
    ensures Get(h.mentions, e) == if e.doc in h.documents && e.ent in h.entities then Get(g.mentions, e) else None
    ensures e in h.provenance <==> e in g.provenance && e.doc in h.documents && e.ent in h.entities
    ensures s in h.similar <==> s in g.similar && s.from in h.documents && s.to in h.documents
  {
  }

  /** Every other edge stays, unchanged, if and only if the nodes at both its ends do. */
  lemma DeletionSparesEdges(g: Graph, collection: string, filter: map<string, string>, e: Edge, s: Similar)
    requires WellFormed(g)
    ensures var h := Deleted(g, collection, filter);
            && (Get(h.mentions, e) == if e.doc in h.documents && e.ent in h.entities then Get(g.mentions, e) else None)
            && (e in h.provenance <==> e in g.provenance && e.doc in h.documents && e.ent in h.entities)
            && (s in h.similar <==> s in g.similar && s.from in h.documents && s.to in h.documents)
  {
    var docs, h := MatchingDocs(g, collection, filter), Deleted(g, collection, filter);
    var d := DetachDocuments(g, docs);
    match SourceOf(filter)
    case Some(source) =>
      var stripped := d.(relations := StrippedRelations(d, source));
      EdgesDetached(g, docs, stripped.relations, UntracedIds(stripped), h, e, s);
    case None =>
      assert d.(relations := d.relations) == d;
      EdgesDetached(g, docs, d.relations, UnreferencedIds(d), h, e, s);
  }
}
