/** Deletions of points that stop in any of their loops, and what an interrupted cascade keeps of the
    provenance invariant until it is run again. */
module Interrupted {
  import opened Prelude
  import opened Metadata
  import opened Graph
  import opened Deletion
  import opened SourcePurge
  import opened StoppedPurge
  import opened PointDeletion
  import opened Provenance

  /** Where a deletion stops, and what that loop has handled by then. Without a source there is no strip. */
  datatype DeletionStop = InDocuments(done: set<Id>) | InStrip(stripped: set<RelationKey>) | InEntities(pruned: set<Id>)

  /** The graph between the strip and the prune. */
  ghost function BeforePrune(g: Graph, collection: string, filter: map<string, string>): Graph {
    var h := DetachDocuments(g, MatchingDocs(g, collection, filter));
    if SourceOf(filter).Some? then h.(relations := StrippedRelations(h, SourceOf(filter).value)) else h
  }

  ghost predicate DeletionStopsIn(g: Graph, collection: string, filter: map<string, string>, stop: DeletionStop) {
    match stop
    case InDocuments(done) => done <= MatchingDocs(g, collection, filter)
    case InStrip(stripped) => SourceOf(filter).Some? && stripped <= RelatedOf(DetachDocuments(g, MatchingDocs(g, collection, filter)), SourceOf(filter).value)
    case InEntities(pruned) =>
      var h := BeforePrune(g, collection, filter);
      pruned <= if SourceOf(filter).Some? then UntracedIds(h) else UnreferencedIds(h)
  }

  ghost function StoppedDeletion(g: Graph, collection: string, filter: map<string, string>, stop: DeletionStop): Graph
    requires DeletionStopsIn(g, collection, filter, stop)
  {
    match stop
    case InDocuments(done) => DetachDocuments(g, done)
    case InStrip(stripped) => StripRelated(SourceOf(filter).value)(DetachDocuments(g, MatchingDocs(g, collection, filter)), stripped)
    case InEntities(pruned) => DetachEntities(BeforePrune(g, collection, filter), pruned)
  }

  /** Unlike a purge, a stopped deletion is completed by running it again: what it prunes is read from
      the graph as a whole. */
  lemma StoppedDeletionCompletes(g: Graph, collection: string, filter: map<string, string>, stop: DeletionStop)
    requires DeletionStopsIn(g, collection, filter, stop)
    ensures Deleted(StoppedDeletion(g, collection, filter, stop), collection, filter) == Deleted(g, collection, filter)
  {
    match stop
    case InDocuments(done) => StoppedInDocuments(g, collection, filter, done);
    case InStrip(stripped) => StoppedInStrip(g, collection, filter, stripped);
    case InEntities(pruned) => StoppedInEntities(g, collection, filter, pruned);
  }

  lemma StoppedInDocuments(g: Graph, collection: string, filter: map<string, string>, done: set<Id>)
    requires done <= MatchingDocs(g, collection, filter)
    ensures Deleted(DetachDocuments(g, done), collection, filter) == Deleted(g, collection, filter)
  {
    var h := DetachDocuments(g, done);
    assert MatchingDocs(h, collection, filter) == MatchingDocs(g, collection, filter) - done;
    DetachDocumentsTwice(g, done, MatchingDocs(h, collection, filter));
    assert done + MatchingDocs(h, collection, filter) == MatchingDocs(g, collection, filter);
  }

  lemma StoppedInStrip(g: Graph, collection: string, filter: map<string, string>, stripped: set<RelationKey>)
    requires DeletionStopsIn(g, collection, filter, InStrip(stripped))
    ensures Deleted(StoppedDeletion(g, collection, filter, InStrip(stripped)), collection, filter) == Deleted(g, collection, filter)
  {
    var source := SourceOf(filter).value;
    var h := DetachDocuments(g, MatchingDocs(g, collection, filter));
    var s := StripRelated(source)(h, stripped);
    assert MatchingDocs(s, collection, filter) == {};
    DetachDocumentsNone(s);
    StripCompletes(h, source, stripped);
    assert BeforePrune(s, collection, filter) == BeforePrune(g, collection, filter);
  }

  lemma StripCompletes(h: Graph, source: string, stripped: set<RelationKey>)
    requires stripped <= RelatedOf(h, source)
    ensures StrippedRelations(StripRelated(source)(h, stripped), source) == StrippedRelations(h, source)
  {
    var s := StripRelated(source)(h, stripped);
    forall k | k in h.relations
      ensures k in s.relations ==> OnlyFromSource(s.relations[k], source) == OnlyFromSource(h.relations[k], source)
      ensures k in s.relations ==> WithoutSource(s.relations[k], source) == WithoutSource(h.relations[k], source)
      ensures k !in s.relations ==> OnlyFromSource(h.relations[k], source)
    {
      StrippedEmpty(h.relations[k], source);
      StrippedOnce(h.relations[k], source);
    }
  }

  lemma StoppedInEntities(g: Graph, collection: string, filter: map<string, string>, pruned: set<Id>)
    requires DeletionStopsIn(g, collection, filter, InEntities(pruned))
    ensures Deleted(StoppedDeletion(g, collection, filter, InEntities(pruned)), collection, filter) == Deleted(g, collection, filter)
  {
    var h := BeforePrune(g, collection, filter);
    var s := DetachEntities(h, pruned);
    assert MatchingDocs(s, collection, filter) == {};
    DetachDocumentsNone(s);
    if SourceOf(filter).Some? {
      StrippedStays(DetachDocuments(g, MatchingDocs(g, collection, filter)), SourceOf(filter).value, pruned);
      assert s.(relations := s.relations) == s;
      PruneTrackedCompletes(h, pruned);
    } else {
      PruneUnreferencedCompletes(h, pruned);
    }
  }

  lemma StrippedStays(h: Graph, source: string, pruned: set<Id>)
    ensures var s := DetachEntities(h.(relations := StrippedRelations(h, source)), pruned); StrippedRelations(s, source) == s.relations
  {
    var s := DetachEntities(h.(relations := StrippedRelations(h, source)), pruned);
    forall k | k in s.relations ensures !OnlyFromSource(s.relations[k], source) && WithoutSource(s.relations[k], source) == s.relations[k] {
      StrippedOnce(h.relations[k], source);
    }
  }

  lemma PruneTrackedCompletes(h: Graph, pruned: set<Id>)
    requires pruned <= UntracedIds(h)
    ensures DetachEntities(DetachEntities(h, pruned), UntracedIds(DetachEntities(h, pruned))) == DetachEntities(h, UntracedIds(h))
  {
    var s := DetachEntities(h, pruned);
    NothingLeftToPrune(h, pruned);
    DetachTwice(h, pruned, UntracedIds(s));
    assert pruned + UntracedIds(s) == UntracedIds(h);
  }

  lemma PruneUnreferencedCompletes(h: Graph, pruned: set<Id>)
    requires pruned <= UnreferencedIds(h)
    ensures DetachEntities(DetachEntities(h, pruned), UnreferencedIds(DetachEntities(h, pruned))) == DetachEntities(h, UnreferencedIds(h))
  {
    var s := DetachEntities(h, pruned);
    NothingLeftToPrune(h, pruned);
    DetachTwice(h, pruned, UnreferencedIds(s));
    assert pruned + UnreferencedIds(s) == UnreferencedIds(h);
  }

  // ----- what an interrupted cascade keeps -----

  /** The provenance invariant of `h`, reached from `g`, except for what names the source: lists may name
      it without its documents, and a tracked entity may have no provenance if all it had came from them. */
  ghost predicate TracedBut(g: Graph, h: Graph, source: string) {
    && WellFormed(h)
    && (forall e :: e in h.mentions ==> e in h.provenance)
    && (forall id :: id in h.entities && h.entities[id].tracked ==> Provenanced(h, id) || OnlyTracedTo(g, source, id))
    && (forall k :: k in h.relations && h.relations[k].files.Some? ==> FilesBackedBut(h, k, h.relations[k].files.value, source))
  }

  ghost predicate OnlyTracedTo(g: Graph, source: string, id: Id) {
    Provenanced(g, id) && forall e :: e in g.provenance && e.ent == id ==> e.doc in SourceDocs(g, source)
  }

  /** Documents and edges of other sources, and the entities they need, are all still there. */
  ghost predicate KeepsOthers(g: Graph, h: Graph, source: string) {
    && (forall d :: d in g.documents && !IsFrom(g.documents[d], source) ==> d in h.documents && h.documents[d] == g.documents[d])
    && (forall e :: e in g.provenance && e.doc in g.documents && !IsFrom(g.documents[e.doc], source) ==> e in h.provenance)
    && (forall id :: id in h.entities ==> id in g.entities && h.entities[id] == g.entities[id])
    && (forall k :: k in h.relations ==> EdgeKept(g, source, k, h.relations[k]))
  }

  /** The edge is as it was, or stripped of the source with something left. */
  ghost predicate EdgeKept(g: Graph, source: string, k: RelationKey, r: Relation) {
    k in g.relations && (r == g.relations[k] || (r == WithoutSource(g.relations[k], source) && !OnlyFromSource(g.relations[k], source)))
  }

  lemma OthersStayBacked(g: Graph, h: Graph, source: string, f: string, id: Id)
    requires KeepsOthers(g, h, source) && f != source && Backed(g, f, id)
    ensures Backed(h, f, id)
  {
    var e :| e in g.provenance && e.ent == id && e.doc in g.documents && IsFrom(g.documents[e.doc], f);
    assert e in h.provenance;
  }

  lemma {:induction false} KeptIsTracedBut(g: Graph, h: Graph, source: string)
    requires Traced(g) && WellFormed(h) && KeepsOthers(g, h, source)
    requires forall e :: e in h.mentions ==> e in h.provenance
    ensures TracedBut(g, h, source)
  {
    forall id | id in h.entities && h.entities[id].tracked && !Provenanced(h, id) ensures OnlyTracedTo(g, source, id) {
    }
    forall k | k in h.relations && h.relations[k].files.Some? ensures FilesBackedBut(h, k, h.relations[k].files.value, source) {
      var files := g.relations[k].files.value;
      assert FilesBacked(g, k, files);
      FilterDistinct(files, x => x != source);
      StrippedEmpty(g.relations[k], source);
      forall f | f in files && f != source ensures Backed(h, f, k.source) && Backed(h, f, k.target) {
        OthersStayBacked(g, h, source, f, k.source);
        OthersStayBacked(g, h, source, f, k.target);
      }
    }
  }

  /** Wherever a purge stops, only what names its source is unfinished. */
  lemma StoppedPurgeTracedBut(g: Graph, source: string, stop: PurgeStop)
    requires Traced(g) && StopsIn(g, source, stop)
    ensures TracedBut(g, Stopped(g, source, stop), source)
  {
    if stop.InEdges? {
      KeptIsTracedBut(g, Stopped(g, source, stop), source);
    } else {
      var gone := OnlyPointedAtBy(g, SourceDocs(g, source));
      StoppedPartly(g, source, stop);
      RelationsKept(g, source, stop);
      PartlyKeeps(g, source, gone - LeftBehind(g, source, stop), Stopped(g, source, stop));
      KeptIsTracedBut(g, Stopped(g, source, stop), source);
    }
  }

  lemma RelationsKept(g: Graph, source: string, stop: PurgeStop)
    requires WellFormed(g) && StopsIn(g, source, stop) && !stop.InEdges?
    ensures forall k :: k in Stopped(g, source, stop).relations ==> EdgeKept(g, source, k, Stopped(g, source, stop).relations[k])
  {
    StoppedPartly(g, source, stop);
  }

  lemma PartlyKeeps(g: Graph, source: string, part: set<Id>, h: Graph)
    requires Traced(g) && Partly(g, source, part, h)
    requires forall k :: k in h.relations ==> EdgeKept(g, source, k, h.relations[k])
    ensures WellFormed(h) && KeepsOthers(g, h, source) && forall e :: e in h.mentions ==> e in h.provenance
  {
    OthersKeepEdges(g, SourceDocs(g, source));
  }

  /** The same for a deletion with a source. */
  lemma StoppedDeletionTracedBut(g: Graph, collection: string, filter: map<string, string>, stop: DeletionStop)
    requires Traced(g) && SourceOf(filter).Some? && DeletionStopsIn(g, collection, filter, stop)
    ensures TracedBut(g, StoppedDeletion(g, collection, filter, stop), SourceOf(filter).value)
  {
    StoppedDeletionKeeps(g, collection, filter, stop);
    KeptIsTracedBut(g, StoppedDeletion(g, collection, filter, stop), SourceOf(filter).value);
  }

  lemma StoppedDeletionKeeps(g: Graph, collection: string, filter: map<string, string>, stop: DeletionStop)
    requires Traced(g) && SourceOf(filter).Some? && DeletionStopsIn(g, collection, filter, stop)
    ensures var h := StoppedDeletion(g, collection, filter, stop);
            WellFormed(h) && KeepsOthers(g, h, SourceOf(filter).value) && forall e :: e in h.mentions ==> e in h.provenance
  {
    match stop
    case InDocuments(done) =>
    case InStrip(stripped) => StripStopKeeps(g, collection, filter, stripped);
    case InEntities(pruned) => PruneStopKeeps(g, collection, filter, pruned);
  }

  lemma StripStopKeeps(g: Graph, collection: string, filter: map<string, string>, stripped: set<RelationKey>)
    requires Traced(g) && SourceOf(filter).Some? && DeletionStopsIn(g, collection, filter, InStrip(stripped))
    ensures var h := StoppedDeletion(g, collection, filter, InStrip(stripped));
            WellFormed(h) && KeepsOthers(g, h, SourceOf(filter).value) && forall e :: e in h.mentions ==> e in h.provenance
  {
    var h := StoppedDeletion(g, collection, filter, InStrip(stripped));
    forall k | k in h.relations ensures EdgeKept(g, SourceOf(filter).value, k, h.relations[k]) {
      StrippedEmpty(g.relations[k], SourceOf(filter).value);
    }
  }

  lemma PruneStopKeeps(g: Graph, collection: string, filter: map<string, string>, pruned: set<Id>)
    requires Traced(g) && SourceOf(filter).Some? && DeletionStopsIn(g, collection, filter, InEntities(pruned))
    ensures var h := StoppedDeletion(g, collection, filter, InEntities(pruned));
            WellFormed(h) && KeepsOthers(g, h, SourceOf(filter).value) && forall e :: e in h.mentions ==> e in h.provenance
  {
    var h := BeforePrune(g, collection, filter);
    StrippedKeeps(g, MatchingDocs(g, collection, filter), SourceOf(filter).value);
    forall e | e in h.provenance ensures e.ent !in pruned {
      assert Provenanced(h, e.ent);
    }
    DetachKeeps(g, h, SourceOf(filter).value, pruned);
  }

  lemma StrippedKeeps(g: Graph, docs: set<Id>, source: string)
    requires Traced(g) && forall d :: d in docs ==> d in g.documents && IsFrom(g.documents[d], source)
    ensures var d := DetachDocuments(g, docs);
            var h := d.(relations := StrippedRelations(d, source));
            WellFormed(h) && KeepsOthers(g, h, source) && forall e :: e in h.mentions ==> e in h.provenance
  {
  }

  lemma DetachKeeps(g: Graph, h: Graph, source: string, pruned: set<Id>)
    requires WellFormed(h) && KeepsOthers(g, h, source) && forall e :: e in h.mentions ==> e in h.provenance
    requires forall e :: e in h.provenance ==> e.ent !in pruned
    ensures var s := DetachEntities(h, pruned);
            WellFormed(s) && KeepsOthers(g, s, source) && forall e :: e in s.mentions ==> e in s.provenance
  {
  }

  // ----- the purge run again -----

  /** A purge of what a stopped purge leaves repairs everything but the tracked entities. */
  lemma PurgeRepairs(g: Graph, h: Graph, source: string)
    requires TracedBut(g, h, source)
    ensures var q := Purged(h, source);
            && WellFormed(q) && (forall e :: e in q.mentions ==> e in q.provenance)
            && (forall k :: k in q.relations && q.relations[k].files.Some? ==> FilesBacked(q, k, q.relations[k].files.value))
  {
    var q, docs := Purged(h, source), SourceDocs(h, source);
    PurgeKeepsWellFormed(h, source);
    OthersKeepEdges(h, docs);
    forall k | k in q.relations && q.relations[k].files.Some? ensures FilesBacked(q, k, q.relations[k].files.value) {
      StrippedFilesBacked(h, q, docs, source, k);
    }
  }

  /** The second run keeps exactly the provenance edges an uninterrupted purge keeps. */
  lemma SameProvenance(g: Graph, h: Graph, source: string)
    requires WellFormed(g) && KeepsOthers(g, h, source) && h.provenance <= g.provenance && h.documents == g.documents
    ensures Purged(h, source).provenance == Purged(g, source).provenance
  {
    assert SourceDocs(h, source) == SourceDocs(g, source);
    forall e ensures e in Purged(h, source).provenance <==> e in Purged(g, source).provenance {
    }
  }

  lemma StoppedKeepsOthers(g: Graph, source: string, stop: PurgeStop)
    requires Traced(g) && StopsIn(g, source, stop)
    ensures var h := Stopped(g, source, stop);
            KeepsOthers(g, h, source) && h.provenance <= g.provenance && h.documents == g.documents
  {
    if !stop.InEdges? {
      StoppedPartly(g, source, stop);
      RelationsKept(g, source, stop);
      PartlyKeeps(g, source, OnlyPointedAtBy(g, SourceDocs(g, source)) - LeftBehind(g, source, stop), Stopped(g, source, stop));
    }
  }

  lemma LeftBehindUntraced(g: Graph, source: string, stop: PurgeStop, id: Id)
    requires StopsIn(g, source, stop) && id in LeftBehind(g, source, stop)
    ensures !Provenanced(Purged(g, source), id)
  {
    forall e | e in Purged(g, source).provenance ensures e.ent != id {
      assert e in Links(g) && e.doc !in SourceDocs(g, source);
    }
  }

  /** Running a stopped purge again restores the invariant if and only if no tracked entity is left behind. */
  lemma RerunTracedIff(g: Graph, source: string, stop: PurgeStop)
    requires Traced(g) && StopsIn(g, source, stop)
    ensures Traced(Purged(Stopped(g, source, stop), source)) <==>
            forall id :: id in LeftBehind(g, source, stop) ==> !g.entities[id].tracked
  {
    var h := Stopped(g, source, stop);
    var p, q := Purged(g, source), Purged(h, source);
    StoppedPurgeTracedBut(g, source, stop);
    PurgeRepairs(g, h, source);
    StoppedKeepsOthers(g, source, stop);
    SameProvenance(g, h, source);
    StoppedPurgeLeaves(g, source, stop);
    PurgeKeepsTraced(g, source);
    forall id | id in LeftBehind(g, source, stop) ensures !Provenanced(p, id) {
      LeftBehindUntraced(g, source, stop, id);
    }
    assert forall id :: id in q.entities ==> q.entities[id] == g.entities[id];
    TracedUnlessTracked(g, p, q, LeftBehind(g, source, stop));
  }

  /** Of two graphs with the same provenance the one with more entities is traced as long as none of
      the others is tracked. */
  lemma TracedUnlessTracked(g: Graph, p: Graph, q: Graph, others: set<Id>)
    requires Traced(p) && q.entities.Keys == p.entities.Keys + others && q.provenance == p.provenance
    requires forall id :: id in q.entities ==> id in g.entities && q.entities[id] == g.entities[id]
    requires forall id :: id in p.entities ==> p.entities[id] == q.entities[id]
    requires forall id :: id in others ==> !Provenanced(p, id)
    requires WellFormed(q) && (forall e :: e in q.mentions ==> e in q.provenance)
    requires forall k :: k in q.relations && q.relations[k].files.Some? ==> FilesBacked(q, k, q.relations[k].files.value)
    ensures Traced(q) <==> forall id :: id in others ==> !g.entities[id].tracked
  {
    assert forall id :: Provenanced(q, id) <==> Provenanced(p, id);
    assert forall id :: id in others ==> id in q.entities;
  }
}
