/** A phase purge that stops in any of its four loops and is run again. */
module StoppedPurge {
  import opened Prelude
  import opened Metadata
  import opened Graph
  import opened Deletion
  import opened SourcePurge

  /** Where the first run stops, and what that loop has handled by then. */
  datatype PurgeStop =
    | InEdges(done: set<Id>)
    | InPrune(pruned: set<Id>)
    | InSimilar(dropped: set<Similar>)
    | InRelated(stripped: set<RelationKey>)

  ghost function AfterSimilar(g: Graph, source: string): Graph {
    DropSimilar(AfterPrune(g, source), SimilarOf(AfterPrune(g, source), SourceDocs(g, source)))
  }

  /** What a loop has handled is part of what it set out to handle. */
  ghost predicate StopsIn(g: Graph, source: string, stop: PurgeStop) {
    match stop
    case InEdges(done) => done <= SourceDocs(g, source)
    case InPrune(pruned) => pruned <= Candidates(g, SourceDocs(g, source))
    case InSimilar(dropped) => dropped <= SimilarOf(AfterPrune(g, source), SourceDocs(g, source))
    case InRelated(stripped) => stripped <= RelatedOf(AfterSimilar(g, source), source)
  }

  ghost function Stopped(g: Graph, source: string, stop: PurgeStop): Graph {
    match stop
    case InEdges(done) => DropDocumentEdges(g, done)
    case InPrune(pruned) => PruneUnreferenced(DropDocumentEdges(g, SourceDocs(g, source)), pruned)
    case InSimilar(dropped) => DropSimilar(AfterPrune(g, source), dropped)
    case InRelated(stripped) => StripRelated(source)(AfterSimilar(g, source), stripped)
  }

  /** The entities the second run no longer finds: their last edges are gone, they are not. */
  ghost function LeftBehind(g: Graph, source: string, stop: PurgeStop): set<Id> {
    match stop
    case InEdges(done) => OnlyPointedAtBy(g, done)
    case InPrune(pruned) => OnlyPointedAtBy(g, SourceDocs(g, source)) - pruned
    case _ => {}
  }

  // ----- stopped while deleting edges -----

  /** A purge stopped once the edges of the documents `done` are deleted, then run again. */
  ghost function PurgedAfterStop(g: Graph, source: string, done: set<Id>): Graph {
    Purged(DropDocumentEdges(g, done), source)
  }

  /** The candidates are read from the edges, so entities whose last edges the stopped run deleted
      are never candidates again: the second run leaves exactly those behind. */
  lemma EdgeStopLeaves(g: Graph, source: string, done: set<Id>)
    requires WellFormed(g) && done <= SourceDocs(g, source)
    ensures PurgedAfterStop(g, source, done).entities.Keys
         == Purged(g, source).entities.Keys + (set id | id in g.entities && PointedAt(g, done, id) && !PointedAtByOthers(g, done, id))
  {
    var h := DropDocumentEdges(g, done);
    var docs := SourceDocs(g, source);
    assert SourceDocs(h, source) == docs;
    assert Links(h) == set e | e in Links(g) && e.doc !in done;
    forall id | id in g.entities
      ensures PointedAt(h, docs, id) == PointedAt(g, docs - done, id)
      ensures PointedAtByOthers(h, docs, id) == PointedAtByOthers(g, docs, id)
      ensures PointedAt(g, docs, id) == (PointedAt(g, done, id) || PointedAt(g, docs - done, id))
      ensures PointedAtByOthers(g, done, id) == (PointedAt(g, docs - done, id) || PointedAtByOthers(g, docs, id))
    {
      if e :| e in Links(g) && e.ent == id && e.doc in docs - done { assert e in Links(h); }
      if e :| e in Links(g) && e.ent == id && e.doc !in docs { assert e in Links(h); }
      if e :| e in Links(g) && e.ent == id && e.doc in docs { assert e.doc in done || e.doc in docs - done; }
      if e :| e in Links(g) && e.ent == id && e.doc !in done { assert e.doc in docs - done || e.doc !in docs; }
    }
  }

  /** Re-running a stopped purge completes it exactly when every entity the stopped part had detached
      from its documents still has an edge from another document. */
  lemma EdgeStopCompletesIff(g: Graph, source: string, done: set<Id>)
    requires WellFormed(g) && done <= SourceDocs(g, source)
    ensures PurgedAfterStop(g, source, done) == Purged(g, source) <==>
            forall id :: id in g.entities && PointedAt(g, done, id) ==> PointedAtByOthers(g, done, id)
  {
    EdgeStopLeaves(g, source, done);
    var p, q := Purged(g, source), PurgedAfterStop(g, source, done);
    if forall id :: id in g.entities && PointedAt(g, done, id) ==> PointedAtByOthers(g, done, id) {
      var h := DropDocumentEdges(g, done);
      assert SourceDocs(h, source) == SourceDocs(g, source);
      assert q.entities.Keys == p.entities.Keys;
      assert q.entities == p.entities;
      assert q.mentions == p.mentions;
      assert q.provenance == p.provenance;
      assert q.similar == p.similar;
      SameGone(g, source, p, h, q);
      assert q.relations == p.relations;
    } else {
      var id :| id in g.entities && PointedAt(g, done, id) && !PointedAtByOthers(g, done, id);
      OnlyByPart(g, SourceDocs(g, source), done, id);
      assert id in q.entities.Keys && id !in p.entities.Keys;
    }
  }

  lemma OnlyByPart(g: Graph, docs: set<Id>, part: set<Id>, id: Id)
    requires part <= docs && PointedAt(g, part, id) && !PointedAtByOthers(g, part, id)
    ensures PointedAt(g, docs, id) && !PointedAtByOthers(g, docs, id)
  {
    var e :| e in Links(g) && e.ent == id && e.doc in part;
  }

  lemma SameGone(g: Graph, source: string, p: Graph, h: Graph, q: Graph)
    requires WellFormed(g) && h.entities == g.entities && h.relations == g.relations
    requires p == Purged(g, source) && q == Purged(h, source) && q.entities.Keys == p.entities.Keys
    ensures q.relations == p.relations
  {
    forall k | k in g.relations ensures k in q.relations <==> k in p.relations {
      assert k.source in g.entities && k.target in g.entities;
      assert k.source in p.entities.Keys <==> k.source in q.entities.Keys;
      assert k.target in p.entities.Keys <==> k.target in q.entities.Keys;
    }
  }

  // ----- stopped in a later loop -----

  /** All edges of the source's documents gone, the entities `part` pruned, some similarity edges
      dropped, some relations stripped. */
  ghost predicate Partly(g: Graph, source: string, part: set<Id>, h: Graph) {
    var docs := SourceDocs(g, source);
    && part <= OnlyPointedAtBy(g, docs)
    && h.documents == g.documents
    && h.entities == (map id | id in g.entities && id !in part :: g.entities[id])
    && h.mentions == (map e | e in g.mentions && e.doc !in docs :: g.mentions[e])
    && h.provenance == (set e | e in g.provenance && e.doc !in docs)
    && (forall s :: s in h.similar ==> s in g.similar)
    && (forall s :: s in g.similar && s !in h.similar ==> s.from in docs || s.to in docs)
    && (forall k :: k in h.relations ==> k in g.relations && k.source !in part && k.target !in part)
    && (forall k :: k in h.relations ==> h.relations[k] == g.relations[k] || h.relations[k] == WithoutSource(g.relations[k], source))
    && (forall k :: k in g.relations && k.source !in part && k.target !in part && k !in h.relations ==> OnlyFromSource(g.relations[k], source))
  }

  lemma StrippedOnce(r: Relation, source: string)
    ensures OnlyFromSource(WithoutSource(r, source), source) == false
    ensures WithoutSource(WithoutSource(r, source), source) == WithoutSource(r, source)
  {
    StripTwice(r, source);
  }

  /** The second run prunes nothing more; the rest of its work it finds and does. */
  lemma PartlyPurged(g: Graph, source: string, part: set<Id>, h: Graph)
    requires WellFormed(g) && Partly(g, source, part, h)
    ensures var q := Purged(h, source);
            && q.documents == g.documents && q.entities == h.entities
            && q.mentions == h.mentions && q.provenance == h.provenance
            && q.similar == Purged(g, source).similar
  {
    var docs := SourceDocs(g, source);
    assert SourceDocs(h, source) == docs;
    assert OnlyPointedAtBy(h, docs) == {};
    assert Purged(h, source).similar == Purged(g, source).similar;
  }

  lemma PartlyPurgedRelations(g: Graph, source: string, part: set<Id>, h: Graph)
    requires WellFormed(g) && Partly(g, source, part, h)
    requires forall k: RelationKey :: k in g.relations && OnlyFromSource(g.relations[k], source) && k in h.relations ==>
               h.relations[k] == g.relations[k]
    ensures Purged(h, source).relations == map k | k in g.relations && k.source !in part && k.target !in part && !OnlyFromSource(g.relations[k], source) ::
              WithoutSource(g.relations[k], source)
  {
    var docs := SourceDocs(g, source);
    assert SourceDocs(h, source) == docs;
    assert OnlyPointedAtBy(h, docs) == {};
    forall k | k in h.relations
      ensures OnlyFromSource(h.relations[k], source) == OnlyFromSource(g.relations[k], source)
      ensures WithoutSource(h.relations[k], source) == WithoutSource(g.relations[k], source)
    {
      StrippedOnce(g.relations[k], source);
    }
  }

  /** Run again over such a graph, the purge completes if and only if the prune had been complete. */
  lemma PartlyCompletesIff(g: Graph, source: string, part: set<Id>, h: Graph)
    requires WellFormed(g) && Partly(g, source, part, h)
    requires forall k: RelationKey :: k in g.relations && OnlyFromSource(g.relations[k], source) && k in h.relations ==>
               h.relations[k] == g.relations[k]
    ensures Purged(h, source).entities.Keys == Purged(g, source).entities.Keys + (OnlyPointedAtBy(g, SourceDocs(g, source)) - part)
    ensures Purged(h, source) == Purged(g, source) <==> OnlyPointedAtBy(g, SourceDocs(g, source)) == part
  {
    var gone := OnlyPointedAtBy(g, SourceDocs(g, source));
    PartlyPurged(g, source, part, h);
    PartlyPurgedRelations(g, source, part, h);
    assert Purged(h, source).entities.Keys == Purged(g, source).entities.Keys + (gone - part);
    if gone != part {
      var id :| id in gone && id !in part;
      assert id in Purged(h, source).entities.Keys && id !in Purged(g, source).entities.Keys;
    }
  }

  lemma StoppedPartly(g: Graph, source: string, stop: PurgeStop)
    requires WellFormed(g) && StopsIn(g, source, stop) && !stop.InEdges?
    ensures Partly(g, source, OnlyPointedAtBy(g, SourceDocs(g, source)) - LeftBehind(g, source, stop), Stopped(g, source, stop))
    ensures forall k: RelationKey :: k in g.relations && OnlyFromSource(g.relations[k], source) && k in Stopped(g, source, stop).relations ==>
              Stopped(g, source, stop).relations[k] == g.relations[k]
  {
    var docs := SourceDocs(g, source);
    var gone := OnlyPointedAtBy(g, docs);
    OthersKeepEdges(g, docs);
    PruneIsExact(g, source);
    match stop
    case InPrune(pruned) => PrunedPart(g, source, pruned);
    case InSimilar(dropped) => assert gone - {} == gone;
    case InRelated(stripped) =>
      assert gone - {} == gone;
      forall k | k in g.relations {
        StrippedEmpty(g.relations[k], source);
      }
  }

  lemma PrunedPart(g: Graph, source: string, pruned: set<Id>)
    requires WellFormed(g) && pruned <= Candidates(g, SourceDocs(g, source))
    ensures var docs := SourceDocs(g, source);
            PruneUnreferenced(DropDocumentEdges(g, docs), pruned)
              == DetachEntities(DropDocumentEdges(g, docs), OnlyPointedAtBy(g, docs) - (OnlyPointedAtBy(g, docs) - pruned))
  {
    var docs := SourceDocs(g, source);
    var h := DropDocumentEdges(g, docs);
    forall id ensures Provenanced(h, id) || Mentioned(h, id) <==> PointedAtByOthers(g, docs, id) {
      if e :| e in Links(g) && e.ent == id && e.doc !in docs {
        assert e in h.mentions || e in h.provenance;
      }
    }
    assert (set id | id in pruned && !Provenanced(h, id) && !Mentioned(h, id)) == OnlyPointedAtBy(g, docs) - (OnlyPointedAtBy(g, docs) - pruned);
  }

  // ----- wherever it stops -----

  /** What the second run leaves that an uninterrupted purge would not. */
  lemma StoppedPurgeLeaves(g: Graph, source: string, stop: PurgeStop)
    requires WellFormed(g) && StopsIn(g, source, stop)
    ensures Purged(Stopped(g, source, stop), source).entities.Keys == Purged(g, source).entities.Keys + LeftBehind(g, source, stop)
  {
    match stop
    case InEdges(done) =>
      EdgeStopLeaves(g, source, done);
    case _ =>
      var gone := OnlyPointedAtBy(g, SourceDocs(g, source));
      StoppedPartly(g, source, stop);
      PartlyCompletesIff(g, source, gone - LeftBehind(g, source, stop), Stopped(g, source, stop));
      assert gone - (gone - LeftBehind(g, source, stop)) == LeftBehind(g, source, stop);
  }

  /** Running a stopped purge again completes it if and only if it leaves no entity behind: always after
      a stop in the last two loops; in the prune only if everything was pruned; among the edges only if
      every entity detached from a document still has an edge from another one. */
  lemma StoppedPurgeCompletesIff(g: Graph, source: string, stop: PurgeStop)
    requires WellFormed(g) && StopsIn(g, source, stop)
    ensures Purged(Stopped(g, source, stop), source) == Purged(g, source) <==>
            match stop
            case InEdges(done) => forall id :: id in g.entities && PointedAt(g, done, id) ==> PointedAtByOthers(g, done, id)
            case InPrune(pruned) => OnlyPointedAtBy(g, SourceDocs(g, source)) <= pruned
            case _ => true
  {
    match stop
    case InEdges(done) =>
      EdgeStopCompletesIff(g, source, done);
    case _ =>
      var gone := OnlyPointedAtBy(g, SourceDocs(g, source));
      StoppedPartly(g, source, stop);
      PartlyCompletesIff(g, source, gone - LeftBehind(g, source, stop), Stopped(g, source, stop));
      assert gone == gone - LeftBehind(g, source, stop) <==> LeftBehind(g, source, stop) == {};
  }
}
