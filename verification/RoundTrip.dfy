/** Writing a source's graph and purging the source again: exactly when nothing but attributes and
    weights has changed. */
module RoundTrip {
  import opened Prelude
  import opened MapFold
  import opened Metadata
  import opened Graph
  import opened BatchedWrite
  import opened Rerun
  import opened Deletion
  import opened SourcePurge
  import opened Provenance

  /** The source has no edge and no place in a file list yet; its documents may be stored. */
  ghost predicate NotWrittenYet(g: Graph, source: string) {
    && (forall e :: e in Links(g) ==> e.doc !in SourceDocs(g, source))
    && (forall k :: k in g.relations && g.relations[k].files.Some? ==> source !in g.relations[k].files.value)
  }

  /** A deduplicated batch of the source. Documents may have been deleted since the extraction. */
  ghost predicate BatchOf(g: Graph, source: string, p: Plan) {
    && Deduplicated(p) && Closed(p.entities, p.mentions)
    && (forall m :: m in p.mentions && m.doc in g.documents ==> IsFrom(g.documents[m.doc], source))
    && (forall r :: r in p.relations ==> r.files == Some([source]))
  }

  /** Entity ids, MENTIONS, PROVENANCE, RELATED_TO edges and file lists are the same. */
  ghost predicate SameShape(a: Graph, b: Graph) {
    && a.entities.Keys == b.entities.Keys
    && a.mentions == b.mentions
    && a.provenance == b.provenance
    && a.relations.Keys == b.relations.Keys
    && (forall k :: k in a.relations ==> a.relations[k].files == b.relations[k].files)
  }

  ghost predicate HasEdge(g: Graph, id: Id) {
    exists e :: e in Links(g) && e.ent == id
  }

  /** The condition a caller can check on the graph and the batch before writing. */
  ghost predicate Reversible(g: Graph, p: Plan) {
    && (forall id :: id in Ids(p.entities) && id !in g.entities ==> Attached(g, p.mentions, id))
    && (forall id :: id in Ids(p.entities) && id in g.entities && Attached(g, p.mentions, id) ==> HasEdge(g, id))
    && (forall r :: r in p.relations && KeyOf(r) in g.relations ==>
          g.relations[KeyOf(r)].files.Some? && g.relations[KeyOf(r)].files.value != [])
  }

  // ----- entities and their incoming edges -----

  lemma BaseLinks(g: Graph, source: string, p: Plan)
    requires BatchOf(g, source, p)
    ensures var h := Base(g, p);
            && h.documents == g.documents && h.relations == g.relations
            && h.entities.Keys == g.entities.Keys + Ids(p.entities)
            && Links(h) == Links(g) + ProvenanceOf(g, p.mentions)
            && h.provenance == g.provenance + ProvenanceOf(g, p.mentions)
            && (forall e :: e in g.mentions && e !in ProvenanceOf(g, p.mentions) ==> e in h.mentions && h.mentions[e] == g.mentions[e])
            && h.mentions.Keys == g.mentions.Keys + ProvenanceOf(g, p.mentions)
  {
    TxWrote(g, p);
    var a := AttachedMentions(g, p.mentions);
    ApplyKeys(MentionUpsert(), g.mentions, a);
    AttachedKeys(g, p.mentions);
    var h := Base(g, p);
    forall e | e in g.mentions && e !in ProvenanceOf(g, p.mentions) ensures e in h.mentions && h.mentions[e] == g.mentions[e] {
      ApplyUntouched(MentionUpsert(), g.mentions, a, e);
      assert Get(h.mentions, e) == Get(g.mentions, e);
    }
  }

  lemma AttachedKeys(g: Graph, mentions: seq<MentionItem>)
    ensures Keys(MentionUpsert(), AttachedMentions(g, mentions)) == ProvenanceOf(g, mentions)
  {
    var a := AttachedMentions(g, mentions);
    forall e | e in Keys(MentionUpsert(), a) ensures e in ProvenanceOf(g, mentions) {
      var i :| 0 <= i < |a| && MentionUpsert().key(a[i]) == e;
      assert a[i] in a;
    }
    forall e | e in ProvenanceOf(g, mentions) ensures e in Keys(MentionUpsert(), a) {
      var m :| m in a && MentionEdge(m) == e;
      KeysMember(MentionUpsert(), a, m);
    }
  }

  /** After the write the source alone accounts for exactly the attached entities nobody linked before. */
  lemma GoneAfterWrite(g: Graph, source: string, p: Plan, h: Graph)
    requires NotWrittenYet(g, source) && BatchOf(g, source, p)
    requires h.documents == g.documents && h.entities.Keys == g.entities.Keys + Ids(p.entities)
    requires Links(h) == Links(g) + ProvenanceOf(g, p.mentions)
    ensures OnlyPointedAtBy(h, SourceDocs(h, source)) == set id | id in Ids(p.entities) && Attached(g, p.mentions, id) && !HasEdge(g, id)
  {
    var docs := SourceDocs(h, source);
    assert docs == SourceDocs(g, source);
    forall e | e in ProvenanceOf(g, p.mentions) ensures e.doc in docs {
    }
    forall id ensures PointedAt(h, docs, id) == Attached(g, p.mentions, id) {
      if Attached(g, p.mentions, id) {
        var m :| m in p.mentions && m.ent == id && m.doc in g.documents;
        assert m in AttachedMentions(g, p.mentions);
        assert MentionEdge(m) in Links(h);
      }
      if PointedAt(h, docs, id) {
        var e :| e in Links(h) && e.ent == id && e.doc in docs;
        var m :| m in AttachedMentions(g, p.mentions) && MentionEdge(m) == e;
        assert m in p.mentions;
      }
    }
    forall id ensures PointedAtByOthers(h, docs, id) == HasEdge(g, id) {
      if HasEdge(g, id) {
        var e :| e in Links(g) && e.ent == id;
        assert e in Links(h);
      }
    }
    forall id | Attached(g, p.mentions, id) ensures id in Ids(p.entities) {
      var m :| m in p.mentions && m.ent == id && m.doc in g.documents;
    }
  }

  // ----- relations -----

  /** What the purge leaves of an edge after the write. */
  lemma RelationRoundTrip(existing: Option<Relation>, item: RelationItem, source: string)
    requires item.files == Some([source])
    requires existing.Some? && existing.value.files.Some? ==> source !in existing.value.files.value
    ensures var r := MergeRelation(existing, item);
            && (OnlyFromSource(r, source) <==> existing.None? || existing.value.files.None? || existing.value.files.value == [])
            && (existing.Some? && existing.value.files.Some? ==> WithoutSource(r, source).files == existing.value.files)
  {
    if existing.Some? && existing.value.files.Some? {
      var kept := existing.value.files.value;
      FilterAll(kept, x => x !in [source]);
      FilterAppend(kept, [source], x => x != source);
      FilterAll(kept, x => x != source);
      FilterNone([source], x => x != source);
      assert kept + [] == kept;
      if kept != [] {
        assert kept[0] in kept + [source];
      }
    }
  }

  ghost predicate EndpointsStay(g: Graph, p: Plan, k: RelationKey) {
    Stays(g, p, k.source) && Stays(g, p, k.target)
  }

  ghost predicate Stays(g: Graph, p: Plan, id: Id) {
    !(id in Ids(p.entities) && Attached(g, p.mentions, id) && !HasEdge(g, id))
  }

  /** The edges left after write and purge are the old ones whose endpoints stay, minus the written
      ones that had no file list to protect them; their lists are the old ones. */
  lemma RelationsAfter(g: Graph, source: string, p: Plan)
    requires WellFormed(g) && NotWrittenYet(g, source) && BatchOf(g, source, p)
    ensures var q := Purged(WriteTx(g, p), source);
            && (forall k :: k in q.relations <==> k in g.relations && EndpointsStay(g, p, k) && !Unprotected(g, p, k))
            && (forall k :: k in q.relations ==> q.relations[k].files == g.relations[k].files)
  {
    WrittenRelations(g, source, p);
    BaseLinks(g, source, p);
    TxRelations(g, p);
    GoneAfterWrite(g, source, p, WriteTx(g, p));
    PurgedRelationsAre(g, source, p, WriteTx(g, p));
  }

  /** What the purge will make of the written edge is what the graph had before. */
  ghost predicate EdgeReturns(g: Graph, source: string, p: Plan, after: Option<Relation>, k: RelationKey) {
    && ((after.Some? && !OnlyFromSource(after.value, source)) <==> (k in g.relations && !Unprotected(g, p, k)))
    && (after.Some? && !OnlyFromSource(after.value, source) ==> WithoutSource(after.value, source).files == g.relations[k].files)
  }

  lemma WrittenRelations(g: Graph, source: string, p: Plan)
    requires WellFormed(g) && NotWrittenYet(g, source) && BatchOf(g, source, p)
    ensures forall k :: EdgeReturns(g, source, p, Get(WriteTx(g, p).relations, k), k)
  {
    var b := Base(g, p);
    var j := Joined(b, p.relations);
    BaseLinks(g, source, p);
    TxRelations(g, p);
    assert WriteTx(g, p).relations == ApplyAll(RelationUpsert(), g.relations, j);
    UniqueFilter(RelationUpsert(), p.relations, (r: RelationItem) => r.source in b.entities && r.target in b.entities);
    forall k ensures EdgeReturns(g, source, p, Get(WriteTx(g, p).relations, k), k) {
      OneRelationAfter(g, source, p, j, k);
    }
  }

  lemma PurgedRelationsAre(g: Graph, source: string, p: Plan, h: Graph)
    requires WellFormed(g)
    requires forall k :: EdgeReturns(g, source, p, Get(h.relations, k), k)
    requires OnlyPointedAtBy(h, SourceDocs(h, source)) == set id | id in Ids(p.entities) && Attached(g, p.mentions, id) && !HasEdge(g, id)
    ensures forall k :: k in Purged(h, source).relations <==> k in g.relations && EndpointsStay(g, p, k) && !Unprotected(g, p, k)
    ensures forall k :: k in Purged(h, source).relations ==> Purged(h, source).relations[k].files == g.relations[k].files
  {
    forall k ensures k in Purged(h, source).relations <==> k in g.relations && EndpointsStay(g, p, k) && !Unprotected(g, p, k)
             ensures k in Purged(h, source).relations ==> Purged(h, source).relations[k].files == g.relations[k].files {
      assert EdgeReturns(g, source, p, Get(h.relations, k), k);
    }
  }

  /** The batch writes the edge, and its file list is null or empty. */
  ghost predicate Unprotected(g: Graph, p: Plan, k: RelationKey) {
    && k in g.relations && (g.relations[k].files.None? || g.relations[k].files.value == [])
    && exists r :: r in p.relations && KeyOf(r) == k
  }

  lemma OneRelationAfter(g: Graph, source: string, p: Plan, j: seq<RelationItem>, k: RelationKey)
    requires WellFormed(g) && NotWrittenYet(g, source) && BatchOf(g, source, p)
    requires UniqueKeys(RelationUpsert(), j)
    requires forall r :: r in j <==> r in p.relations && r.source in g.entities.Keys + Ids(p.entities) && r.target in g.entities.Keys + Ids(p.entities)
    ensures EdgeReturns(g, source, p, Get(ApplyAll(RelationUpsert(), g.relations, j), k), k)
  {
    if k in Keys(RelationUpsert(), j) {
      var i :| 0 <= i < |j| && RelationUpsert().key(j[i]) == k;
      assert j[i] in j && j[i] in p.relations;
      ApplyAt(RelationUpsert(), g.relations, j, i);
      RelationRoundTrip(Get(g.relations, k), j[i], source);
    } else {
      ApplyUntouched(RelationUpsert(), g.relations, j, k);
      if k in g.relations {
        StrippedEmpty(g.relations[k], source);
        forall r | r in p.relations ensures KeyOf(r) != k {
          if KeyOf(r) == k {
            KeysMember(RelationUpsert(), j, r);
            assert false;
          }
        }
      }
    }
  }

  // ----- the round trip -----

  lemma EntitiesAfter(g: Graph, source: string, p: Plan)
    requires NotWrittenYet(g, source) && BatchOf(g, source, p)
    ensures var q := Purged(WriteTx(g, p), source);
            && q.mentions == g.mentions && q.provenance == g.provenance
            && q.entities.Keys == (set id | id in g.entities.Keys + Ids(p.entities) && Stays(g, p, id))
  {
    var h := WriteTx(g, p);
    BaseLinks(g, source, p);
    TxRelations(g, p);
    GoneAfterWrite(g, source, p, h);
    LinksAfter(g, source, p, h);
  }

  lemma LinksAfter(g: Graph, source: string, p: Plan, h: Graph)
    requires NotWrittenYet(g, source) && BatchOf(g, source, p)
    requires h.documents == g.documents
    requires h.provenance == g.provenance + ProvenanceOf(g, p.mentions)
    requires h.mentions.Keys == g.mentions.Keys + ProvenanceOf(g, p.mentions)
    requires forall e :: e in g.mentions && e !in ProvenanceOf(g, p.mentions) ==> e in h.mentions && h.mentions[e] == g.mentions[e]
    ensures Purged(h, source).mentions == g.mentions && Purged(h, source).provenance == g.provenance
  {
    assert SourceDocs(h, source) == SourceDocs(g, source);
    forall e | e in ProvenanceOf(g, p.mentions) ensures e.doc in SourceDocs(g, source) {
    }
    assert forall e :: e in g.mentions ==> e in Links(g);
    assert forall e :: e in g.provenance ==> e in Links(g);
  }

  /** What is left, `q`, has the shape of `g` exactly when no new entity stayed, no old one went and
      no old edge went. */
  lemma ShapeIff(g: Graph, p: Plan, q: Graph)
    requires WellFormed(g)
    requires q.mentions == g.mentions && q.provenance == g.provenance
    requires q.entities.Keys == set id | id in g.entities.Keys + Ids(p.entities) && Stays(g, p, id)
    requires forall k :: k in q.relations <==> k in g.relations && EndpointsStay(g, p, k) && !Unprotected(g, p, k)
    requires forall k :: k in q.relations ==> q.relations[k].files == g.relations[k].files
    ensures SameShape(q, g) <==> Reversible(g, p)
  {
    if Reversible(g, p) {
      ReversibleKeepsShape(g, p, q);
    }
    if SameShape(q, g) {
      ShapeShowsReversible(g, p, q);
    }
  }

  lemma ReversibleKeepsShape(g: Graph, p: Plan, q: Graph)
    requires WellFormed(g) && Reversible(g, p)
    requires q.mentions == g.mentions && q.provenance == g.provenance
    requires q.entities.Keys == set id | id in g.entities.Keys + Ids(p.entities) && Stays(g, p, id)
    requires forall k :: k in q.relations <==> k in g.relations && EndpointsStay(g, p, k) && !Unprotected(g, p, k)
    requires forall k :: k in q.relations ==> q.relations[k].files == g.relations[k].files
    ensures SameShape(q, g)
  {
    forall id ensures id in q.entities.Keys <==> id in g.entities.Keys {
      if HasEdge(g, id) {
        var e :| e in Links(g) && e.ent == id;
        assert id in g.entities;
      }
    }
    forall k | k in g.relations ensures EndpointsStay(g, p, k) && !Unprotected(g, p, k) {
      assert k.source in q.entities.Keys && k.target in q.entities.Keys;
    }
    assert q.relations.Keys == g.relations.Keys;
  }

  lemma ShapeShowsReversible(g: Graph, p: Plan, q: Graph)
    requires SameShape(q, g)
    requires q.entities.Keys == set id | id in g.entities.Keys + Ids(p.entities) && Stays(g, p, id)
    requires forall k :: k in q.relations <==> k in g.relations && EndpointsStay(g, p, k) && !Unprotected(g, p, k)
    ensures Reversible(g, p)
  {
    forall id | id in Ids(p.entities) && id !in g.entities ensures Attached(g, p.mentions, id) {
      assert id !in q.entities.Keys;
    }
    forall id | id in Ids(p.entities) && id in g.entities && Attached(g, p.mentions, id) ensures HasEdge(g, id) {
      assert id in q.entities.Keys;
    }
    forall r | r in p.relations && KeyOf(r) in g.relations
      ensures g.relations[KeyOf(r)].files.Some? && g.relations[KeyOf(r)].files.value != []
    {
      assert KeyOf(r) in q.relations.Keys;
      assert !Unprotected(g, p, KeyOf(r));
    }
  }

  /** Write, then purge: the graph has its old shape back if and only if the batch was reversible
      there: no payload entity was left without a stored document to mention it, none of the
      mentioned ones was there before without an edge, and no edge the batch updates had a null or
      empty file list. */
  lemma WriteThenPurgeIff(g: Graph, source: string, p: Plan)
    requires WellFormed(g) && NotWrittenYet(g, source) && BatchOf(g, source, p)
    ensures SameShape(Purged(WriteTx(g, p), source), g) <==> Reversible(g, p)
  {
    EntitiesAfter(g, source, p);
    RelationsAfter(g, source, p);
    ShapeIff(g, p, Purged(WriteTx(g, p), source));
  }

  /** In a traced graph where every entity has an edge and no file list is null, any batch extracted
      from stored documents is undone by the purge, whatever the batch size of the write. */
  lemma {:induction false} WriteThenPurgeRestores(g: Graph, source: string, p: Plan, maxItems: nat, plans: seq<Plan>)
    requires Traced(g) && NotWrittenYet(g, source)
    requires forall id :: id in g.entities ==> HasEdge(g, id)
    requires forall k :: k in g.relations ==> g.relations[k].files.Some?
    requires Deduplicated(p) && ExtractedFrom(g, Some(source), p)
    requires forall id :: id in Ids(p.entities) ==> MentionedIn(p, id)
    requires maxItems >= 1 && Planned(p, maxItems, plans)
    ensures SameShape(Purged(WriteAll(g, plans), source), g)
  {
    RestoringBatch(g, source, p);
    BatchSizeIndependent(g, p, maxItems, plans);
    WriteThenPurgeIff(g, source, p);
  }

  lemma RestoringBatch(g: Graph, source: string, p: Plan)
    requires Traced(g)
    requires forall id :: id in g.entities ==> HasEdge(g, id)
    requires forall k :: k in g.relations ==> g.relations[k].files.Some?
    requires Deduplicated(p) && ExtractedFrom(g, Some(source), p)
    requires forall id :: id in Ids(p.entities) ==> MentionedIn(p, id)
    ensures BatchOf(g, source, p) && Reversible(g, p)
  {
    forall m | m in p.mentions ensures m.doc in g.documents && IsFrom(g.documents[m.doc], source) {
      assert FromStored(g, Some(source), m);
    }
    forall id | id in Ids(p.entities) ensures Attached(g, p.mentions, id) {
      assert MentionedIn(p, id);
    }
    forall k | k in g.relations ensures g.relations[k].files.value != [] {
      assert FilesBacked(g, k, g.relations[k].files.value);
    }
  }
}
