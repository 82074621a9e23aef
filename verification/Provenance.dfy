/** The provenance invariant, kept by every run of document inserts, source writes (also stopped
    ones), phase purges and per-source deletions. */
module Provenance {
  import opened Prelude
  import opened MapFold
  import opened Metadata
  import opened Graph
  import opened BatchedWrite
  import opened Ordering
  import opened SourceGraphWriter
  import opened Deduplication
  import opened Rerun
  import opened Deletion
  import opened SourcePurge
  import opened PointDeletion

  /** The source still has a document with a PROVENANCE edge to the entity. */
  ghost predicate Backed(g: Graph, source: string, id: Id) {
    exists e :: e in g.provenance && e.ent == id && e.doc in g.documents && IsFrom(g.documents[e.doc], source)
  }

  ghost predicate FilesBacked(g: Graph, k: RelationKey, files: seq<string>) {
    && files != [] && Distinct(files)
    && (forall f :: f in files ==> Backed(g, f, k.source) && Backed(g, f, k.target))
  }

  /** The same, but the list may name one source that nothing backs. */
  ghost predicate FilesBackedBut(g: Graph, k: RelationKey, files: seq<string>, source: string) {
    && files != [] && Distinct(files)
    && (forall f :: f in files && f != source ==> Backed(g, f, k.source) && Backed(g, f, k.target))
  }

  ghost predicate Traced(g: Graph) {
    && WellFormed(g)
    && (forall e :: e in g.mentions ==> e in g.provenance)
    && (forall id :: id in g.entities && g.entities[id].tracked ==> Provenanced(g, id))
    && (forall k :: k in g.relations && g.relations[k].files.Some? ==> FilesBacked(g, k, g.relations[k].files.value))
  }

  // ----- what extraction hands to the writer -----

  /** The batch of one source (or of points without a source): every mention names a stored document
      of the source and an entity of the batch, every relation joins two mentioned entities and
      carries the source as its only file. */
  ghost predicate ExtractedFrom(g: Graph, source: Option<string>, batch: Plan) {
    && Closed(batch.entities, batch.mentions)
    && (forall m :: m in batch.mentions ==> FromStored(g, source, m))
    && (forall r :: r in batch.relations ==>
          && r.files == (if source.Some? then Some([source.value]) else None)
          && MentionedIn(batch, r.source) && MentionedIn(batch, r.target))
  }

  ghost predicate FromStored(g: Graph, source: Option<string>, m: MentionItem) {
    m.doc in g.documents && (source.Some? ==> IsFrom(g.documents[m.doc], source.value))
  }

  ghost predicate MentionedIn(batch: Plan, id: Id) {
    exists m :: m in batch.mentions && m.ent == id
  }

  /** Deduplication keeps the shape. */
  lemma PreparedExtracted(g: Graph, source: Option<string>, raw: Plan, p: Plan)
    requires Prepared(raw, p) && ExtractedFrom(g, source, raw)
    ensures ExtractedFrom(g, source, p)
  {
    PreparedClosed(raw, p);
    PreparedKeys(raw, p);
    forall m | m in p.mentions ensures FromStored(g, source, m) {
      KeysMember(MentionUpsert(), p.mentions, m);
      var i :| 0 <= i < |raw.mentions| && MentionUpsert().key(raw.mentions[i]) == MentionEdge(m);
      assert raw.mentions[i] in raw.mentions;
      assert FromStored(g, source, raw.mentions[i]);
    }
    forall id | MentionedIn(raw, id) ensures MentionedIn(p, id) {
      var m :| m in raw.mentions && m.ent == id;
      KeysMember(MentionUpsert(), raw.mentions, m);
      var i :| 0 <= i < |p.mentions| && MentionUpsert().key(p.mentions[i]) == MentionEdge(m);
      assert p.mentions[i] in p.mentions;
    }
    forall r | r in p.relations
      ensures r.files == (if source.Some? then Some([source.value]) else None)
      ensures MentionedIn(p, r.source) && MentionedIn(p, r.target)
    {
      var group := GroupOf(RelationGrouping(), raw.relations, KeyOf(r));
      GroupedReduces(RelationGrouping(), raw.relations, KeyOf(r));
      forall x | x in group ensures x in raw.relations && KeyOf(x) == KeyOf(r) {
      }
      OneFileGroup(group, if source.Some? then Some([source.value]) else None);
      assert group[0] in group;
    }
  }

  lemma {:induction false} OneFileGroup(group: seq<RelationItem>, files: Option<seq<string>>)
    requires group != [] && (forall x :: x in group ==> x.files == files)
    requires files.Some? ==> |files.value| == 1
    ensures Reduce(RelationGrouping(), group).value.files == files
  {
    var shorter, last := group[..|group| - 1], group[|group| - 1];
    assert last in group;
    if shorter == [] {
      assert Reduce(RelationGrouping(), shorter) == None;
    } else {
      assert forall x :: x in shorter ==> x in group;
      OneFileGroup(shorter, files);
      if files.Some? {
        AppendNewAbsorbs(files.value, files.value);
      }
    }
  }

  // ----- writes -----

  lemma BackedGrows(g: Graph, h: Graph, source: string, id: Id)
    requires h.documents == g.documents && g.provenance <= h.provenance && Backed(g, source, id)
    ensures Backed(h, source, id)
  {
    var e :| e in g.provenance && e.ent == id && e.doc in g.documents && IsFrom(g.documents[e.doc], source);
    assert e in h.provenance;
  }

  lemma EntitiesKeepTraced(g: Graph, es: seq<EntityItem>, ms: seq<MentionItem>, s: Graph)
    requires Traced(g) && Closed(es, ms) && Wrote(g, es, ms, s)
    ensures Traced(s)
  {
    WrittenLinks(g, es, ms, s);
    forall id | id in s.entities && s.entities[id].tracked ensures Provenanced(s, id) {
      WrittenTracked(g, es, ms, s, id);
    }
    forall k | k in s.relations && s.relations[k].files.Some? ensures FilesBacked(s, k, s.relations[k].files.value) {
      FilesStayBacked(g, s, k, g.relations[k].files.value);
    }
  }

  lemma FilesStayBacked(g: Graph, h: Graph, k: RelationKey, files: seq<string>)
    requires h.documents == g.documents && g.provenance <= h.provenance && FilesBacked(g, k, files)
    ensures FilesBacked(h, k, files)
  {
    forall f | f in files ensures Backed(h, f, k.source) && Backed(h, f, k.target) {
      BackedGrows(g, h, f, k.source);
      BackedGrows(g, h, f, k.target);
    }
  }

  lemma WrittenLinks(g: Graph, es: seq<EntityItem>, ms: seq<MentionItem>, s: Graph)
    requires Traced(g) && Closed(es, ms) && Wrote(g, es, ms, s)
    ensures WellFormed(s) && g.provenance <= s.provenance
    ensures forall e :: e in s.mentions ==> e in s.provenance
  {
    var attached := AttachedMentions(g, ms);
    ApplyKeys(MentionUpsert(), g.mentions, attached);
    forall e | e in Keys(MentionUpsert(), attached) ensures e in ProvenanceOf(g, ms) {
      var i :| 0 <= i < |attached| && MentionUpsert().key(attached[i]) == e;
      assert attached[i] in attached;
    }
    forall e | e in ProvenanceOf(g, ms) ensures e.doc in g.documents && e.ent in Ids(es) {
    }
  }

  lemma WrittenTracked(g: Graph, es: seq<EntityItem>, ms: seq<MentionItem>, s: Graph, id: Id)
    requires Traced(g) && Wrote(g, es, ms, s)
    requires id in s.entities && s.entities[id].tracked
    ensures Provenanced(s, id)
  {
    if id in Ids(es) && Attached(g, ms, id) {
      var m :| m in ms && m.ent == id && m.doc in g.documents;
      assert m in AttachedMentions(g, ms);
      assert MentionEdge(m) in s.provenance;
    } else {
      if id in Ids(es) {
        var i :| 0 <= i < |es| && EntityUpsert().key(es[i]) == id;
        assert WroteItem(g, es[i], ms, s);
      } else {
        assert Get(s.entities, id) == Get(g.entities, id);
      }
      assert Provenanced(g, id);
      var e :| e in g.provenance && e.ent == id;
      assert e in s.provenance;
    }
  }

  /** The source backs the entity already, or will once the mentions are written: one of them comes
      from a document of the source that is still stored. */
  ghost predicate EndSupported(g: Graph, source: string, mentions: seq<MentionItem>, id: Id) {
    || Backed(g, source, id)
    || exists m :: m in mentions && m.ent == id && m.doc in g.documents && IsFrom(g.documents[m.doc], source)
  }

  ghost predicate CarriesSource(source: Option<string>, relations: seq<RelationItem>) {
    forall r :: r in relations ==> r.files == if source.Some? then Some([source.value]) else None
  }

  /** Both ends of every relation that is joined are supported. A caller can look this up in the graph
      before the write; nothing in the code does. */
  ghost predicate WriteSupported(g: Graph, source: Option<string>, p: Plan, written: seq<RelationItem>) {
    source.Some? ==> forall r :: r in written && Joins(g, p, r) ==>
      EndSupported(g, source.value, p.mentions, r.source) && EndSupported(g, source.value, p.mentions, r.target)
  }

  ghost predicate Joins(g: Graph, p: Plan, r: RelationItem) {
    r.source in g.entities.Keys + Ids(p.entities) && r.target in g.entities.Keys + Ids(p.entities)
  }

  lemma BaseEdges(g: Graph, p: Plan)
    requires Deduplicated(p) && Closed(p.entities, p.mentions)
    ensures Base(g, p).documents == g.documents && Base(g, p).provenance == g.provenance + ProvenanceOf(g, p.mentions)
  {
    TxWrote(g, p);
  }

  /** An end is backed once all entities are in exactly if it was supported. */
  lemma BackedOnceWritten(g: Graph, source: string, p: Plan, id: Id)
    requires Deduplicated(p) && Closed(p.entities, p.mentions)
    ensures Backed(Base(g, p), source, id) <==> EndSupported(g, source, p.mentions, id)
  {
    var h := Base(g, p);
    BaseEdges(g, p);
    if Backed(g, source, id) {
      BackedGrows(g, h, source, id);
    }
    if m :| m in p.mentions && m.ent == id && m.doc in g.documents && IsFrom(g.documents[m.doc], source) {
      assert m in AttachedMentions(g, p.mentions);
      assert MentionEdge(m) in h.provenance;
    }
    if e :| e in h.provenance && e.ent == id && e.doc in h.documents && IsFrom(h.documents[e.doc], source) {
      if e !in g.provenance {
        var m :| m in AttachedMentions(g, p.mentions) && MentionEdge(m) == e;
        assert m in p.mentions;
      }
    }
  }

  /** What is written of the relations leaves the graph traced if and only if the joined ones are supported. */
  lemma {:induction false} RelationsTracedIff(g: Graph, source: Option<string>, p: Plan, r1: seq<RelationItem>)
    requires Traced(g) && Deduplicated(p) && Closed(p.entities, p.mentions) && CarriesSource(source, p.relations) && r1 <= p.relations
    ensures Traced(WriteRelations(Base(g, p), r1)) <==> WriteSupported(g, source, p, r1)
  {
    var h := Base(g, p);
    TxWrote(g, p);
    EntitiesKeepTraced(g, p.entities, p.mentions, h);
    if WriteSupported(g, source, p, r1) {
      SupportedRelationsTraced(g, source, p, r1);
    }
    if Traced(WriteRelations(h, r1)) && source.Some? {
      forall r | r in r1 && Joins(g, p, r)
        ensures EndSupported(g, source.value, p.mentions, r.source) && EndSupported(g, source.value, p.mentions, r.target)
      {
        TracedShowsSupport(g, source.value, p, r1, r);
      }
    }
  }

  lemma SupportedRelationsTraced(g: Graph, source: Option<string>, p: Plan, r1: seq<RelationItem>)
    requires Deduplicated(p) && Closed(p.entities, p.mentions) && CarriesSource(source, p.relations) && r1 <= p.relations
    requires Traced(Base(g, p)) && WriteSupported(g, source, p, r1)
    ensures Traced(WriteRelations(Base(g, p), r1))
  {
    var h := Base(g, p);
    var s := WriteRelations(h, r1);
    forall k | k in s.relations
      ensures k.source in h.entities && k.target in h.entities
      ensures s.relations[k].files.Some? ==> FilesBacked(h, k, s.relations[k].files.value)
    {
      WrittenRelation(g, source, p, r1, k);
    }
    NewRelationsTraced(h, s.relations);
  }

  /** A joined relation leaves its source's name in the file list. */
  lemma TracedShowsSupport(g: Graph, source: string, p: Plan, r1: seq<RelationItem>, r: RelationItem)
    requires Deduplicated(p) && Closed(p.entities, p.mentions) && CarriesSource(Some(source), p.relations) && r1 <= p.relations
    requires Traced(WriteRelations(Base(g, p), r1)) && r in r1 && Joins(g, p, r)
    ensures EndSupported(g, source, p.mentions, r.source) && EndSupported(g, source, p.mentions, r.target)
  {
    var h := Base(g, p);
    var s := WriteRelations(h, r1);
    BaseEntities(g, p);
    NamesSource(h, source, p.relations, r1, r);
    assert FilesBacked(s, KeyOf(r), s.relations[KeyOf(r)].files.value);
    SameBacked(s, h, source, r.source);
    SameBacked(s, h, source, r.target);
    BackedOnceWritten(g, source, p, r.source);
    BackedOnceWritten(g, source, p, r.target);
  }

  lemma BaseEntities(g: Graph, p: Plan)
    requires Deduplicated(p) && Closed(p.entities, p.mentions)
    ensures Base(g, p).entities.Keys == g.entities.Keys + Ids(p.entities)
  {
    TxWrote(g, p);
  }

  lemma NamesSource(h: Graph, source: string, all: seq<RelationItem>, r1: seq<RelationItem>, r: RelationItem)
    requires UniqueKeys(RelationUpsert(), all) && CarriesSource(Some(source), all) && r1 <= all
    requires r in r1 && r.source in h.entities && r.target in h.entities
    ensures var s := WriteRelations(h, r1).relations;
            KeyOf(r) in s && s[KeyOf(r)].files.Some? && source in s[KeyOf(r)].files.value
  {
    var j := Joined(h, r1);
    PrefixUnique(all, r1, (x: RelationItem) => x.source in h.entities && x.target in h.entities);
    assert r in j;
    var i :| 0 <= i < |j| && j[i] == r;
    ApplyAt(RelationUpsert(), h.relations, j, i);
    assert r in all && source in [source];
    MergeNames(Get(h.relations, KeyOf(r)), r, source);
  }

  lemma MergeNames(existing: Option<Relation>, r: RelationItem, source: string)
    requires r.files == Some([source])
    ensures MergeRelation(existing, r).files.Some? && source in MergeRelation(existing, r).files.value
  {
    assert source in [source];
  }

  lemma PrefixUnique(all: seq<RelationItem>, r1: seq<RelationItem>, test: RelationItem -> bool)
    requires UniqueKeys(RelationUpsert(), all) && r1 <= all
    ensures UniqueKeys(RelationUpsert(), Filter(r1, test))
  {
    assert r1 + all[|r1|..] == all;
    UniqueAppend(RelationUpsert(), r1, all[|r1|..]);
    UniqueFilter(RelationUpsert(), r1, test);
  }

  lemma SameBacked(s: Graph, h: Graph, source: string, id: Id)
    requires s.documents == h.documents && s.provenance == h.provenance
    ensures Backed(s, source, id) == Backed(h, source, id)
  {
  }

  lemma NewRelationsTraced(h: Graph, relations: map<RelationKey, Relation>)
    requires Traced(h)
    requires forall k :: k in relations ==> k.source in h.entities && k.target in h.entities
    requires forall k :: k in relations && relations[k].files.Some? ==> FilesBacked(h, k, relations[k].files.value)
    ensures Traced(h.(relations := relations))
  {
    var s := h.(relations := relations);
    forall k | k in relations && relations[k].files.Some? ensures FilesBacked(s, k, relations[k].files.value) {
      FilesStayBacked(h, s, k, relations[k].files.value);
    }
    assert forall id :: Provenanced(s, id) == Provenanced(h, id);
  }

  lemma WrittenRelation(g: Graph, source: Option<string>, p: Plan, r1: seq<RelationItem>, k: RelationKey)
    requires Traced(Base(g, p)) && Deduplicated(p) && Closed(p.entities, p.mentions)
    requires CarriesSource(source, p.relations) && r1 <= p.relations && WriteSupported(g, source, p, r1)
    requires k in WriteRelations(Base(g, p), r1).relations
    ensures var h, r := Base(g, p), WriteRelations(Base(g, p), r1).relations[k];
            && k.source in h.entities && k.target in h.entities
            && (r.files.Some? ==> FilesBacked(h, k, r.files.value))
  {
    var h := Base(g, p);
    BaseEntities(g, p);
    forall r | r in r1 && r.source in h.entities && r.target in h.entities && source.Some?
      ensures Backed(h, source.value, r.source) && Backed(h, source.value, r.target)
    {
      assert Joins(g, p, r);
      BackedOnceWritten(g, source.value, p, r.source);
      BackedOnceWritten(g, source.value, p, r.target);
    }
    JoinedRelation(h, source, p.relations, r1, k);
  }

  lemma JoinedRelation(h: Graph, source: Option<string>, all: seq<RelationItem>, r1: seq<RelationItem>, k: RelationKey)
    requires Traced(h) && UniqueKeys(RelationUpsert(), all) && CarriesSource(source, all) && r1 <= all
    requires forall r :: r in r1 && r.source in h.entities && r.target in h.entities && source.Some? ==>
               Backed(h, source.value, r.source) && Backed(h, source.value, r.target)
    requires k in WriteRelations(h, r1).relations
    ensures var r := WriteRelations(h, r1).relations[k];
            && k.source in h.entities && k.target in h.entities
            && (r.files.Some? ==> FilesBacked(h, k, r.files.value))
  {
    var j := Joined(h, r1);
    PrefixUnique(all, r1, (x: RelationItem) => x.source in h.entities && x.target in h.entities);
    ApplyKeys(RelationUpsert(), h.relations, j);
    if k in Keys(RelationUpsert(), j) {
      var i :| 0 <= i < |j| && RelationUpsert().key(j[i]) == k;
      assert j[i] in j && j[i] in r1 && j[i] in all;
      ApplyAt(RelationUpsert(), h.relations, j, i);
      MergedFilesBacked(h, k, Get(h.relations, k), j[i], source);
    } else {
      ApplyUntouched(RelationUpsert(), h.relations, j, k);
      assert Get(WriteRelations(h, r1).relations, k) == Get(h.relations, k);
    }
  }

  lemma MergedFilesBacked(h: Graph, k: RelationKey, existing: Option<Relation>, item: RelationItem, source: Option<string>)
    requires existing.Some? && existing.value.files.Some? ==> FilesBacked(h, k, existing.value.files.value)
    requires item.files == (if source.Some? then Some([source.value]) else None)
    requires source.Some? ==> Backed(h, source.value, k.source) && Backed(h, source.value, k.target)
    ensures var r := MergeRelation(existing, item);
            r.files.Some? ==> FilesBacked(h, k, r.files.value)
  {
    if existing.Some? && existing.value.files.Some? && source.Some? {
      var head := Filter(existing.value.files.value, x => x !in item.files.value);
      FilterDistinct(existing.value.files.value, x => x !in item.files.value);
      forall i | 0 <= i < |head| ensures head[i] != source.value {
        assert head[i] in head;
      }
    }
  }

  lemma {:induction false} FilterDistinct<T(!new)>(s: seq<T>, p: T -> bool)
    requires Distinct(s)
    ensures Distinct(Filter(s, p))
  {
    if s != [] {
      FilterDistinct(s[..|s| - 1], p);
      var head := Filter(s[..|s| - 1], p);
      forall i | 0 <= i < |head| ensures head[i] != s[|s| - 1] {
        assert head[i] in s[..|s| - 1];
      }
    }
  }

  /** A source write, complete or stopped after any of its planned transactions, keeps the graph traced
      if and only if both ends of every relation it has joined are supported. */
  lemma {:induction false} WriteTracedIff(g: Graph, source: Option<string>, p: Plan, maxItems: nat, plans: seq<Plan>, k: nat)
    requires Traced(g) && Deduplicated(p) && Closed(p.entities, p.mentions) && CarriesSource(source, p.relations)
    requires maxItems >= 1 && Planned(p, maxItems, plans) && k <= |plans|
    ensures Traced(WriteAll(g, plans[..k])) <==> WriteSupported(g, source, p, RelationsOf(plans[..k]))
  {
    if |p.entities| + |p.relations| <= maxItems {
      if k == 1 {
        assert plans[..1] == [p] && [p][..0] == [];
        assert RelationsOf([p]) == [] + p.relations == p.relations;
        TxRelations(g, p);
        RelationsTracedIff(g, source, p, p.relations);
      } else {
        assert plans[..k] == [];
      }
    } else {
      ChunksConcat(p.entities, maxItems);
      ChunksConcat(p.relations, maxItems);
      var ec, rc := Chunks(p.entities, maxItems), Chunks(p.relations, maxItems);
      if k <= |ec| {
        SplitInEntities(g, source, p, ec, rc, plans, k);
      } else {
        SplitInRelations(g, source, p, ec, rc, plans, k);
      }
    }
  }

  lemma SplitInEntities(g: Graph, source: Option<string>, p: Plan, ec: seq<seq<EntityItem>>, rc: seq<seq<RelationItem>>, plans: seq<Plan>, k: nat)
    requires Traced(g) && Deduplicated(p)
    requires Split(p, ec, rc, plans) && Concat(ec) == p.entities && k <= |ec|
    ensures Traced(WriteAll(g, plans[..k])) && RelationsOf(plans[..k]) == []
  {
    PrefixOfConcat(ec, k);
    forall c | 0 <= c < k ensures EntityPlan(plans[..k][c], ec[..k][c], p.mentions) {
      assert EntityPlan(plans[c], ec[c], p.mentions);
    }
    StoppedInEntities(g, p, ec[..k], plans[..k]);
    EntitiesKeepTraced(g, Concat(ec[..k]), MentionsOf(Concat(ec[..k]), p.mentions), WriteAll(g, plans[..k]));
  }

  lemma SplitInRelations(g: Graph, source: Option<string>, p: Plan, ec: seq<seq<EntityItem>>, rc: seq<seq<RelationItem>>, plans: seq<Plan>, k: nat)
    requires Traced(g) && Deduplicated(p) && Closed(p.entities, p.mentions) && CarriesSource(source, p.relations)
    requires Split(p, ec, rc, plans) && Concat(ec) == p.entities && Concat(rc) == p.relations && |ec| < k <= |plans|
    ensures Traced(WriteAll(g, plans[..k])) <==> WriteSupported(g, source, p, RelationsOf(plans[..k]))
  {
    var rk := rc[..k - |ec|];
    PrefixOfConcat(rc, k - |ec|);
    SplitParts(p, ec, rc, plans, k);
    StoppedInRelations(g, p, ec, rk, plans[..|ec|], plans[|ec|..k]);
    RelationsTracedIff(g, source, p, Concat(rk));
  }

  lemma SplitParts(p: Plan, ec: seq<seq<EntityItem>>, rc: seq<seq<RelationItem>>, plans: seq<Plan>, k: nat)
    requires Split(p, ec, rc, plans) && |ec| < k <= |plans|
    ensures var first, second, rk := plans[..|ec|], plans[|ec|..k], rc[..k - |ec|];
            && plans[..k] == first + second && |second| == |rk|
            && (forall c :: 0 <= c < |ec| ==> EntityPlan(first[c], ec[c], p.mentions))
            && (forall c :: 0 <= c < |rk| ==> second[c] == Plan([], [], rk[c]))
  {
    var first, second, rk := plans[..|ec|], plans[|ec|..k], rc[..k - |ec|];
    forall c | 0 <= c < |ec| ensures EntityPlan(first[c], ec[c], p.mentions) {
      assert EntityPlan(plans[c], ec[c], p.mentions);
    }
    forall c | 0 <= c < |rk| ensures second[c] == Plan([], [], rk[c]) {
      assert plans[|ec| + c] == Plan([], [], rc[c]);
    }
  }

  /** A batch extracted from documents that are all still stored is supported, however much of it is written. */
  lemma ExtractedSupported(g: Graph, source: Option<string>, p: Plan, written: seq<RelationItem>)
    requires ExtractedFrom(g, source, p) && forall r :: r in written ==> r in p.relations
    ensures WriteSupported(g, source, p, written)
  {
    if source.Some? {
      forall id | MentionedIn(p, id) ensures EndSupported(g, source.value, p.mentions, id) {
        var m :| m in p.mentions && m.ent == id;
        assert FromStored(g, source, m);
      }
    }
  }

  /** Extraction is not repeated when the batch is written: the documents may be gone by then. */
  lemma ExtractedEarlier(g: Graph, later: Graph, source: Option<string>, p: Plan)
    requires ExtractedFrom(g, source, p)
    requires forall m :: m in p.mentions ==> m.doc in later.documents && Get(later.documents, m.doc) == Get(g.documents, m.doc)
    ensures ExtractedFrom(later, source, p)
  {
    forall m | m in p.mentions ensures FromStored(later, source, m) {
      assert FromStored(g, source, m);
      assert Get(later.documents, m.doc) == Get(g.documents, m.doc);
    }
  }

  // ----- deletions -----

  lemma {:induction false} PurgeKeepsTraced(g: Graph, source: string)
    requires Traced(g)
    ensures Traced(Purged(g, source))
  {
    var docs := SourceDocs(g, source);
    var p := Purged(g, source);
    OthersKeepEdges(g, docs);
    PurgeKeepsWellFormed(g, source);
    forall id | id in p.entities && p.entities[id].tracked ensures Provenanced(p, id) {
      var e :| e in g.provenance && e.ent == id;
      if e.doc in docs {
        assert PointedAt(g, docs, id);
        var f :| f in Links(g) && f.ent == id && f.doc !in docs;
        assert f in p.provenance;
      } else {
        assert e in p.provenance;
      }
    }
    forall k | k in p.relations && p.relations[k].files.Some? ensures FilesBacked(p, k, p.relations[k].files.value) {
      StrippedFilesBacked(g, p, docs, source, k);
    }
  }

  /** Removing the edges of documents of one source leaves every other name of a file list backed. */
  lemma StrippedFilesBacked(g: Graph, p: Graph, docs: set<Id>, source: string, k: RelationKey)
    requires k in g.relations && g.relations[k].files.Some? && FilesBackedBut(g, k, g.relations[k].files.value, source)
    requires !OnlyFromSource(g.relations[k], source)
    requires forall d :: d in docs ==> d in g.documents && IsFrom(g.documents[d], source)
    requires forall d :: d in g.documents && d !in docs ==> d in p.documents && p.documents[d] == g.documents[d]
    requires forall e :: e in g.provenance && (e.ent == k.source || e.ent == k.target) && e.doc !in docs ==> e in p.provenance
    ensures FilesBacked(p, k, WithoutSource(g.relations[k], source).files.value)
  {
    var files := g.relations[k].files.value;
    FilterDistinct(files, x => x != source);
    StrippedEmpty(g.relations[k], source);
    forall f | f in files && f != source ensures Backed(p, f, k.source) && Backed(p, f, k.target) {
      var e :| e in g.provenance && e.ent == k.source && e.doc in g.documents && IsFrom(g.documents[e.doc], f);
      assert e in p.provenance;
      var e' :| e' in g.provenance && e'.ent == k.target && e'.doc in g.documents && IsFrom(g.documents[e'.doc], f);
      assert e' in p.provenance;
    }
  }

  lemma {:induction false} DeletionKeepsTraced(g: Graph, collection: string, filter: map<string, string>)
    requires Traced(g) && SourceOf(filter).Some?
    ensures Traced(Deleted(g, collection, filter))
  {
    var source := SourceOf(filter).value;
    var docs := MatchingDocs(g, collection, filter);
    var h := DetachDocuments(g, docs);
    var s := h.(relations := StrippedRelations(h, source));
    var d := Deleted(g, collection, filter);
    DeletionKeepsWellFormed(g, collection, filter);
    NothingLeftToPrune(s, UntracedIds(s));
    forall id | id in d.entities && d.entities[id].tracked ensures Provenanced(d, id) {
      assert Provenanced(s, id);
    }
    forall k | k in d.relations && d.relations[k].files.Some? ensures FilesBacked(d, k, d.relations[k].files.value) {
      StrippedFilesBacked(g, d, docs, source, k);
    }
  }

  // ----- runs -----

  datatype Event =
    | AddDocument(id: Id, document: Document)
    | WriteSource(source: Option<string>, batch: Plan, p: Plan, maxItems: nat, plans: seq<Plan>, executed: nat)
    | PurgeSource(purged: string)
    | DeletePoints(collection: string, filter: map<string, string>)

  /** One event of a tenant's life. A source write may stop after any number of its transactions, and
      nothing is said about which documents of its batch are still stored. */
  ghost predicate Step(g: Graph, event: Event, h: Graph) {
    match event
    case AddDocument(id, document) =>
      id !in g.documents && h == g.(documents := g.documents[id := document])
    case WriteSource(source, batch, p, maxItems, plans, executed) =>
      && maxItems >= 1 && Closed(batch.entities, batch.mentions) && CarriesSource(source, batch.relations)
      && Prepared(batch, p) && Planned(p, maxItems, plans) && executed <= |plans|
      && h == WriteAll(g, plans[..executed])
    case PurgeSource(purged) => h == Purged(g, purged)
    case DeletePoints(collection, filter) => SourceOf(filter).Some? && h == Deleted(g, collection, filter)
  }

  /** Only a write has a condition, on the graph it starts from. */
  ghost predicate EventSupported(g: Graph, event: Event) {
    event.WriteSource? && event.executed <= |event.plans| ==>
      WriteSupported(g, event.source, event.p, RelationsOf(event.plans[..event.executed]))
  }

  lemma StepTracedIff(g: Graph, event: Event, h: Graph)
    requires Traced(g) && Step(g, event, h)
    ensures Traced(h) <==> EventSupported(g, event)
  {
    match event
    case AddDocument(id, document) => DocumentKeepsTraced(g, id, document);
    case WriteSource(source, batch, p, maxItems, plans, executed) =>
      PreparedKeys(batch, p);
      PreparedClosed(batch, p);
      PreparedCarriesSource(source, batch, p);
      WriteTracedIff(g, source, p, maxItems, plans, executed);
    case PurgeSource(purged) => PurgeKeepsTraced(g, purged);
    case DeletePoints(collection, filter) => DeletionKeepsTraced(g, collection, filter);
  }

  lemma PreparedCarriesSource(source: Option<string>, raw: Plan, p: Plan)
    requires Prepared(raw, p) && CarriesSource(source, raw.relations)
    ensures CarriesSource(source, p.relations)
  {
    PreparedKeys(raw, p);
    forall r | r in p.relations ensures r.files == if source.Some? then Some([source.value]) else None {
      var group := GroupOf(RelationGrouping(), raw.relations, KeyOf(r));
      GroupedReduces(RelationGrouping(), raw.relations, KeyOf(r));
      OneFileGroup(group, if source.Some? then Some([source.value]) else None);
    }
  }

  lemma DocumentKeepsTraced(g: Graph, id: Id, document: Document)
    requires Traced(g) && id !in g.documents
    ensures Traced(g.(documents := g.documents[id := document]))
  {
    var h := g.(documents := g.documents[id := document]);
    forall x | Provenanced(g, x) ensures Provenanced(h, x) {
    }
    forall k | k in h.relations && h.relations[k].files.Some? ensures FilesBacked(h, k, h.relations[k].files.value) {
      assert FilesBacked(g, k, g.relations[k].files.value);
      forall f | f in h.relations[k].files.value ensures Backed(h, f, k.source) && Backed(h, f, k.target) {
        StillBacked(g, id, document, f, k.source);
        StillBacked(g, id, document, f, k.target);
      }
    }
  }

  lemma StillBacked(g: Graph, id: Id, document: Document, source: string, entity: Id)
    requires id !in g.documents && Backed(g, source, entity)
    ensures Backed(g.(documents := g.documents[id := document]), source, entity)
  {
    var e :| e in g.provenance && e.ent == entity && e.doc in g.documents && IsFrom(g.documents[e.doc], source);
    assert e in g.(documents := g.documents[id := document]).provenance;
  }

  /** In a traced graph a per-source deletion spares whatever another document mentions. */
  lemma DeletionSparesMentioned(g: Graph, collection: string, filter: map<string, string>, e: Edge)
    requires Traced(g) && SourceOf(filter).Some?
    requires e in g.mentions && e.doc !in MatchingDocs(g, collection, filter)
    ensures e.ent in Deleted(g, collection, filter).entities && e in Deleted(g, collection, filter).mentions
  {
    assert e in g.provenance;
    DeletionExact(g, collection, filter, e.ent);
  }

  ghost predicate Run(graphs: seq<Graph>, events: seq<Event>) {
    && |graphs| == |events| + 1
    && (forall i :: 0 <= i < |events| ==> Step(graphs[i], events[i], graphs[i + 1]))
  }

  /** Over whole runs from a traced graph (the empty one, say): every graph reached is traced if and only
      if every source write is supported in the graph it starts from. */
  lemma RunTracedIff(graphs: seq<Graph>, events: seq<Event>)
    requires Run(graphs, events) && Traced(graphs[0])
    ensures (forall i :: 0 <= i < |graphs| ==> Traced(graphs[i]))
       <==> (forall i :: 0 <= i < |events| ==> EventSupported(graphs[i], events[i]))
  {
    if forall i :: 0 <= i < |events| ==> EventSupported(graphs[i], events[i]) {
      forall i | 0 <= i < |graphs| ensures Traced(graphs[i]) {
        SupportedRunTraced(graphs, events, i);
      }
    }
    if forall i :: 0 <= i < |graphs| ==> Traced(graphs[i]) {
      forall i | 0 <= i < |events| ensures EventSupported(graphs[i], events[i]) {
        assert Traced(graphs[i]) && Traced(graphs[i + 1]);
        StepTracedIff(graphs[i], events[i], graphs[i + 1]);
      }
    }
  }

  lemma {:induction false} SupportedRunTraced(graphs: seq<Graph>, events: seq<Event>, i: nat)
    requires Run(graphs, events) && Traced(graphs[0]) && i < |graphs|
    requires forall k :: 0 <= k < |events| ==> EventSupported(graphs[k], events[k])
    ensures Traced(graphs[i])
  {
    if i > 0 {
      var last := i - 1;
      SupportedRunTraced(graphs, events, last);
      RunStep(graphs, events, last);
      StepTracedIff(graphs[last], events[last], graphs[last + 1]);
    }
  }

  lemma RunStep(graphs: seq<Graph>, events: seq<Event>, i: nat)
    requires Run(graphs, events) && i < |events|
    ensures Step(graphs[i], events[i], graphs[i + 1])
  {
  }

  // ----- batches whose documents stay -----

  lemma {:induction false} InRelationsOf(plans: seq<Plan>, r: RelationItem)
    requires r in RelationsOf(plans)
    ensures exists c :: 0 <= c < |plans| && r in plans[c].relations
  {
    var last := |plans| - 1;
    if r in RelationsOf(plans[..last]) {
      InRelationsOf(plans[..last], r);
      var c :| 0 <= c < last && r in plans[..last][c].relations;
      assert plans[..last][c] == plans[c];
    }
  }

  /** A stopped write has written relations of its batch and no others. */
  lemma WrittenAreOfBatch(p: Plan, maxItems: nat, plans: seq<Plan>, k: nat)
    requires maxItems >= 1 && Planned(p, maxItems, plans) && k <= |plans|
    ensures forall r :: r in RelationsOf(plans[..k]) ==> r in p.relations
  {
    forall r | r in RelationsOf(plans[..k]) ensures r in p.relations {
      InRelationsOf(plans[..k], r);
      var c :| 0 <= c < k && r in plans[..k][c].relations;
      PlannedRelations(p, maxItems, plans, c);
    }
  }

  lemma PlannedRelations(p: Plan, maxItems: nat, plans: seq<Plan>, c: nat)
    requires maxItems >= 1 && Planned(p, maxItems, plans) && c < |plans|
    ensures forall r :: r in plans[c].relations ==> r in p.relations
  {
    if |p.entities| + |p.relations| > maxItems {
      var ec, rc := Chunks(p.entities, maxItems), Chunks(p.relations, maxItems);
      if c < |ec| {
        assert EntityPlan(plans[c], ec[c], p.mentions);
      } else {
        ChunksConcat(p.relations, maxItems);
        assert plans[|ec| + (c - |ec|)] == Plan([], [], rc[c - |ec|]);
        forall r | r in rc[c - |ec|] ensures r in p.relations {
          InConcat(rc, c - |ec|, r);
        }
      }
    }
  }

  lemma {:induction false} InConcat<T>(parts: seq<seq<T>>, c: nat, x: T)
    requires c < |parts| && x in parts[c]
    ensures x in Concat(parts)
  {
    var last := |parts| - 1;
    if c < last {
      InConcat(parts[..last], c, x);
    }
  }

  /** The batch was extracted from that graph, and the documents it mentions are still as they were. */
  ghost predicate StillStored(earlier: Graph, now: Graph, source: Option<string>, batch: Plan) {
    && ExtractedFrom(earlier, source, batch)
    && forall m :: m in batch.mentions ==> m.doc in now.documents && Get(now.documents, m.doc) == Get(earlier.documents, m.doc)
  }

  lemma StoredBatchSupported(earlier: Graph, now: Graph, event: Event, h: Graph)
    requires Step(now, event, h) && event.WriteSource? && StillStored(earlier, now, event.source, event.batch)
    ensures EventSupported(now, event)
  {
    ExtractedEarlier(earlier, now, event.source, event.batch);
    PreparedExtracted(now, event.source, event.batch, event.p);
    WrittenAreOfBatch(event.p, event.maxItems, event.plans, event.executed);
    ExtractedSupported(now, event.source, event.p, RelationsOf(event.plans[..event.executed]));
  }

  /** Every graph of a run is traced if each batch written was extracted from some earlier graph of the
      run and the documents it mentions are still stored when it is written. */
  lemma StoredBatchesTraced(graphs: seq<Graph>, events: seq<Event>)
    requires Run(graphs, events) && Traced(graphs[0])
    requires forall k :: 0 <= k < |events| && events[k].WriteSource? ==>
               exists j :: 0 <= j <= k && StillStored(graphs[j], graphs[k], events[k].source, events[k].batch)
    ensures forall i :: 0 <= i < |graphs| ==> Traced(graphs[i])
  {
    forall k | 0 <= k < |events| ensures EventSupported(graphs[k], events[k]) {
      if events[k].WriteSource? {
        var j :| 0 <= j <= k && StillStored(graphs[j], graphs[k], events[k].source, events[k].batch);
        RunStep(graphs, events, k);
        StoredBatchSupported(graphs[j], graphs[k], events[k], graphs[k + 1]);
      }
    }
    RunTracedIff(graphs, events);
  }

  // ----- a document deleted between extraction and write -----

  function OneDocument(): Graph {
    Graph(map["d" := Document("c", map["source" := "X"])], map[], map[], {}, map[], {})
  }

  /** What extraction makes of a document that relates two entities. */
  function TwoRelated(): Plan {
    var m := Accumulated(["d"], Some(1.0));
    Plan([EntityItem("a", "a", "T", m, None), EntityItem("b", "b", "T", m, None)],
         [MentionItem("d", "a", 1.0), MentionItem("d", "b", 1.0)],
         [RelationItem("a", "b", "R", 1.0, Some(["X"]))])
  }

  lemma TwoRelatedExtracted()
    ensures ExtractedFrom(OneDocument(), Some("X"), TwoRelated())
  {
    var b := TwoRelated();
    KeysMember(EntityUpsert(), b.entities, b.entities[0]);
    KeysMember(EntityUpsert(), b.entities, b.entities[1]);
    assert b.mentions[0] in b.mentions && b.mentions[1] in b.mentions;
    assert MentionedIn(b, "a") && MentionedIn(b, "b");
  }

  /** In a graph without documents and edges nothing of the batch is supported. */
  lemma NothingSupported(g: Graph, p: Plan)
    requires Prepared(TwoRelated(), p) && g.documents == map[] && g.provenance == {}
    ensures !WriteSupported(g, Some("X"), p, p.relations)
  {
    var b := TwoRelated();
    PreparedKeys(b, p);
    KeysMember(EntityUpsert(), b.entities, b.entities[0]);
    KeysMember(EntityUpsert(), b.entities, b.entities[1]);
    KeysMember(RelationUpsert(), b.relations, b.relations[0]);
    var i :| 0 <= i < |p.relations| && RelationUpsert().key(p.relations[i]) == KeyOf(b.relations[0]);
    assert p.relations[i] in p.relations && Joins(g, p, p.relations[i]);
    assert !EndSupported(g, "X", p.mentions, p.relations[i].source);
  }

  lemma TwoEntitiesPrepared()
    ensures IsDeduplicated(EntityGrouping(), EntityRank, TwoRelated().entities, TwoRelated().entities)
  {
    var items := TwoRelated().entities;
    assert "a"[0] < "b"[0];
    assert TupleLess(["a"], ["b"]);
    TwoGrouped(EntityGrouping(), items);
    assert AppendNew([], ["d"]) == ["d"];
    assert MergedChunks([items[0].metadata]) == items[0].metadata;
  }

  lemma TwoMentionsPrepared()
    ensures IsDeduplicated(MentionGrouping(), MentionRank, TwoRelated().mentions, TwoRelated().mentions)
  {
    assert "a"[0] < "b"[0];
    assert TupleLess(["d", "a"], ["d", "b"]);
    TwoGrouped(MentionGrouping(), TwoRelated().mentions);
  }

  /** The batch is its own deduplication. */
  lemma TwoRelatedPrepared()
    ensures Prepared(TwoRelated(), TwoRelated())
  {
    TwoEntitiesPrepared();
    TwoMentionsPrepared();
    OneGrouped(RelationGrouping(), TwoRelated().relations);
  }

  lemma OneGrouped<K, V>(u: Upsert<K, V, V>, items: seq<V>)
    requires |items| == 1
    ensures Grouped(u, items) == map[u.key(items[0]) := u.merge(None, items[0])]
  {
    var none: map<K, V> := map[];
    assert ApplyAll(u, none, items[..0]) == none;
    assert ApplyAll(u, none, items) == Apply(u, none, items[0]);
  }

  lemma TwoGrouped<K, V>(u: Upsert<K, V, V>, items: seq<V>)
    requires |items| == 2 && u.key(items[0]) != u.key(items[1])
    ensures Grouped(u, items) == map[u.key(items[0]) := u.merge(None, items[0]), u.key(items[1]) := u.merge(None, items[1])]
  {
    OneGrouped(u, items[..1]);
  }

  ghost function DocumentGone(): Graph {
    Deleted(OneDocument(), "c", map["source" := "X"])
  }

  lemma DocumentGoneIsEmpty()
    ensures DocumentGone().documents == map[] && DocumentGone().provenance == {}
    ensures Traced(OneDocument()) && Traced(DocumentGone())
  {
    DeletionKeepsTraced(OneDocument(), "c", map["source" := "X"]);
  }

  /** The whole batch in one transaction. */
  function WriteTwoRelated(): Event {
    WriteSource(Some("X"), TwoRelated(), TwoRelated(), 10, [TwoRelated()], 1)
  }

  lemma WriteTwoRelatedSteps(g: Graph)
    ensures Step(g, WriteTwoRelated(), WriteAll(g, [TwoRelated()]))
    ensures EventSupported(g, WriteTwoRelated()) == WriteSupported(g, Some("X"), TwoRelated(), TwoRelated().relations)
  {
    var p := TwoRelated();
    TwoRelatedExtracted();
    TwoRelatedPrepared();
    assert [p][..1] == [p] && [p][..0] == [];
    assert RelationsOf([p]) == [] + p.relations == p.relations;
  }

  /** A drain has gathered the batch, a deletion of the source takes the write lock first: the write
      then leaves an edge that names a source nothing backs. */
  lemma DeletedInBetween()
    ensures Traced(OneDocument()) && ExtractedFrom(OneDocument(), Some("X"), TwoRelated())
    ensures var end := WriteAll(DocumentGone(), [TwoRelated()]);
            && Run([OneDocument(), DocumentGone(), end], [DeletePoints("c", map["source" := "X"]), WriteTwoRelated()])
            && !Traced(end)
  {
    var end := WriteAll(DocumentGone(), [TwoRelated()]);
    TwoRelatedExtracted();
    TwoRelatedPrepared();
    DocumentGoneIsEmpty();
    NothingSupported(DocumentGone(), TwoRelated());
    WriteTwoRelatedSteps(DocumentGone());
    StepTracedIff(DocumentGone(), WriteTwoRelated(), end);
    OneAfterTheOther(OneDocument(), DeletePoints("c", map["source" := "X"]), DocumentGone(), WriteTwoRelated(), end);
  }

  lemma OneAfterTheOther(g: Graph, first: Event, h: Graph, second: Event, k: Graph)
    requires Step(g, first, h) && Step(h, second, k)
    ensures Run([g, h, k], [first, second])
  {
  }

  lemma EmptyGraphTraced()
    ensures Traced(Graph(map[], map[], map[], {}, map[], {}))
  {
  }
}
