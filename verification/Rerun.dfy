/** Running a source's write again, also after it stopped part-way: only the weights of RELATED_TO
    edges that were there before move, and by exactly how much. */
module Rerun {
  import opened Prelude
  import opened MapFold
  import opened Metadata
  import opened Graph
  import opened BatchedWrite

  // ----- entities, mentions and provenance: absorbing -----

  lemma MergeEntityAgain(g: Graph, s: Graph, item: EntityItem, attached: bool)
    requires var e := MergeEntity(Get(g.entities, item.id), OverwrittenItem(g.entities, item));
             Get(s.entities, item.id) == Some(e.(tracked := e.tracked || attached))
    ensures MergeEntity(Get(s.entities, item.id), OverwrittenItem(s.entities, item)) == s.entities[item.id]
  {
    MergedStored(StoredMetadataOf(g.entities, item.id), item.metadata);
  }

  /** After the entities `e1` and mentions `m1` are written, writing the whole payload gives what it
      would have given at once. */
  lemma AbsorbEntity(g: Graph, e1: seq<EntityItem>, m1: seq<MentionItem>, s: Graph,
                     es: seq<EntityItem>, ms: seq<MentionItem>, t: Graph, t0: Graph, id: Id)
    requires UniqueKeys(EntityUpsert(), es) && e1 <= es
    requires Closed(e1, m1) && forall m :: m in m1 ==> m in ms
    requires Wrote(g, e1, m1, s) && Wrote(s, es, ms, t) && Wrote(g, es, ms, t0)
    ensures Get(t.entities, id) == Get(t0.entities, id)
  {
    PrefixKeys(e1, es);
    if id in Ids(e1) {
      AbsorbWritten(g, e1, m1, s, es, ms, t, t0, id);
    } else if id in Ids(es) {
      var i :| 0 <= i < |es| && EntityUpsert().key(es[i]) == id;
      assert Attached(g, ms, id) == Attached(s, ms, id);
      WroteInSecond(g, es[i], s, ms, t, ms, t0);
    } else {
      assert Get(t.entities, id) == Get(s.entities, id) == Get(g.entities, id) == Get(t0.entities, id);
    }
  }

  lemma AbsorbWritten(g: Graph, e1: seq<EntityItem>, m1: seq<MentionItem>, s: Graph,
                      es: seq<EntityItem>, ms: seq<MentionItem>, t: Graph, t0: Graph, id: Id)
    requires UniqueKeys(EntityUpsert(), es) && e1 <= es && id in Ids(e1)
    requires forall m :: m in m1 ==> m in ms
    requires Wrote(g, e1, m1, s) && Wrote(s, es, ms, t) && Wrote(g, es, ms, t0)
    ensures Get(t.entities, id) == Get(t0.entities, id)
  {
    var i :| 0 <= i < |e1| && EntityUpsert().key(e1[i]) == id;
    var item := e1[i];
    assert es[i] == item;
    assert WroteItem(g, item, m1, s) && WroteItem(s, item, ms, t) && WroteItem(g, item, ms, t0);
    assert Attached(g, m1, id) ==> Attached(g, ms, id);
    assert Attached(g, ms, id) == Attached(s, ms, id);
    WroteAgain(g, item, m1, s, ms, t, t0);
  }

  lemma WroteAgain(g: Graph, item: EntityItem, m1: seq<MentionItem>, s: Graph, ms: seq<MentionItem>, t: Graph, t0: Graph)
    requires WroteItem(g, item, m1, s) && WroteItem(s, item, ms, t) && WroteItem(g, item, ms, t0)
    requires Attached(g, m1, item.id) ==> Attached(g, ms, item.id)
    requires Attached(g, ms, item.id) == Attached(s, ms, item.id)
    ensures Get(t.entities, item.id) == Get(t0.entities, item.id)
  {
    MergeEntityAgain(g, s, item, Attached(g, m1, item.id));
  }

  lemma PrefixKeys(e1: seq<EntityItem>, es: seq<EntityItem>)
    requires e1 <= es
    ensures Ids(e1) <= Ids(es)
  {
    forall k | k in Ids(e1) ensures k in Ids(es) {
      var i :| 0 <= i < |e1| && EntityUpsert().key(e1[i]) == k;
      assert es[i] == e1[i];
    }
  }

  lemma AbsorbMentions(g: Graph, m1: seq<MentionItem>, ms: seq<MentionItem>)
    requires UniqueKeys(MentionUpsert(), m1) && UniqueKeys(MentionUpsert(), ms)
    requires forall m :: m in m1 ==> m in ms
    ensures ApplyAll(MentionUpsert(), ApplyAll(MentionUpsert(), g.mentions, AttachedMentions(g, m1)), AttachedMentions(g, ms))
         == ApplyAll(MentionUpsert(), g.mentions, AttachedMentions(g, ms))
  {
    var u := MentionUpsert();
    var a1, a := AttachedMentions(g, m1), AttachedMentions(g, ms);
    var inDocs := (m: MentionItem) => m.doc in g.documents;
    UniqueFilter(u, m1, inDocs);
    UniqueFilter(u, ms, inDocs);
    var mid := ApplyAll(u, g.mentions, a1);
    ApplyKeys(u, g.mentions, a1);
    ApplyKeys(u, mid, a);
    ApplyKeys(u, g.mentions, a);
    forall k | k in Keys(u, a1) ensures k in Keys(u, a) {
      var i :| 0 <= i < |a1| && u.key(a1[i]) == k;
      assert a1[i] in a;
      KeysMember(u, a, a1[i]);
    }
    forall k | k in ApplyAll(u, g.mentions, a) ensures Get(ApplyAll(u, mid, a), k) == Get(ApplyAll(u, g.mentions, a), k) {
      if k in Keys(u, a) {
        var i :| 0 <= i < |a| && u.key(a[i]) == k;
        ApplyAt(u, mid, a, i);
        ApplyAt(u, g.mentions, a, i);
      } else {
        ApplyUntouched(u, mid, a, k);
        ApplyUntouched(u, g.mentions, a, k);
        ApplyUntouched(u, g.mentions, a1, k);
      }
    }
    MapsEqual(ApplyAll(u, mid, a), ApplyAll(u, g.mentions, a));
  }

  lemma {:induction false} Absorb(g: Graph, e1: seq<EntityItem>, m1: seq<MentionItem>, s: Graph,
               es: seq<EntityItem>, ms: seq<MentionItem>, t: Graph, t0: Graph)
    requires UniqueKeys(EntityUpsert(), es) && e1 <= es
    requires UniqueKeys(MentionUpsert(), m1) && UniqueKeys(MentionUpsert(), ms)
    requires Closed(e1, m1) && forall m :: m in m1 ==> m in ms
    requires Wrote(g, e1, m1, s) && Wrote(s, es, ms, t) && Wrote(g, es, ms, t0)
    ensures t == t0
  {
    PrefixKeys(e1, es);
    AbsorbMentions(g, m1, ms);
    assert AttachedMentions(s, ms) == AttachedMentions(g, ms);
    AbsorbProvenance(g, m1, ms);
    assert t.provenance == t0.provenance;
    AbsorbEntities(g, e1, m1, s, es, ms, t, t0);
  }

  lemma AbsorbProvenance(g: Graph, m1: seq<MentionItem>, ms: seq<MentionItem>)
    requires forall m :: m in m1 ==> m in ms
    ensures ProvenanceOf(g, m1) + ProvenanceOf(g, ms) == ProvenanceOf(g, ms)
  {
  }

  lemma AbsorbEntities(g: Graph, e1: seq<EntityItem>, m1: seq<MentionItem>, s: Graph,
                       es: seq<EntityItem>, ms: seq<MentionItem>, t: Graph, t0: Graph)
    requires UniqueKeys(EntityUpsert(), es) && e1 <= es
    requires Closed(e1, m1) && forall m :: m in m1 ==> m in ms
    requires Wrote(g, e1, m1, s) && Wrote(s, es, ms, t) && Wrote(g, es, ms, t0)
    ensures t.entities == t0.entities
  {
    forall id ensures Get(t.entities, id) == Get(t0.entities, id) {
      AbsorbEntity(g, e1, m1, s, es, ms, t, t0, id);
    }
    SameEverywhere(t.entities, t0.entities);
  }

  // ----- relations -----

  function Pow2(n: nat): (r: real)
    ensures r >= 1.0
  {
    if n == 0 then 1.0 else 2.0 * Pow2(n - 1)
  }

  /** The weight of an edge that had `w0` after `n` runs that bring `w`. */
  function WeightAfter(w0: real, w: real, n: nat): real {
    w + (w0 - w) / Pow2(n)
  }

  lemma WeightStep(w0: real, w: real, n: nat)
    ensures (WeightAfter(w0, w, n) + w) / 2.0 == WeightAfter(w0, w, n + 1)
  {
    var p := Pow2(n);
    assert Pow2(n + 1) == 2.0 * p;
    Halve(w0 - w, p);
  }

  lemma Halve(x: real, p: real)
    requires p >= 1.0
    ensures (x / p) / 2.0 == x / (2.0 * p)
  {
    var q := x / p;
    assert q * p == x;
    assert (q / 2.0) * (2.0 * p) == x;
  }

  lemma MergeFilesAgain(stored: Option<seq<string>>, incoming: Option<seq<string>>)
    ensures MergeFiles(MergeFiles(stored, incoming), incoming) == MergeFiles(stored, incoming)
    ensures MergeFiles(incoming, incoming) == incoming
  {
    if incoming.Some? {
      var unseen := (x: string) => x !in incoming.value;
      FilterNone(incoming.value, unseen);
      assert [] + incoming.value == incoming.value;
      if stored.Some? {
        FilterAppend(Filter(stored.value, unseen), incoming.value, unseen);
        FilterTwice(stored.value, unseen);
        assert Filter(stored.value, unseen) + [] == Filter(stored.value, unseen);
      }
    }
  }

  /** An edge after `n` runs of an item: first created or averaged once, then averaged again. */
  function RelationAfter(existing: Option<Relation>, item: RelationItem, n: nat): Option<Relation> {
    if n == 0 then existing else Some(MergeRelation(RelationAfter(existing, item, n - 1), item))
  }

  lemma {:induction false} RelationAfterExact(existing: Option<Relation>, item: RelationItem, n: nat)
    requires n >= 1
    ensures RelationAfter(existing, item, n).value.files == MergeRelation(existing, item).files
    ensures RelationAfter(existing, item, n).value.weight
         == if existing.Some? then WeightAfter(existing.value.weight, item.weight, n) else item.weight
  {
    if n == 1 {
      assert RelationAfter(existing, item, 0) == existing;
      if existing.Some? {
        assert WeightAfter(existing.value.weight, item.weight, 0) == existing.value.weight;
        WeightStep(existing.value.weight, item.weight, 0);
      }
    } else {
      RelationAfterExact(existing, item, n - 1);
      if existing.Some? {
        MergeFilesAgain(existing.value.files, item.files);
        WeightStep(existing.value.weight, item.weight, n - 1);
      } else {
        MergeFilesAgain(None, item.files);
      }
    }
  }

  function Times(u: Upsert<RelationKey, Relation, RelationItem>, m: map<RelationKey, Relation>, items: seq<RelationItem>, n: nat): map<RelationKey, Relation> {
    if n == 0 then m else ApplyAll(u, Times(u, m, items, n - 1), items)
  }

  lemma {:induction false} TimesAt(m: map<RelationKey, Relation>, items: seq<RelationItem>, n: nat, i: nat)
    requires UniqueKeys(RelationUpsert(), items) && i < |items|
    ensures Get(Times(RelationUpsert(), m, items, n), KeyOf(items[i])) == RelationAfter(Get(m, KeyOf(items[i])), items[i], n)
  {
    if n > 0 {
      TimesAt(m, items, n - 1, i);
      ApplyAt(RelationUpsert(), Times(RelationUpsert(), m, items, n - 1), items, i);
    }
  }

  lemma {:induction false} TimesUntouched(m: map<RelationKey, Relation>, items: seq<RelationItem>, n: nat, k: RelationKey)
    requires k !in Keys(RelationUpsert(), items)
    ensures Get(Times(RelationUpsert(), m, items, n), k) == Get(m, k)
  {
    if n > 0 {
      TimesUntouched(m, items, n - 1, k);
      ApplyUntouched(RelationUpsert(), Times(RelationUpsert(), m, items, n - 1), items, k);
    }
  }

  // ----- the whole write, n times -----

  function Runs(g: Graph, p: Plan, n: nat): Graph {
    if n == 0 then g else WriteTx(Runs(g, p, n - 1), p)
  }

  /** The graph a payload's entities and mentions leave; its relations only change edges from here. */
  function Base(g: Graph, p: Plan): Graph {
    WriteTx(g, p.(relations := []))
  }

  /** From a graph where the entities and mentions are already in, a run only applies the relations. */
  lemma RunOnBase(g: Graph, p: Plan, relations: map<RelationKey, Relation>)
    requires Deduplicated(p) && Closed(p.entities, p.mentions)
    ensures var s := Base(g, p).(relations := relations);
            WriteTx(s, p) == WriteRelations(s, p.relations)
  {
    var h := Base(g, p);
    var s := h.(relations := relations);
    TxWrote(g, p);
    TxWrote(s, p);
    TxRelations(s, p);
    BaseAbsorbs(g, p, h, s, WriteTx(s, p.(relations := [])));
  }

  lemma BaseAbsorbs(g: Graph, p: Plan, h: Graph, s: Graph, t: Graph)
    requires Deduplicated(p) && Closed(p.entities, p.mentions)
    requires Wrote(g, p.entities, p.mentions, h) && s == h.(relations := s.relations)
    requires Wrote(s, p.entities, p.mentions, t)
    ensures t == s
  {
    var t0 := t.(relations := h.relations);
    assert AttachedMentions(s, p.mentions) == AttachedMentions(h, p.mentions);
    assert ProvenanceOf(s, p.mentions) == ProvenanceOf(h, p.mentions);
    forall i | 0 <= i < |p.entities| ensures WroteItem(h, p.entities[i], p.mentions, t0) {
      SameItemWritten(h, s, p.entities[i], p.mentions, t, t0);
    }
    assert Wrote(h, p.entities, p.mentions, t0);
    Absorb(g, p.entities, p.mentions, h, p.entities, p.mentions, t0, h);
  }

  /** Relations make no difference to what is written of an entity. */
  lemma SameItemWritten(h: Graph, s: Graph, item: EntityItem, mentions: seq<MentionItem>, t: Graph, t0: Graph)
    requires s == h.(relations := s.relations) && t0 == t.(relations := t0.relations) && WroteItem(s, item, mentions, t)
    ensures WroteItem(h, item, mentions, t0)
  {
    assert Attached(s, mentions, item.id) == Attached(h, mentions, item.id);
  }

  lemma {:induction false} RunsAre(g: Graph, p: Plan, n: nat)
    requires Deduplicated(p) && Closed(p.entities, p.mentions) && n >= 1
    ensures var h := Base(g, p);
            Runs(g, p, n) == h.(relations := Times(RelationUpsert(), g.relations, Joined(h, p.relations), n))
  {
    var h := Base(g, p);
    var j := Joined(h, p.relations);
    BaseKeepsRelations(g, p);
    if n == 1 {
      TxRelations(g, p);
      assert Runs(g, p, 0) == g;
      assert Times(RelationUpsert(), g.relations, j, 0) == g.relations;
    } else {
      RunsAre(g, p, n - 1);
      var before := Times(RelationUpsert(), g.relations, j, n - 1);
      RunOnBase(g, p, before);
      assert Joined(h.(relations := before), p.relations) == j;
    }
  }

  lemma BaseKeepsRelations(g: Graph, p: Plan)
    requires Deduplicated(p) && Closed(p.entities, p.mentions)
    ensures Base(g, p).relations == g.relations
  {
    TxWrote(g, p);
  }

  /** The two graphs differ at most in edge weights. */
  ghost predicate SameButWeights(a: Graph, b: Graph) {
    && a == b.(relations := a.relations)
    && a.relations.Keys == b.relations.Keys
    && (forall k :: k in a.relations ==> a.relations[k].files == b.relations[k].files)
  }

  ghost predicate HasWeight(before: map<RelationKey, Relation>, item: RelationItem, n: nat, after: map<RelationKey, Relation>) {
    var k := KeyOf(item);
    && k in after
    && after[k].weight == if k in before then WeightAfter(before[k].weight, item.weight, n) else item.weight
  }

  /** After `n` runs every edge has an exact weight: an edge of the payload that existed before went
      to w + (w0 - w) / 2^n, one the payload created stays at w, every other edge keeps its weight. */
  ghost predicate WeightsAfter(g: Graph, p: Plan, n: nat, h: Graph) {
    var j := Joined(Base(g, p), p.relations);
    && (forall i :: 0 <= i < |j| ==> HasWeight(g.relations, j[i], n, h.relations))
    && (forall k :: k in h.relations && k !in Keys(RelationUpsert(), j) ==> Get(h.relations, k) == Get(g.relations, k))
  }

  lemma {:induction false} TimesKeys(m: map<RelationKey, Relation>, items: seq<RelationItem>, n: nat)
    requires n >= 1
    ensures Times(RelationUpsert(), m, items, n).Keys == m.Keys + Keys(RelationUpsert(), items)
  {
    ApplyKeys(RelationUpsert(), Times(RelationUpsert(), m, items, n - 1), items);
    if n > 1 {
      TimesKeys(m, items, n - 1);
    }
  }

  /** Re-running a source write `n` times: the first run decides everything but weights, and the
      weights are exact. */
  lemma RerunExact(g: Graph, p: Plan, n: nat)
    requires Deduplicated(p) && Closed(p.entities, p.mentions) && n >= 1
    ensures SameButWeights(Runs(g, p, n), WriteTx(g, p))
    ensures WeightsAfter(g, p, n, Runs(g, p, n))
  {
    var j := Joined(Base(g, p), p.relations);
    UniqueFilter(RelationUpsert(), p.relations, (r: RelationItem) => r.source in Base(g, p).entities && r.target in Base(g, p).entities);
    RunsAre(g, p, n);
    RunsAre(g, p, 1);
    assert Runs(g, p, 1) == WriteTx(g, p) by {
      assert Runs(g, p, 0) == g;
    }
    TimesSame(g.relations, j, n);
  }

  lemma TimesSame(m: map<RelationKey, Relation>, j: seq<RelationItem>, n: nat)
    requires UniqueKeys(RelationUpsert(), j) && n >= 1
    ensures var a, b := Times(RelationUpsert(), m, j, n), Times(RelationUpsert(), m, j, 1);
            && a.Keys == b.Keys == m.Keys + Keys(RelationUpsert(), j)
            && (forall k :: k in a ==> a[k].files == b[k].files)
            && (forall i :: 0 <= i < |j| ==> HasWeight(m, j[i], n, a))
            && (forall k :: k in a && k !in Keys(RelationUpsert(), j) ==> Get(a, k) == Get(m, k))
  {
    var u := RelationUpsert();
    var a, b := Times(u, m, j, n), Times(u, m, j, 1);
    TimesKeys(m, j, n);
    TimesKeys(m, j, 1);
    forall k | k in a && k !in Keys(u, j) ensures Get(a, k) == Get(m, k) && Get(b, k) == Get(m, k) {
      TimesUntouched(m, j, n, k);
      TimesUntouched(m, j, 1, k);
    }
    forall i | 0 <= i < |j|
      ensures KeyOf(j[i]) in a && KeyOf(j[i]) in b && a[KeyOf(j[i])].files == b[KeyOf(j[i])].files
      ensures HasWeight(m, j[i], n, a)
    {
      TimesAt(m, j, n, i);
      TimesAt(m, j, 1, i);
      RelationAfterExact(Get(m, KeyOf(j[i])), j[i], n);
      RelationAfterExact(Get(m, KeyOf(j[i])), j[i], 1);
    }
    forall k | k in a ensures a[k].files == b[k].files {
      if k in Keys(u, j) {
        var i :| 0 <= i < |j| && u.key(j[i]) == k;
      } else {
        assert Get(a, k) == Get(b, k);
      }
    }
  }

  // ----- stopping part-way -----

  /** A write that stopped before any of its relations. */
  ghost predicate ExecutedEntities(g: Graph, p: Plan, e1: seq<EntityItem>, m1: seq<MentionItem>, s: Graph) {
    && e1 <= p.entities && Closed(e1, m1) && UniqueKeys(MentionUpsert(), m1)
    && (forall m :: m in m1 ==> m in p.mentions)
    && Wrote(g, e1, m1, s)
  }

  /** Stopped before any relation was written, the re-run gives exactly the uninterrupted result. */
  lemma RerunAfterEntities(g: Graph, p: Plan, e1: seq<EntityItem>, m1: seq<MentionItem>, s: Graph)
    requires Deduplicated(p) && Closed(p.entities, p.mentions) && ExecutedEntities(g, p, e1, m1, s)
    ensures WriteTx(s, p) == WriteTx(g, p)
  {
    TxWrote(s, p);
    TxWrote(g, p);
    TxRelations(s, p);
    TxRelations(g, p);
    Absorb(g, e1, m1, s, p.entities, p.mentions, WriteTx(s, p.(relations := [])), Base(g, p));
  }

  /** Weights after a run that follows a run stopped once the relations `r1` were in. */
  ghost predicate StoppedWeights(g: Graph, p: Plan, r1: seq<RelationItem>, h: Graph) {
    var j := Joined(Base(g, p), p.relations);
    && (forall i :: 0 <= i < |j| ==> HasWeight(g.relations, j[i], if j[i] in r1 then 2 else 1, h.relations))
    && (forall k :: k in h.relations && k !in Keys(RelationUpsert(), j) ==> Get(h.relations, k) == Get(g.relations, k))
  }

  /** Stopped after the relations `r1`, the re-run differs from the uninterrupted result only in the
      weights of pre-existing edges among `r1`, which have been averaged twice instead of once. */
  lemma RerunAfterRelations(g: Graph, p: Plan, r1: seq<RelationItem>)
    requires Deduplicated(p) && Closed(p.entities, p.mentions) && r1 <= p.relations
    ensures var s := WriteRelations(Base(g, p), r1);
            && SameButWeights(WriteTx(s, p), WriteTx(g, p))
            && StoppedWeights(g, p, r1, WriteTx(s, p))
  {
    var h := Base(g, p);
    var j1, j := Joined(h, r1), Joined(h, p.relations);
    var joins := (r: RelationItem) => r.source in h.entities && r.target in h.entities;
    BaseKeepsRelations(g, p);
    TxRelations(g, p);
    RunOnBase(g, p, ApplyAll(RelationUpsert(), g.relations, j1));
    var s := WriteRelations(h, r1);
    assert s == h.(relations := ApplyAll(RelationUpsert(), g.relations, j1));
    assert Joined(s, p.relations) == j;
    var rest := Filter(p.relations[|r1|..], joins);
    assert r1 + p.relations[|r1|..] == p.relations;
    FilterAppend(r1, p.relations[|r1|..], joins);
    UniqueFilter(RelationUpsert(), p.relations, joins);
    forall i | 0 <= i < |j| ensures (j[i] in r1) == (i < |j1|) {
      InPrefix(p.relations, r1, joins, i);
    }
    TwiceThenOnce(g.relations, j1, rest);
  }

  /** In a list with distinct keys, an element that passes the test sits among the first ones exactly
      when it comes from the prefix. */
  lemma InPrefix(all: seq<RelationItem>, r1: seq<RelationItem>, p: RelationItem -> bool, i: nat)
    requires r1 <= all && UniqueKeys(RelationUpsert(), all) && i < |Filter(all, p)|
    requires Filter(all, p) == Filter(r1, p) + Filter(all[|r1|..], p)
    ensures Filter(all, p)[i] in r1 <==> i < |Filter(r1, p)|
  {
    var a, b := Filter(r1, p), Filter(all[|r1|..], p);
    if i < |a| {
      assert a[i] in a;
    } else {
      var x := b[i - |a|];
      assert x in b;
      var n :| 0 <= n < |all[|r1|..]| && all[|r1|..][n] == x;
      forall m | 0 <= m < |r1| ensures r1[m] != x {
        assert RelationUpsert().key(all[m]) != RelationUpsert().key(all[|r1| + n]);
      }
    }
  }

  lemma TwiceThenOnce(m: map<RelationKey, Relation>, j1: seq<RelationItem>, rest: seq<RelationItem>)
    requires UniqueKeys(RelationUpsert(), j1 + rest)
    ensures var u := RelationUpsert();
            var once, again := ApplyAll(u, m, j1 + rest), ApplyAll(u, ApplyAll(u, m, j1), j1 + rest);
            && again.Keys == once.Keys
            && (forall k :: k in again ==> again[k].files == once[k].files)
            && (forall i :: 0 <= i < |j1 + rest| ==> HasWeight(m, (j1 + rest)[i], if i < |j1| then 2 else 1, again))
            && (forall k :: k in again && k !in Keys(u, j1 + rest) ==> Get(again, k) == Get(m, k))
  {
    var u, j := RelationUpsert(), j1 + rest;
    var mid := ApplyAll(u, m, j1);
    var once, again := ApplyAll(u, m, j), ApplyAll(u, mid, j);
    UniqueAppend(u, j1, rest);
    KeysAppend(u, j1, rest);
    ApplyKeys(u, m, j1);
    ApplyKeys(u, m, j);
    ApplyKeys(u, mid, j);
    forall k | k !in Keys(u, j) ensures Get(again, k) == Get(m, k) && Get(once, k) == Get(m, k) {
      ApplyUntouched(u, m, j1, k);
      ApplyUntouched(u, mid, j, k);
      ApplyUntouched(u, m, j, k);
    }
    forall i | 0 <= i < |j|
      ensures KeyOf(j[i]) in again && KeyOf(j[i]) in once && again[KeyOf(j[i])].files == once[KeyOf(j[i])].files
      ensures HasWeight(m, j[i], if i < |j1| then 2 else 1, again)
    {
      var k := KeyOf(j[i]);
      ApplyAt(u, mid, j, i);
      ApplyAt(u, m, j, i);
      if i < |j1| {
        assert j1[i] == j[i];
        ApplyAt(u, m, j1, i);
        assert RelationAfter(Get(m, k), j[i], 0) == Get(m, k);
        assert Get(again, k) == RelationAfter(Get(m, k), j[i], 2);
        RelationAfterExact(Get(m, k), j[i], 2);
      } else {
        assert rest[i - |j1|] == j[i];
        assert k in Keys(u, rest) by { assert u.key(rest[i - |j1|]) == k; }
        ApplyUntouched(u, m, j1, k);
        assert RelationAfter(Get(m, k), j[i], 0) == Get(m, k);
        RelationAfterExact(Get(m, k), j[i], 1);
      }
    }
    forall k | k in again ensures again[k].files == once[k].files {
      if k in Keys(u, j) {
        var i :| 0 <= i < |j| && u.key(j[i]) == k;
      } else {
        assert Get(again, k) == Get(once, k);
      }
    }
  }

  ghost function RelationsOf(plans: seq<Plan>): seq<RelationItem> {
    if plans == [] then [] else RelationsOf(plans[..|plans| - 1]) + plans[|plans| - 1].relations
  }

  lemma {:induction false} RelationsOfAppend(a: seq<Plan>, b: seq<Plan>)
    ensures RelationsOf(a + b) == RelationsOf(a) + RelationsOf(b)
  {
    if b == [] {
      assert a + b == a;
    } else {
      assert (a + b)[..|a + b| - 1] == a + b[..|b| - 1];
      RelationsOfAppend(a, b[..|b| - 1]);
    }
  }

  lemma {:induction false} RelationsOfEntityPlans(chunks: seq<seq<EntityItem>>, plans: seq<Plan>, mentions: seq<MentionItem>)
    requires |plans| == |chunks| && forall c :: 0 <= c < |chunks| ==> EntityPlan(plans[c], chunks[c], mentions)
    ensures RelationsOf(plans) == []
  {
    if plans != [] {
      var last := |plans| - 1;
      assert EntityPlan(plans[last], chunks[last], mentions);
      RelationsOfEntityPlans(chunks[..last], plans[..last], mentions);
    }
  }

  lemma {:induction false} RelationsOfRelationPlans(chunks: seq<seq<RelationItem>>, plans: seq<Plan>)
    requires |plans| == |chunks| && forall c :: 0 <= c < |chunks| ==> plans[c] == Plan([], [], chunks[c])
    ensures RelationsOf(plans) == Concat(chunks)
  {
    if plans != [] {
      var last := |plans| - 1;
      RelationsOfRelationPlans(chunks[..last], plans[..last]);
    }
  }

  lemma PrefixOfConcat<T>(parts: seq<seq<T>>, k: nat)
    requires k <= |parts|
    ensures Concat(parts[..k]) <= Concat(parts)
  {
    assert parts == parts[..k] + parts[k..];
    ConcatAppend(parts[..k], parts[k..]);
  }

  /** Stopped among the entity transactions: a prefix of the entities, with their mentions, is in. */
  lemma StoppedInEntities(g: Graph, p: Plan, ec: seq<seq<EntityItem>>, plans: seq<Plan>)
    requires Deduplicated(p) && Concat(ec) <= p.entities && |plans| == |ec|
    requires forall c :: 0 <= c < |ec| ==> EntityPlan(plans[c], ec[c], p.mentions)
    ensures RelationsOf(plans) == []
    ensures ExecutedEntities(g, p, Concat(ec), MentionsOf(Concat(ec), p.mentions), WriteAll(g, plans))
  {
    var e1 := Concat(ec);
    assert e1 + p.entities[|e1|..] == p.entities;
    UniqueAppend(EntityUpsert(), e1, p.entities[|e1|..]);
    MentionsOfMeaning(e1, p.mentions);
    EntityPlansWrite(g, p.mentions, ec, plans);
    RelationsOfEntityPlans(ec, plans, p.mentions);
  }

  /** Stopped among the relation transactions: everything but a suffix of the relations is in. */
  lemma StoppedInRelations(g: Graph, p: Plan, ec: seq<seq<EntityItem>>, rk: seq<seq<RelationItem>>, first: seq<Plan>, second: seq<Plan>)
    requires Deduplicated(p) && Closed(p.entities, p.mentions)
    requires Concat(ec) == p.entities && |first| == |ec| && |second| == |rk|
    requires forall c :: 0 <= c < |ec| ==> EntityPlan(first[c], ec[c], p.mentions)
    requires forall c :: 0 <= c < |rk| ==> second[c] == Plan([], [], rk[c])
    ensures RelationsOf(first + second) == Concat(rk)
    ensures WriteAll(g, first + second) == WriteRelations(Base(g, p), Concat(rk))
  {
    WriteAllAppend(g, first, second);
    RelationsOfAppend(first, second);
    RelationsOfEntityPlans(ec, first, p.mentions);
    RelationsOfRelationPlans(rk, second);
    EntityPart(g, p, ec, first);
    RelationPlansWrite(Base(g, p), rk, second);
    assert [] + Concat(rk) == Concat(rk);
  }

  lemma ResumeSplit(g: Graph, p: Plan, ec: seq<seq<EntityItem>>, rc: seq<seq<RelationItem>>, plans: seq<Plan>, k: nat)
    requires Deduplicated(p) && Closed(p.entities, p.mentions) && Split(p, ec, rc, plans) && k <= |plans|
    requires Concat(ec) == p.entities && Concat(rc) == p.relations
    ensures Resumed(g, p, plans[..k])
  {
    if k <= |ec| {
      PrefixOfConcat(ec, k);
      StoppedInEntities(g, p, ec[..k], plans[..k]);
      ResumeEntities(g, p, Concat(ec[..k]), MentionsOf(Concat(ec[..k]), p.mentions), WriteAll(g, plans[..k]));
    } else {
      var rk := rc[..k - |ec|];
      PrefixOfConcat(rc, k - |ec|);
      assert plans[..k] == plans[..|ec|] + plans[|ec|..k];
      forall c | 0 <= c < |rk| ensures plans[|ec|..k][c] == Plan([], [], rk[c]) {
        assert plans[|ec| + c] == Plan([], [], rc[c]);
      }
      StoppedInRelations(g, p, ec, rk, plans[..|ec|], plans[|ec|..k]);
      RerunAfterRelations(g, p, Concat(rk));
    }
  }

  lemma ResumeSingle(g: Graph, p: Plan, k: nat)
    requires Deduplicated(p) && Closed(p.entities, p.mentions) && k <= 1
    ensures Resumed(g, p, [p][..k])
  {
    if k == 0 {
      assert [p][..0] == [];
      assert RelationsOf([]) == [] && WriteAll(g, []) == g;
      ResumeEntities(g, p, [], [], g);
    } else {
      assert [p][..1] == [p] && [p][..0] == [];
      assert RelationsOf([p]) == [] + p.relations == p.relations;
      assert WriteAll(g, [p]) == WriteTx(g, p);
      TxRelations(g, p);
      RerunAfterRelations(g, p, p.relations);
    }
  }

  ghost predicate Resumed(g: Graph, p: Plan, executed: seq<Plan>) {
    var h := WriteTx(WriteAll(g, executed), p);
    SameButWeights(h, WriteTx(g, p)) && StoppedWeights(g, p, RelationsOf(executed), h)
  }

  /** A source write stopped after any number of its planned transactions and then run in full, with
      whatever guard value: the graph is the uninterrupted one except for the weights of pre-existing
      edges whose relations had been executed, averaged once more. */
  lemma {:induction false} StopThenRerun(g: Graph, p: Plan, maxItems: nat, plans: seq<Plan>, k: nat, maxAgain: nat, again: seq<Plan>)
    requires Deduplicated(p) && Closed(p.entities, p.mentions)
    requires maxItems >= 1 && Planned(p, maxItems, plans) && k <= |plans|
    requires maxAgain >= 1 && Planned(p, maxAgain, again)
    ensures var h := WriteAll(WriteAll(g, plans[..k]), again);
            SameButWeights(h, WriteTx(g, p)) && StoppedWeights(g, p, RelationsOf(plans[..k]), h)
  {
    BatchSizeIndependent(WriteAll(g, plans[..k]), p, maxAgain, again);
    assert Resumed(g, p, plans[..k]) by {
      if |p.entities| + |p.relations| <= maxItems {
        ResumeSingle(g, p, k);
      } else {
        ChunksConcat(p.entities, maxItems);
        ChunksConcat(p.relations, maxItems);
        ResumeSplit(g, p, Chunks(p.entities, maxItems), Chunks(p.relations, maxItems), plans, k);
      }
    }
  }

  lemma ResumeEntities(g: Graph, p: Plan, e1: seq<EntityItem>, m1: seq<MentionItem>, s: Graph)
    requires Deduplicated(p) && Closed(p.entities, p.mentions)
    requires ExecutedEntities(g, p, e1, m1, s) || (e1 == [] && s == g)
    ensures SameButWeights(WriteTx(s, p), WriteTx(g, p)) && StoppedWeights(g, p, [], WriteTx(s, p))
  {
    if s != g {
      RerunAfterEntities(g, p, e1, m1, s);
    }
    RerunExact(g, p, 1);
    assert Runs(g, p, 0) == g;
  }
}
