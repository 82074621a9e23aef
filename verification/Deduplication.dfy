/** What the three deduplication loops promise, and that they may be applied incrementally. */
module Deduplication {
  import opened Prelude
  import opened MapFold
  import opened Metadata
  import opened Ordering
  import opened Graph
  import opened BatchedWrite
  import opened SourceGraphWriter

  ghost predicate RankDecidesKey<K, V(!new)>(u: Upsert<K, V, V>, rank: V -> seq<string>) {
    forall v, w :: rank(v) == rank(w) <==> u.key(v) == u.key(w)
  }

  lemma RanksDecideKeys()
    ensures RankDecidesKey(EntityGrouping(), EntityRank)
    ensures RankDecidesKey(MentionGrouping(), MentionRank)
    ensures RankDecidesKey(RelationGrouping(), RelationRank)
  {
    forall v, w | EntityRank(v) == EntityRank(w) ensures v.id == w.id {
      assert EntityRank(v)[0] == EntityRank(w)[0];
    }
    forall v, w | MentionRank(v) == MentionRank(w) ensures MentionEdge(v) == MentionEdge(w) {
      assert MentionRank(v)[0] == MentionRank(w)[0] && MentionRank(v)[1] == MentionRank(w)[1];
    }
    forall v, w | RelationRank(v) == RelationRank(w) ensures KeyOf(v) == KeyOf(w) {
      assert RelationRank(v)[0] == RelationRank(w)[0] && RelationRank(v)[1] == RelationRank(w)[1] && RelationRank(v)[2] == RelationRank(w)[2];
    }
  }

  lemma GroupingsSettle()
    ensures Settling(EntityGrouping()) && Settling(MentionGrouping()) && Settling(RelationGrouping())
  {
    EntitiesSettle();
  }

  // ----- keys: preserved, unique, sorted -----

  lemma DedupedKeys<K, V(!new)>(u: Upsert<K, V, V>, rank: V -> seq<string>, items: seq<V>, out: seq<V>)
    requires Settling(u) && RankDecidesKey(u, rank) && IsDeduplicated(u, rank, items, out)
    ensures StrictlySorted(out, rank) && UniqueKeys(u, out) && Keys(u, out) == Keys(u, items)
  {
    ApplyKeys(u, map[], items);
    GroupedSettled(u, items);
    forall i, j | 0 <= i < j < |out| ensures u.key(out[i]) != u.key(out[j]) {
      TupleLessTotal(rank(out[i]), rank(out[j]));
    }
    var m := Grouped(u, items);
    forall k | k in m ensures k in Keys(u, out) {
      KeysMember(u, out, m[k]);
    }
  }

  /** The output is determined by the input: there is one sorted list of the groups. */
  lemma DedupedUnique<K, V(!new)>(u: Upsert<K, V, V>, rank: V -> seq<string>, items: seq<V>, a: seq<V>, b: seq<V>)
    requires IsDeduplicated(u, rank, items, a) && IsDeduplicated(u, rank, items, b)
    ensures a == b
  {
    forall y ensures y in a <==> y in b {
      if y in a {
        var i :| 0 <= i < |a| && a[i] == y;
      }
      if y in b {
        var i :| 0 <= i < |b| && b[i] == y;
      }
    }
    SortedUnique(a, b, rank);
  }

  // ----- incremental deduplication -----

  /** Grouping an already deduplicated list rebuilds the same groups. */
  lemma RegroupDeduped<K, V(!new)>(u: Upsert<K, V, V>, rank: V -> seq<string>, items: seq<V>, out: seq<V>)
    requires Settling(u) && RankDecidesKey(u, rank) && IsDeduplicated(u, rank, items, out)
    ensures Grouped(u, out) == Grouped(u, items)
  {
    DedupedKeys(u, rank, items, out);
    ApplyKeys(u, map[], out);
    ApplyKeys(u, map[], items);
    GroupedSettled(u, items);
    forall k | k in Grouped(u, out) ensures Get(Grouped(u, out), k) == Get(Grouped(u, items), k) {
      var i :| 0 <= i < |out| && u.key(out[i]) == k;
      ApplyAt(u, map[], out, i);
      assert Settled(u, Grouped(u, items)[k]);
    }
    MapsEqual(Grouped(u, out), Grouped(u, items));
  }

  lemma SameGroups<K, V(!new)>(u: Upsert<K, V, V>, rank: V -> seq<string>, a: seq<V>, b: seq<V>, out: seq<V>)
    requires Grouped(u, a) == Grouped(u, b) && IsDeduplicated(u, rank, a, out)
    ensures IsDeduplicated(u, rank, b, out)
  {
    var ma, mb := Grouped(u, a), Grouped(u, b);
    forall k | k in mb ensures mb[k] in out {
      assert ma[k] in out;
    }
    forall i | 0 <= i < |out| ensures u.key(out[i]) in mb && mb[u.key(out[i])] == out[i] {
      assert u.key(out[i]) in ma;
    }
  }

  /** dedupe(a ++ b) == dedupe(dedupe(a) ++ b): chunks may be folded in as they arrive. */
  lemma DedupeIncremental<K, V(!new)>(u: Upsert<K, V, V>, rank: V -> seq<string>, a: seq<V>, b: seq<V>,
                                      first: seq<V>, whole: seq<V>, stepwise: seq<V>)
    requires Settling(u) && RankDecidesKey(u, rank)
    requires IsDeduplicated(u, rank, a, first)
    requires IsDeduplicated(u, rank, a + b, whole) && IsDeduplicated(u, rank, first + b, stepwise)
    ensures whole == stepwise
  {
    RegroupDeduped(u, rank, a, first);
    ApplyAppend(u, map[], a, b);
    ApplyAppend(u, map[], first, b);
    SameGroups(u, rank, first + b, a + b, stepwise);
    DedupedUnique(u, rank, a + b, whole, stepwise);
  }

  /** All three lists of a source at once. */
  lemma PrepareIncremental(a: Plan, b: Plan, first: Plan, whole: Plan, stepwise: Plan)
    requires Prepared(a, first)
    requires Prepared(Joint(a, b), whole) && Prepared(Joint(first, b), stepwise)
    ensures whole == stepwise
  {
    GroupingsSettle();
    RanksDecideKeys();
    DedupeIncremental(EntityGrouping(), EntityRank, a.entities, b.entities, first.entities, whole.entities, stepwise.entities);
    DedupeIncremental(MentionGrouping(), MentionRank, a.mentions, b.mentions, first.mentions, whole.mentions, stepwise.mentions);
    DedupeIncremental(RelationGrouping(), RelationRank, a.relations, b.relations, first.relations, whole.relations, stepwise.relations);
  }

  /** `prepare_source_graph`: the three lists deduplicated. */
  ghost predicate Prepared(raw: Plan, p: Plan) {
    && IsDeduplicated(EntityGrouping(), EntityRank, raw.entities, p.entities)
    && IsDeduplicated(MentionGrouping(), MentionRank, raw.mentions, p.mentions)
    && IsDeduplicated(RelationGrouping(), RelationRank, raw.relations, p.relations)
  }

  // ----- what a group becomes -----

  function GroupOf<K(==), V(!new)>(u: Upsert<K, V, V>, items: seq<V>, k: K): seq<V> {
    Filter(items, v => u.key(v) == k)
  }

  function Reduce<K, V>(u: Upsert<K, V, V>, group: seq<V>): Option<V> {
    if group == [] then None else Some(u.merge(Reduce(u, group[..|group| - 1]), group[|group| - 1]))
  }

  lemma {:induction false} GroupedReduces<K, V(!new)>(u: Upsert<K, V, V>, items: seq<V>, k: K)
    ensures Get(Grouped(u, items), k) == Reduce(u, GroupOf(u, items, k))
  {
    if items != [] {
      GroupedReduces(u, items[..|items| - 1], k);
      var g := GroupOf(u, items[..|items| - 1], k);
      if u.key(items[|items| - 1]) == k {
        assert GroupOf(u, items, k) == g + [items[|items| - 1]];
        assert (g + [items[|items| - 1]])[..|g|] == g;
      }
    }
  }

  /** A merged mention carries the largest confidence of its group. */
  lemma MentionConfidence(mentions: seq<MentionItem>, out: seq<MentionItem>, m: MentionItem)
    requires IsDeduplicated(MentionGrouping(), MentionRank, mentions, out) && m in out
    ensures var group := GroupOf(MentionGrouping(), mentions, MentionEdge(m));
            && (forall i :: 0 <= i < |group| ==> group[i].confidence <= m.confidence)
            && (exists i :: 0 <= i < |group| && group[i].confidence == m.confidence)
  {
    GroupedReduces(MentionGrouping(), mentions, MentionEdge(m));
    ReducedConfidence(GroupOf(MentionGrouping(), mentions, MentionEdge(m)));
  }

  lemma {:induction false} ReducedConfidence(group: seq<MentionItem>)
    requires group != []
    ensures var c := Reduce(MentionGrouping(), group).value.confidence;
            && (forall i :: 0 <= i < |group| ==> group[i].confidence <= c)
            && (exists i :: 0 <= i < |group| && group[i].confidence == c)
  {
    var shorter, last := group[..|group| - 1], group[|group| - 1];
    if shorter == [] {
      assert Reduce(MentionGrouping(), shorter) == None;
      assert group[0] == last;
    } else {
      ReducedConfidence(shorter);
      var c := Reduce(MentionGrouping(), shorter).value.confidence;
      assert Reduce(MentionGrouping(), group).value.confidence == Max(c, last.confidence);
      var i :| 0 <= i < |shorter| && shorter[i].confidence == c;
      assert group[i].confidence == c;
      forall j | 0 <= j < |group| ensures group[j].confidence <= Max(c, last.confidence) {
        assert j < |shorter| ==> group[j] == shorter[j];
      }
    }
  }

  /** A merged weight lies between the smallest and the largest weight of its group, and the merged
      file list names exactly the files of the group. */
  lemma RelationMerged(relations: seq<RelationItem>, out: seq<RelationItem>, r: RelationItem)
    requires IsDeduplicated(RelationGrouping(), RelationRank, relations, out) && r in out
    ensures var group := GroupOf(RelationGrouping(), relations, KeyOf(r));
            && (exists i :: 0 <= i < |group| && group[i].weight <= r.weight)
            && (exists i :: 0 <= i < |group| && r.weight <= group[i].weight)
            && (r.files.None? <==> forall i :: 0 <= i < |group| ==> group[i].files.None?)
            && (forall f :: NamesFile(r, f) <==> exists i :: 0 <= i < |group| && NamesFile(group[i], f))
  {
    GroupedReduces(RelationGrouping(), relations, KeyOf(r));
    ReducedRelation(GroupOf(RelationGrouping(), relations, KeyOf(r)));
  }

  ghost predicate NamesFile(r: RelationItem, f: string) {
    r.files.Some? && f in r.files.value
  }

  lemma {:induction false} ReducedRelation(group: seq<RelationItem>)
    requires group != []
    ensures var r := Reduce(RelationGrouping(), group).value;
            && (exists i :: 0 <= i < |group| && group[i].weight <= r.weight)
            && (exists i :: 0 <= i < |group| && r.weight <= group[i].weight)
            && (r.files.None? <==> forall i :: 0 <= i < |group| ==> group[i].files.None?)
            && (forall f :: NamesFile(r, f) <==> exists i :: 0 <= i < |group| && NamesFile(group[i], f))
  {
    var shorter, last := group[..|group| - 1], group[|group| - 1];
    var r := Reduce(RelationGrouping(), group).value;
    if shorter == [] {
      assert Reduce(RelationGrouping(), shorter) == None;
      assert r == group[0];
    } else {
      ReducedRelation(shorter);
      var c := Reduce(RelationGrouping(), shorter).value;
      assert r == CombineRelations(Some(c), last);
      ReducedWeight(group, c.weight);
      forall f ensures NamesFile(r, f) <==> exists i :: 0 <= i < |group| && NamesFile(group[i], f) {
        ReducedFiles(group, shorter, c, f);
      }
      assert c.files.None? <==> forall i :: 0 <= i < |shorter| ==> group[i].files.None?;
    }
  }

  lemma ReducedWeight(group: seq<RelationItem>, w: real)
    requires |group| >= 2
    requires var shorter := group[..|group| - 1];
             (exists i :: 0 <= i < |shorter| && shorter[i].weight <= w) && (exists i :: 0 <= i < |shorter| && w <= shorter[i].weight)
    ensures var v := (w + group[|group| - 1].weight) / 2.0;
            (exists i :: 0 <= i < |group| && group[i].weight <= v) && (exists i :: 0 <= i < |group| && v <= group[i].weight)
  {
    var shorter, last := group[..|group| - 1], |group| - 1;
    var lo :| 0 <= lo < |shorter| && shorter[lo].weight <= w;
    var hi :| 0 <= hi < |shorter| && w <= shorter[hi].weight;
    var v := (w + group[last].weight) / 2.0;
    assert group[lo].weight <= v || group[last].weight <= v;
    assert v <= group[hi].weight || v <= group[last].weight;
  }

  lemma ReducedFiles(group: seq<RelationItem>, shorter: seq<RelationItem>, c: RelationItem, f: string)
    requires group != [] && shorter == group[..|group| - 1]
    requires NamesFile(c, f) <==> exists i :: 0 <= i < |shorter| && NamesFile(shorter[i], f)
    ensures NamesFile(CombineRelations(Some(c), group[|group| - 1]), f) <==> exists i :: 0 <= i < |group| && NamesFile(group[i], f)
  {
    var last := group[|group| - 1];
    if c.files.Some? && last.files.Some? {
      AppendNewMembers(c.files.value, last.files.value, f);
    }
    assert NamesFile(CombineRelations(Some(c), last), f) <==> NamesFile(c, f) || NamesFile(last, f);
    if NamesFile(c, f) {
      var i :| 0 <= i < |shorter| && NamesFile(shorter[i], f);
      assert NamesFile(group[i], f);
    }
    if i :| 0 <= i < |group| && NamesFile(group[i], f) {
      if i < |shorter| {
        assert NamesFile(shorter[i], f);
      }
    }
  }

  function MetadataOf(group: seq<EntityItem>): (r: seq<Accumulated>)
    ensures |r| == |group|
  {
    seq(|group|, i requires 0 <= i < |group| => group[i].metadata)
  }

  /** A merged entity carries the union of its group's documents in first-seen order, and the
      largest confidence present in the group. */
  lemma EntityMetadata(entities: seq<EntityItem>, out: seq<EntityItem>, e: EntityItem)
    requires IsDeduplicated(EntityGrouping(), EntityRank, entities, out) && e in out
    ensures e.metadata == MergedChunks(MetadataOf(GroupOf(EntityGrouping(), entities, e.id)))
  {
    EntitiesSettle();
    GroupedSettled(EntityGrouping(), entities);
    GroupedReduces(EntityGrouping(), entities, e.id);
    ReducedMetadata(GroupOf(EntityGrouping(), entities, e.id));
  }

  lemma {:induction false} ReducedMetadata(group: seq<EntityItem>)
    requires group != []
    ensures Reduce(EntityGrouping(), group).value.metadata == MergedChunks(MetadataOf(group))
  {
    var shorter, last := group[..|group| - 1], group[|group| - 1];
    assert MetadataOf(group) == MetadataOf(shorter) + [last.metadata];
    if shorter == [] {
      assert Reduce(EntityGrouping(), shorter) == None;
      assert MetadataOf(group) == [last.metadata];
    } else {
      ReducedMetadata(shorter);
      var raws := MetadataOf(shorter);
      MergedChunksAppend(raws, [last.metadata]);
      assert [MergedChunks(raws)] + [last.metadata] == [MergedChunks(raws), last.metadata];
    }
  }

  // ----- what the deduplicated payload keeps for the write -----

  lemma SameUniqueKeys<K, V, W, I>(u: Upsert<K, V, I>, w: Upsert<K, W, I>, items: seq<I>)
    requires forall i :: 0 <= i < |items| ==> u.key(items[i]) == w.key(items[i])
    ensures Keys(u, items) == Keys(w, items)
    ensures UniqueKeys(u, items) ==> UniqueKeys(w, items)
  {
    forall k | k in Keys(u, items) ensures k in Keys(w, items) {
      var i :| 0 <= i < |items| && u.key(items[i]) == k;
      assert w.key(items[i]) == k;
    }
    forall k | k in Keys(w, items) ensures k in Keys(u, items) {
      var i :| 0 <= i < |items| && w.key(items[i]) == k;
      assert u.key(items[i]) == k;
    }
  }

  lemma PreparedKeys(raw: Plan, p: Plan)
    requires Prepared(raw, p)
    ensures Deduplicated(p)
    ensures Ids(p.entities) == Ids(raw.entities)
    ensures Keys(MentionUpsert(), p.mentions) == Keys(MentionUpsert(), raw.mentions)
    ensures Keys(RelationUpsert(), p.relations) == Keys(RelationUpsert(), raw.relations)
  {
    GroupingsSettle();
    RanksDecideKeys();
    DedupedKeys(EntityGrouping(), EntityRank, raw.entities, p.entities);
    DedupedKeys(MentionGrouping(), MentionRank, raw.mentions, p.mentions);
    DedupedKeys(RelationGrouping(), RelationRank, raw.relations, p.relations);
    SameUniqueKeys(EntityGrouping(), EntityUpsert(), p.entities);
    SameUniqueKeys(EntityGrouping(), EntityUpsert(), raw.entities);
    SameUniqueKeys(MentionGrouping(), MentionUpsert(), p.mentions);
    SameUniqueKeys(MentionGrouping(), MentionUpsert(), raw.mentions);
    SameUniqueKeys(RelationGrouping(), RelationUpsert(), p.relations);
    SameUniqueKeys(RelationGrouping(), RelationUpsert(), raw.relations);
  }

  lemma PreparedClosed(raw: Plan, p: Plan)
    requires Prepared(raw, p) && Closed(raw.entities, raw.mentions)
    ensures Closed(p.entities, p.mentions)
  {
    PreparedKeys(raw, p);
    forall m | m in p.mentions ensures m.ent in Ids(p.entities) {
      KeysMember(MentionUpsert(), p.mentions, m);
      var i :| 0 <= i < |raw.mentions| && MentionUpsert().key(raw.mentions[i]) == MentionEdge(m);
      assert raw.mentions[i] in raw.mentions;
    }
  }

  // ----- the other fields of a group -----

  /** The first value of the group that is not empty, if there is one. */
  ghost predicate FirstNonEmpty(values: seq<string>, v: string) {
    if v == "" then forall i :: 0 <= i < |values| ==> values[i] == ""
    else exists i :: 0 <= i < |values| && values[i] == v && forall j :: 0 <= j < i ==> values[j] == ""
  }

  ghost predicate FirstPresent<T>(values: seq<Option<T>>, v: Option<T>) {
    if v.None? then forall i :: 0 <= i < |values| ==> values[i].None?
    else exists i :: 0 <= i < |values| && values[i] == v && forall j :: 0 <= j < i ==> values[j].None?
  }

  function Names(group: seq<EntityItem>): (r: seq<string>)
    ensures |r| == |group| && forall i :: 0 <= i < |group| ==> r[i] == group[i].name
  {
    seq(|group|, i requires 0 <= i < |group| => group[i].name)
  }

  function Kinds(group: seq<EntityItem>): (r: seq<string>)
    ensures |r| == |group| && forall i :: 0 <= i < |group| ==> r[i] == group[i].kind
  {
    seq(|group|, i requires 0 <= i < |group| => group[i].kind)
  }

  function Embeddings(group: seq<EntityItem>): (r: seq<Option<Vector>>)
    ensures |r| == |group| && forall i :: 0 <= i < |group| ==> r[i] == group[i].embedding
  {
    seq(|group|, i requires 0 <= i < |group| => group[i].embedding)
  }

  lemma FirstNonEmptyPush(values: seq<string>, v: string, next: string)
    requires FirstNonEmpty(values, v)
    ensures FirstNonEmpty(values + [next], if v == "" then next else v)
  {
    var all := values + [next];
    if v != "" {
      var i :| 0 <= i < |values| && values[i] == v && forall j :: 0 <= j < i ==> values[j] == "";
      assert all[i] == v && forall j :: 0 <= j < i ==> all[j] == "";
    } else if next != "" {
      assert all[|values|] == next && forall j :: 0 <= j < |values| ==> all[j] == "";
    }
  }

  lemma FirstPresentPush<T>(values: seq<Option<T>>, v: Option<T>, next: Option<T>)
    requires FirstPresent(values, v)
    ensures FirstPresent(values + [next], if v.None? then next else v)
  {
    var all := values + [next];
    if v.Some? {
      var i :| 0 <= i < |values| && values[i] == v && forall j :: 0 <= j < i ==> values[j].None?;
      assert all[i] == v && forall j :: 0 <= j < i ==> all[j].None?;
    } else if next.Some? {
      assert all[|values|] == next && forall j :: 0 <= j < |values| ==> all[j].None?;
    }
  }

  ghost predicate FirstOfGroup(group: seq<EntityItem>, e: EntityItem) {
    FirstNonEmpty(Names(group), e.name) && FirstNonEmpty(Kinds(group), e.kind) && FirstPresent(Embeddings(group), e.embedding)
  }

  lemma {:induction false} ReducedFirst(group: seq<EntityItem>)
    requires group != []
    ensures FirstOfGroup(group, Reduce(EntityGrouping(), group).value)
  {
    var shorter, last := group[..|group| - 1], group[|group| - 1];
    ReducePush(EntityGrouping(), group);
    if shorter == [] {
      FirstOfOne(last);
      assert group == [last];
    } else {
      ReducedFirst(shorter);
      FirstOfGroupPush(shorter, Reduce(EntityGrouping(), shorter).value, last);
      assert group == shorter + [last];
    }
  }

  lemma ReducePush<K, V>(u: Upsert<K, V, V>, group: seq<V>)
    requires group != []
    ensures Reduce(u, group) == Some(u.merge(Reduce(u, group[..|group| - 1]), group[|group| - 1]))
    ensures group[..|group| - 1] == [] ==> Reduce(u, group[..|group| - 1]).None?
  {
  }

  lemma FirstOfOne(e: EntityItem)
    ensures FirstOfGroup([e], CombineEntities(None, e))
  {
    assert Names([e])[0] == e.name && Kinds([e])[0] == e.kind && Embeddings([e])[0] == e.embedding;
  }

  lemma FirstOfGroupPush(group: seq<EntityItem>, c: EntityItem, last: EntityItem)
    requires FirstOfGroup(group, c)
    ensures FirstOfGroup(group + [last], CombineEntities(Some(c), last))
  {
    FirstNonEmptyPush(Names(group), c.name, last.name);
    FirstNonEmptyPush(Kinds(group), c.kind, last.kind);
    FirstPresentPush(Embeddings(group), c.embedding, last.embedding);
    assert Names(group + [last]) == Names(group) + [last.name] && Kinds(group + [last]) == Kinds(group) + [last.kind];
    assert Embeddings(group + [last]) == Embeddings(group) + [last.embedding];
  }

  /** A merged entity has the first name, the first kind and the first embedding its chunks give. */
  lemma EntityFirsts(entities: seq<EntityItem>, out: seq<EntityItem>, e: EntityItem)
    requires IsDeduplicated(EntityGrouping(), EntityRank, entities, out) && e in out
    ensures FirstOfGroup(GroupOf(EntityGrouping(), entities, e.id), e)
  {
    GroupedReduces(EntityGrouping(), entities, e.id);
    ReducedFirst(GroupOf(EntityGrouping(), entities, e.id));
  }

  /** Averaging a weight at a time: the last counts one half, the one before a quarter, and so on. */
  function Averaged(weights: seq<real>): real
    requires weights != []
  {
    if |weights| == 1 then weights[0] else (Averaged(weights[..|weights| - 1]) + weights[|weights| - 1]) / 2.0
  }

  function Weights(group: seq<RelationItem>): (r: seq<real>)
    ensures |r| == |group| && forall i :: 0 <= i < |group| ==> r[i] == group[i].weight
  {
    seq(|group|, i requires 0 <= i < |group| => group[i].weight)
  }

  lemma {:induction false} ReducedAverage(group: seq<RelationItem>)
    requires group != []
    ensures Reduce(RelationGrouping(), group).value.weight == Averaged(Weights(group))
  {
    var shorter := group[..|group| - 1];
    if shorter == [] {
      assert Reduce(RelationGrouping(), shorter) == None;
    } else {
      ReducedAverage(shorter);
      assert Weights(group)[..|shorter|] == Weights(shorter);
    }
  }

  /** A merged relation has exactly the running average of its group. */
  lemma RelationAverage(relations: seq<RelationItem>, out: seq<RelationItem>, r: RelationItem)
    requires IsDeduplicated(RelationGrouping(), RelationRank, relations, out) && r in out
    ensures var group := GroupOf(RelationGrouping(), relations, KeyOf(r));
            group != [] && r.weight == Averaged(Weights(group))
  {
    GroupedReduces(RelationGrouping(), relations, KeyOf(r));
    ReducedAverage(GroupOf(RelationGrouping(), relations, KeyOf(r)));
  }

  /** The file lists of a group, those that are missing left out. */
  function FileLists(group: seq<RelationItem>): seq<seq<string>> {
    if group == [] then [] else
      var head, last := FileLists(group[..|group| - 1]), group[|group| - 1];
      if last.files.Some? then head + [last.files.value] else head
  }

  lemma {:induction false} ReducedFileOrder(group: seq<RelationItem>)
    requires group != []
    ensures Reduce(RelationGrouping(), group).value.files
         == var lists := FileLists(group); if lists == [] then None else Some(AppendNew(lists[0], Concat(lists[1..])))
  {
    var shorter, last := group[..|group| - 1], group[|group| - 1];
    if shorter == [] {
      assert Reduce(RelationGrouping(), shorter) == None;
    } else {
      ReducedFileOrder(shorter);
      var lists := FileLists(shorter);
      if last.files.Some? && lists != [] {
        AppendNewAppend(lists[0], Concat(lists[1..]), last.files.value);
        var more := lists[1..] + [last.files.value];
        assert more[..|more| - 1] == lists[1..] && FileLists(group)[1..] == more;
      }
    }
  }

  /** Its files: those of the first list of its group, then the others in the order they are first seen. */
  lemma RelationFileOrder(relations: seq<RelationItem>, out: seq<RelationItem>, r: RelationItem)
    requires IsDeduplicated(RelationGrouping(), RelationRank, relations, out) && r in out
    ensures var lists := FileLists(GroupOf(RelationGrouping(), relations, KeyOf(r)));
            if lists == [] then r.files.None? else r.files.Some? && FirstSeenAfter(r.files.value, lists[0], Concat(lists[1..]))
  {
    GroupedReduces(RelationGrouping(), relations, KeyOf(r));
    var group := GroupOf(RelationGrouping(), relations, KeyOf(r));
    ReducedFileOrder(group);
    if FileLists(group) != [] {
      AppendNewOrder(FileLists(group)[0], Concat(FileLists(group)[1..]));
    }
  }

  // ----- the order of the lists -----

  /** Python's order on strings: at the first place where they differ, or the shorter first. */
  ghost predicate Precedes(a: string, b: string) {
    exists n :: 0 <= n <= |a| && n < |b| && a[..n] == b[..n] && (n == |a| || a[n] < b[n])
  }

  lemma {:induction false} LessPrecedes(a: string, b: string)
    requires StringLess(a, b)
    ensures Precedes(a, b)
  {
    if a == [] || a[0] < b[0] {
      assert a[..0] == b[..0];
    } else {
      LessPrecedes(a[1..], b[1..]);
      var n :| 0 <= n <= |a[1..]| && n < |b[1..]| && a[1..][..n] == b[1..][..n] && (n == |a[1..]| || a[1..][n] < b[1..][n]);
      assert a[..n + 1] == [a[0]] + a[1..][..n] && b[..n + 1] == [b[0]] + b[1..][..n];
    }
  }

  ghost predicate MentionPrecedes(a: MentionItem, b: MentionItem) {
    Precedes(a.doc, b.doc) || (a.doc == b.doc && Precedes(a.ent, b.ent))
  }

  ghost predicate RelationPrecedes(a: RelationItem, b: RelationItem) {
    || Precedes(a.source, b.source)
    || (a.source == b.source && (Precedes(a.target, b.target) || (a.target == b.target && Precedes(a.kind, b.kind))))
  }

  /** Entities come by id, mentions by document and entity, relations by source, target and type. */
  lemma SortedByIdentity(raw: Plan, p: Plan, i: nat, j: nat)
    requires Prepared(raw, p) && i < j
    ensures j < |p.entities| ==> Precedes(p.entities[i].id, p.entities[j].id)
    ensures j < |p.mentions| ==> MentionPrecedes(p.mentions[i], p.mentions[j])
    ensures j < |p.relations| ==> RelationPrecedes(p.relations[i], p.relations[j])
  {
    if j < |p.entities| {
      TupleFirst(EntityRank(p.entities[i]), EntityRank(p.entities[j]));
    }
    if j < |p.mentions| {
      MentionOrder(p.mentions[i], p.mentions[j]);
    }
    if j < |p.relations| {
      RelationOrder(p.relations[i], p.relations[j]);
    }
  }

  lemma MentionOrder(a: MentionItem, b: MentionItem)
    requires TupleLess(MentionRank(a), MentionRank(b))
    ensures MentionPrecedes(a, b)
  {
    var x, y := MentionRank(a), MentionRank(b);
    TupleFirst(x, y);
    var n :| 0 <= n < |x| && x[..n] == y[..n] && Precedes(x[n], y[n]);
    if n > 0 {
      assert x[..n][0] == y[..n][0];
    }
  }

  lemma RelationOrder(a: RelationItem, b: RelationItem)
    requires TupleLess(RelationRank(a), RelationRank(b))
    ensures RelationPrecedes(a, b)
  {
    var x, y := RelationRank(a), RelationRank(b);
    TupleFirst(x, y);
    var n :| 0 <= n < |x| && x[..n] == y[..n] && Precedes(x[n], y[n]);
    if n > 0 {
      assert x[..n][0] == y[..n][0];
      assert n > 1 ==> x[..n][1] == y[..n][1];
    }
  }

  /** The first component that differs decides. */
  lemma {:induction false} TupleFirst(a: seq<string>, b: seq<string>)
    requires TupleLess(a, b) && |a| == |b|
    ensures exists n :: 0 <= n < |a| && a[..n] == b[..n] && Precedes(a[n], b[n])
  {
    if StringLess(a[0], b[0]) {
      LessPrecedes(a[0], b[0]);
      assert a[..0] == b[..0];
    } else {
      TupleFirst(a[1..], b[1..]);
      var n :| 0 <= n < |a[1..]| && a[1..][..n] == b[1..][..n] && Precedes(a[1..][n], b[1..][n]);
      assert a[..n + 1] == [a[0]] + a[1..][..n] && b[..n + 1] == [b[0]] + b[1..][..n];
    }
  }
}
