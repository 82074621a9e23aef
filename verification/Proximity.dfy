/** Entity deduplication and the proximity phase of `_extract_relations`: the loop that stops at the
    first far entity emits what the full double loop emits. */
module Proximity {
  import opened Prelude
  import opened StableSort

  const WINDOW := 100

  datatype Entity = Entity(name: string, start: nat, end: nat, confidence: real)

  datatype Relation = Relation(source: string, target: string, kind: string)

  datatype Pair = Pair(first: nat, second: nat)

  // ----- the reference: every pair, filtered -----

  /** All pairs `i < j` of `n` positions, in the order of the double loop, from row `i`, column `j` on. */
  function RowPairs(i: nat, j: nat, n: nat): seq<Pair>
    decreases n - j
  {
    if j >= n then [] else [Pair(i, j)] + RowPairs(i, j + 1, n)
  }

  function PairsFrom(i: nat, n: nat): seq<Pair>
    decreases n - i
  {
    if i >= n then [] else RowPairs(i, i + 1, n) + PairsFrom(i + 1, n)
  }

  /** Nothing but the pairs `i < j`, and all of them. */
  lemma {:induction false} RowPairsMember(i: nat, j: nat, n: nat, p: Pair)
    ensures p in RowPairs(i, j, n) <==> p.first == i && j <= p.second < n
    decreases n - j
  {
    if j < n {
      RowPairsMember(i, j + 1, n, p);
    }
  }

  lemma {:induction false} PairsMember(i: nat, n: nat, p: Pair)
    ensures p in PairsFrom(i, n) <==> i <= p.first < p.second < n
    decreases n - i
  {
    if i < n {
      PairsMember(i + 1, n, p);
      RowPairsMember(i, i + 1, n, p);
    }
  }

  predicate Near(a: Entity, b: Entity) {
    b.start - a.end < WINDOW
  }

  predicate Inside(pairs: seq<Pair>, n: nat) {
    forall k :: 0 <= k < |pairs| ==> pairs[k].first < n && pairs[k].second < n
  }

  /** The pair is close enough and not already related by the dependency phase. */
  predicate Emitted(s: seq<Entity>, found: set<(string, string)>, p: Pair) {
    && p.first < |s| && p.second < |s|
    && Near(s[p.first], s[p.second])
    && (s[p.first].name, s[p.second].name) !in found
  }

  function EmittedPairs(s: seq<Entity>, found: set<(string, string)>): (r: seq<Pair>)
    ensures Inside(r, |s|)
  {
    var r := Filter(PairsFrom(0, |s|), p => Emitted(s, found, p));
    assert forall k :: 0 <= k < |r| ==> r[k] in r;
    r
  }

  // ----- the text between two entities -----

  /** `text[from:to]`: bounds beyond the text are cut, an inverted slice is empty. */
  function Slice(text: string, from: nat, to: nat): string {
    var hi := if to < |text| then to else |text|;
    if from < hi then text[from..hi] else []
  }

  function Lower(s: string): string {
    seq(|s|, i requires 0 <= i < |s| => if 'A' <= s[i] <= 'Z' then s[i] - 'A' + 'a' else s[i])
  }

  predicate Contains(s: string, word: string) {
    exists i :: 0 <= i <= |s| - |word| && OccursAt(s, word, i)
  }

  predicate OccursAt(s: string, word: string, i: nat)
    requires i <= |s| - |word|
  {
    s[i..i + |word|] == word
  }

  function Kind(text: string, a: Entity, b: Entity): string {
    var between := Lower(Slice(text, a.end, b.start));
    if Contains(between, "is a") || Contains(between, "are a") then "IS_A"
    else if Contains(between, "based on") then "BASED_ON"
    else "RELATED_TO"
  }

  function Relate(s: seq<Entity>, text: string, p: Pair): Relation
    requires p.first < |s| && p.second < |s|
  {
    Relation(s[p.first].name, s[p.second].name, Kind(text, s[p.first], s[p.second]))
  }

  function RelateAll(s: seq<Entity>, text: string, pairs: seq<Pair>): (r: seq<Relation>)
    requires Inside(pairs, |s|)
  {
    seq(|pairs|, k requires 0 <= k < |pairs| => Relate(s, text, pairs[k]))
  }

  // ----- the loop with its break -----

  function Start(e: Entity): real {
    e.start as real
  }

  /** In entities sorted by start, an entity out of reach puts all later ones out of reach. */
  lemma FarStaysFar(s: seq<Entity>, i: nat, j: nat, k: nat)
    requires Ascending(s, Start) && i < |s| && j <= k < |s| && !Near(s[i], s[j])
    ensures !Near(s[i], s[k])
  {
    assert Start(s[j]) <= Start(s[k]);
  }

  /** The emitted pairs of row `i` from column `j` on, and of the rows from `i` on. */
  ghost function RowRest(s: seq<Entity>, found: set<(string, string)>, i: nat, j: nat): seq<Pair>
    decreases |s| - j
  {
    if j >= |s| then []
    else (if Emitted(s, found, Pair(i, j)) then [Pair(i, j)] else []) + RowRest(s, found, i, j + 1)
  }

  ghost function Rest(s: seq<Entity>, found: set<(string, string)>, i: nat): seq<Pair>
    decreases |s| - i
  {
    if i >= |s| then [] else RowRest(s, found, i, i + 1) + Rest(s, found, i + 1)
  }

  lemma {:induction false} RestOfRowIsFar(s: seq<Entity>, found: set<(string, string)>, i: nat, far: nat, j: nat)
    requires Ascending(s, Start) && i < far <= j && far < |s| && !Near(s[i], s[far])
    ensures RowRest(s, found, i, j) == []
    decreases |s| - j
  {
    if j < |s| {
      FarStaysFar(s, i, far, j);
      RestOfRowIsFar(s, found, i, far, j + 1);
    }
  }

  lemma {:induction false} RowRestFilters(s: seq<Entity>, found: set<(string, string)>, i: nat, j: nat)
    ensures RowRest(s, found, i, j) == Filter(RowPairs(i, j, |s|), p => Emitted(s, found, p))
    decreases |s| - j
  {
    if j < |s| {
      RowRestFilters(s, found, i, j + 1);
      FilterAppend([Pair(i, j)], RowPairs(i, j + 1, |s|), p => Emitted(s, found, p));
      FilterOne(Pair(i, j), p => Emitted(s, found, p));
    }
  }

  lemma {:induction false} RestFilters(s: seq<Entity>, found: set<(string, string)>, i: nat)
    ensures Rest(s, found, i) == Filter(PairsFrom(i, |s|), p => Emitted(s, found, p))
    decreases |s| - i
  {
    if i < |s| {
      RestFilters(s, found, i + 1);
      RowRestFilters(s, found, i, i + 1);
      FilterAppend(RowPairs(i, i + 1, |s|), PairsFrom(i + 1, |s|), p => Emitted(s, found, p));
    }
  }

  /** The inner loop: the partners of entity `i`, up to the first one out of reach. */
  method RelatePartners(s: seq<Entity>, i: nat, text: string, related: set<(string, string)>) returns (relations: seq<Relation>)
    requires Ascending(s, Start) && i < |s|
    ensures Inside(RowRest(s, related, i, i + 1), |s|)
    ensures relations == RelateAll(s, text, RowRest(s, related, i, i + 1))
  {
    relations := [];
    ghost var pairs: seq<Pair> := [];
    var j := i + 1;
    while j < |s|
      invariant i < j <= |s| && Inside(pairs, |s|)
      invariant pairs + RowRest(s, related, i, j) == RowRest(s, related, i, i + 1)
      invariant relations == RelateAll(s, text, pairs)
    {
      if s[j].start - s[i].end >= WINDOW {
        RestOfRowIsFar(s, related, i, j, j);
        break;
      }
      RowStep(s, text, related, i, j, pairs);
      if (s[i].name, s[j].name) !in related {
        relations := relations + [Relation(s[i].name, s[j].name, Kind(text, s[i], s[j]))];
        pairs := pairs + [Pair(i, j)];
      }
      j := j + 1;
    }
    assert pairs + [] == pairs;
  }

  lemma RowStep(s: seq<Entity>, text: string, found: set<(string, string)>, i: nat, j: nat, pairs: seq<Pair>)
    requires i < j < |s| && Near(s[i], s[j]) && Inside(pairs, |s|)
    ensures if (s[i].name, s[j].name) !in found
            then pairs + RowRest(s, found, i, j) == pairs + [Pair(i, j)] + RowRest(s, found, i, j + 1)
            else RowRest(s, found, i, j) == RowRest(s, found, i, j + 1)
    ensures Inside(pairs + [Pair(i, j)], |s|)
    ensures RelateAll(s, text, pairs + [Pair(i, j)]) == RelateAll(s, text, pairs) + [Relate(s, text, Pair(i, j))]
  {
    assert pairs + ([Pair(i, j)] + RowRest(s, found, i, j + 1)) == pairs + [Pair(i, j)] + RowRest(s, found, i, j + 1);
  }

  lemma Regroup<T>(a: seq<T>, b: seq<T>, c: seq<T>)
    ensures a + (b + c) == a + b + c
  {
  }

  lemma RelateAppend(s: seq<Entity>, text: string, a: seq<Pair>, b: seq<Pair>)
    requires Inside(a, |s|) && Inside(b, |s|)
    ensures Inside(a + b, |s|) && RelateAll(s, text, a + b) == RelateAll(s, text, a) + RelateAll(s, text, b)
  {
  }

  /** Phase 2: `related` are the pairs of names the dependency phase has found. */
  method ProximityRelations(entities: seq<Entity>, text: string, related: set<(string, string)>) returns (relations: seq<Relation>)
    ensures var sorted := Sorted(entities, Start);
            relations == RelateAll(sorted, text, EmittedPairs(sorted, related))
  {
    var s := Sorted(entities, Start);
    SortedSorts(entities, Start);
    relations := [];
    ghost var pairs: seq<Pair> := [];
    for i := 0 to |s|
      invariant pairs + Rest(s, related, i) == Rest(s, related, 0)
      invariant Inside(pairs, |s|) && relations == RelateAll(s, text, pairs)
    {
      var row := RelatePartners(s, i, text, related);
      ghost var rowPairs := RowRest(s, related, i, i + 1);
      RelateAppend(s, text, pairs, rowPairs);
      Regroup(pairs, rowPairs, Rest(s, related, i + 1));
      relations := relations + row;
      pairs := pairs + rowPairs;
    }
    assert pairs + [] == pairs;
    EmittedAreRest(s, related);
  }

  lemma EmittedAreRest(s: seq<Entity>, found: set<(string, string)>)
    ensures EmittedPairs(s, found) == Rest(s, found, 0)
  {
    RestFilters(s, found, 0);
  }

  // ----- deduplicate_entities -----

  /** The most confident entity of each name, the first one on a tie, in the order the names were first seen. */
  function Deduplicated(entities: seq<Entity>, normal: string -> string): (r: seq<Entity>) {
    if entities == [] then [] else Add(Deduplicated(entities[..|entities| - 1], normal), entities[|entities| - 1], normal)
  }

  function Add(kept: seq<Entity>, e: Entity, normal: string -> string): seq<Entity> {
    if exists i :: 0 <= i < |kept| && normal(kept[i].name) == normal(e.name) then
      seq(|kept|, i requires 0 <= i < |kept| =>
        if normal(kept[i].name) == normal(e.name) && e.confidence > kept[i].confidence then e else kept[i])
    else kept + [e]
  }

  /** The dictionary filled in the loop, as its keys in insertion order and its values. */
  ghost predicate Holding(order: seq<string>, normalized: map<string, Entity>, kept: seq<Entity>, normal: string -> string) {
    && |order| == |kept| && (forall x :: x in order <==> x in normalized)
    && (forall i :: 0 <= i < |kept| ==> order[i] in normalized && normalized[order[i]] == kept[i] && normal(kept[i].name) == order[i])
  }

  method DeduplicateEntities(entities: seq<Entity>, normal: string -> string) returns (out: seq<Entity>)
    ensures out == Deduplicated(entities, normal)
    ensures KeepsBest(entities, out, normal)
  {
    var order: seq<string> := [];
    var normalized: map<string, Entity> := map[];
    for n := 0 to |entities|
      invariant Holding(order, normalized, Deduplicated(entities[..n], normal), normal)
    {
      var e := entities[n];
      var name := normal(e.name);
      assert entities[..n + 1][..n] == entities[..n];
      if name in normalized {
        if e.confidence > normalized[name].confidence {
          normalized := normalized[name := e];
        }
      } else {
        normalized := normalized[name := e];
        order := order + [name];
      }
    }
    assert entities[..|entities|] == entities;
    out := seq(|order|, i requires 0 <= i < |order| => normalized[order[i]]);
    DeduplicatedMeans(entities, normal);
  }

  ghost predicate OnePerName(kept: seq<Entity>, normal: string -> string) {
    forall i, j :: 0 <= i < j < |kept| ==> normal(kept[i].name) != normal(kept[j].name)
  }

  /** No entity of its name exceeds the one at `k`, and none before it equals it. */
  ghost predicate FirstBest(entities: seq<Entity>, k: nat, normal: string -> string)
    requires k < |entities|
  {
    forall m :: 0 <= m < |entities| && normal(entities[m].name) == normal(entities[k].name) ==>
      entities[m].confidence < entities[k].confidence || (entities[m].confidence == entities[k].confidence && k <= m)
  }

  ghost predicate IsFirstBest(entities: seq<Entity>, e: Entity, normal: string -> string) {
    exists k :: 0 <= k < |entities| && entities[k] == e && FirstBest(entities, k, normal)
  }

  /** The first name occurs before the second does. */
  ghost predicate SeenBefore(entities: seq<Entity>, a: string, b: string, normal: string -> string) {
    exists m :: 0 <= m < |entities| && normal(entities[m].name) == a && NotAmong(entities[..m + 1], b, normal)
  }

  ghost predicate NotAmong(entities: seq<Entity>, name: string, normal: string -> string) {
    forall m :: 0 <= m < |entities| ==> normal(entities[m].name) != name
  }

  /** One entity for every name, in the order the names are first seen: the first of those with the
      greatest confidence. */
  ghost predicate KeepsBest(entities: seq<Entity>, kept: seq<Entity>, normal: string -> string) {
    && OnePerName(kept, normal)
    && (forall e :: e in entities ==> Best(kept, e, normal))
    && (forall i :: 0 <= i < |kept| ==> IsFirstBest(entities, kept[i], normal))
    && (forall i, j :: 0 <= i < j < |kept| ==> SeenBefore(entities, normal(kept[i].name), normal(kept[j].name), normal))
  }

  lemma {:induction false} DeduplicatedMeans(entities: seq<Entity>, normal: string -> string)
    ensures KeepsBest(entities, Deduplicated(entities, normal), normal)
  {
    if entities != [] {
      var head, e := entities[..|entities| - 1], entities[|entities| - 1];
      assert entities == head + [e];
      DeduplicatedMeans(head, normal);
      AddKeepsBest(head, Deduplicated(head, normal), e, normal);
    }
  }

  lemma AddKeepsBest(head: seq<Entity>, kept: seq<Entity>, e: Entity, normal: string -> string)
    requires KeepsBest(head, kept, normal)
    ensures KeepsBest(head + [e], Add(kept, e, normal), normal)
  {
    var r := Add(kept, e, normal);
    AddKeepsNames(kept, e, normal);
    forall i | 0 <= i < |r| ensures IsFirstBest(head + [e], r[i], normal) {
      AddFirstBest(head, kept, e, normal, i);
    }
    forall i, j | 0 <= i < j < |r| ensures SeenBefore(head + [e], normal(r[i].name), normal(r[j].name), normal) {
      AddSeenBefore(head, kept, e, normal, i, j);
    }
  }

  lemma AddKeepsNames(kept: seq<Entity>, e: Entity, normal: string -> string)
    requires OnePerName(kept, normal)
    ensures var r := Add(kept, e, normal);
            && OnePerName(r, normal) && Best(r, e, normal)
            && (forall x :: Best(kept, x, normal) ==> Best(r, x, normal))
  {
    var r := Add(kept, e, normal);
    assert forall i :: 0 <= i < |kept| ==> normal(r[i].name) == normal(kept[i].name) && r[i].confidence >= kept[i].confidence;
    if |r| == |kept| + 1 {
      assert r[|kept|] == e;
    }
    forall x | Best(kept, x, normal) ensures Best(r, x, normal) {
      var i :| 0 <= i < |kept| && normal(kept[i].name) == normal(x.name) && kept[i].confidence >= x.confidence;
      assert normal(r[i].name) == normal(x.name);
    }
  }

  lemma AddFirstBest(head: seq<Entity>, kept: seq<Entity>, e: Entity, normal: string -> string, i: nat)
    requires KeepsBest(head, kept, normal) && i < |Add(kept, e, normal)|
    ensures IsFirstBest(head + [e], Add(kept, e, normal)[i], normal)
  {
    var all, n, r := head + [e], |head|, Add(kept, e, normal);
    assert all[n] == e;
    if i == |kept| || r[i] != kept[i] {
      forall m | 0 <= m < n && normal(head[m].name) == normal(e.name) ensures head[m].confidence < e.confidence {
        assert head[m] in head && Best(kept, head[m], normal);
      }
      assert FirstBest(all, n, normal);
    } else {
      var k :| 0 <= k < n && head[k] == kept[i] && FirstBest(head, k, normal);
      assert all[k] == r[i] && FirstBest(all, k, normal);
    }
  }

  lemma AddSeenBefore(head: seq<Entity>, kept: seq<Entity>, e: Entity, normal: string -> string, i: nat, j: nat)
    requires KeepsBest(head, kept, normal) && i < j < |Add(kept, e, normal)|
    ensures var r := Add(kept, e, normal); SeenBefore(head + [e], normal(r[i].name), normal(r[j].name), normal)
  {
    var all, r := head + [e], Add(kept, e, normal);
    var a, b := normal(r[i].name), normal(r[j].name);
    assert a == normal(kept[i].name);
    if j < |kept| {
      assert SeenBefore(head, a, b, normal);
      var m :| 0 <= m < |head| && normal(head[m].name) == a && NotAmong(head[..m + 1], b, normal);
      assert all[..m + 1] == head[..m + 1] && all[m] == head[m];
    } else {
      var k :| 0 <= k < |head| && head[k] == kept[i] && FirstBest(head, k, normal);
      assert all[k] == head[k];
      var front := all[..k + 1];
      forall m | 0 <= m < |front| ensures normal(front[m].name) != b {
        assert front[m] == head[m] && head[m] in head && Best(kept, head[m], normal);
      }
      assert NotAmong(all[..k + 1], b, normal);
    }
  }

  /** The kept entity of this name is at least as confident. */
  ghost predicate Best(kept: seq<Entity>, e: Entity, normal: string -> string) {
    exists i :: 0 <= i < |kept| && normal(kept[i].name) == normal(e.name) && kept[i].confidence >= e.confidence
  }

  /** Deduplicating twice changes nothing. */
  lemma {:induction false} DeduplicatedTwice(entities: seq<Entity>, normal: string -> string)
    requires OnePerName(entities, normal)
    ensures Deduplicated(entities, normal) == entities
  {
    if entities != [] {
      DeduplicatedTwice(entities[..|entities| - 1], normal);
    }
  }

  // ----- what is emitted -----

  /** A pair is emitted if and only if the second entity, in order of their starts, begins less than 100 characters
      after the first one ends, and the dependency phase has not related the two names. */
  lemma EmittedExactly(entities: seq<Entity>, related: set<(string, string)>, p: Pair)
    ensures var s := Sorted(entities, Start);
            p in EmittedPairs(s, related) <==>
              && p.first < p.second < |s| && s[p.second].start < s[p.first].end + 100
              && (s[p.first].name, s[p.second].name) !in related
  {
    PairsMember(0, |Sorted(entities, Start)|, p);
  }

  /** The pairs come row by row. */
  ghost predicate InRows(pairs: seq<Pair>) {
    forall i, j :: 0 <= i < j < |pairs| ==>
      pairs[i].first < pairs[j].first || (pairs[i].first == pairs[j].first && pairs[i].second < pairs[j].second)
  }

  lemma {:induction false} RowPairsInRows(i: nat, j: nat, n: nat)
    ensures InRows(RowPairs(i, j, n))
    decreases n - j
  {
    if j < n {
      RowPairsInRows(i, j + 1, n);
      var rest := RowPairs(i, j + 1, n);
      forall k | 0 <= k < |rest| ensures rest[k].first == i && rest[k].second > j {
        RowPairsMember(i, j + 1, n, rest[k]);
      }
    }
  }

  lemma {:induction false} PairsInRows(i: nat, n: nat)
    ensures InRows(PairsFrom(i, n))
    decreases n - i
  {
    if i < n {
      RowPairsInRows(i, i + 1, n);
      PairsInRows(i + 1, n);
      var row, rest := RowPairs(i, i + 1, n), PairsFrom(i + 1, n);
      forall k | 0 <= k < |row| ensures row[k].first == i {
        RowPairsMember(i, i + 1, n, row[k]);
      }
      forall k | 0 <= k < |rest| ensures rest[k].first > i {
        PairsMember(i + 1, n, rest[k]);
      }
    }
  }

  lemma {:induction false} FilterInRows(pairs: seq<Pair>, p: Pair -> bool)
    requires InRows(pairs)
    ensures InRows(Filter(pairs, p))
  {
    if pairs != [] {
      var head, last := pairs[..|pairs| - 1], pairs[|pairs| - 1];
      FilterInRows(head, p);
      forall k | 0 <= k < |Filter(head, p)|
        ensures Filter(head, p)[k].first < last.first || (Filter(head, p)[k].first == last.first && Filter(head, p)[k].second < last.second)
      {
        assert Filter(head, p)[k] in head;
        var i :| 0 <= i < |head| && head[i] == Filter(head, p)[k];
        assert pairs[i] == head[i];
      }
    }
  }

  lemma EmittedInRows(s: seq<Entity>, related: set<(string, string)>)
    ensures InRows(EmittedPairs(s, related))
  {
    PairsInRows(0, |s|);
    FilterInRows(PairsFrom(0, |s|), p => Emitted(s, related, p));
  }

  /** The phrase, in any case, between two places of the text. */
  ghost predicate Says(text: string, from: nat, to: nat, phrase: string) {
    exists i :: from <= i && i + |phrase| <= to && i + |phrase| <= |text| && SaysAt(text, i, phrase)
  }

  ghost predicate SaysAt(text: string, i: nat, phrase: string)
    requires i + |phrase| <= |text|
  {
    forall k :: 0 <= k < |phrase| ==> SameLetter(text[i + k], phrase[k])
  }

  /** A small letter, or any other character, of the phrase. */
  predicate SameLetter(c: char, small: char) {
    (c == small && !('A' <= c <= 'Z')) || ('A' <= c <= 'Z' && c as int + 32 == small as int)
  }

  lemma SliceAt(text: string, from: nat, to: nat, i: nat)
    requires i < |Slice(text, from, to)|
    ensures from + i < |text| && Slice(text, from, to)[i] == text[from + i]
  {
  }

  lemma OccursSays(text: string, from: nat, to: nat, phrase: string, i: nat)
    requires forall k :: 0 <= k < |phrase| ==> !('A' <= phrase[k] <= 'Z')
    requires phrase != "" && i + |phrase| <= |Slice(text, from, to)|
    ensures from + i + |phrase| <= |text|
    ensures OccursAt(Lower(Slice(text, from, to)), phrase, i) <==> SaysAt(text, from + i, phrase)
  {
    var s := Slice(text, from, to);
    SliceAt(text, from, to, i + |phrase| - 1);
    var piece := Lower(s)[i..i + |phrase|];
    forall k | 0 <= k < |phrase| ensures piece[k] == phrase[k] <==> SameLetter(text[from + i + k], phrase[k]) {
      SliceAt(text, from, to, i + k);
      assert piece[k] == Lower(s)[i + k];
    }
  }

  lemma ContainsSays(text: string, from: nat, to: nat, phrase: string)
    requires phrase != "" && forall k :: 0 <= k < |phrase| ==> !('A' <= phrase[k] <= 'Z')
    ensures Contains(Lower(Slice(text, from, to)), phrase) <==> Says(text, from, to, phrase)
  {
    var s := Slice(text, from, to);
    if Contains(Lower(s), phrase) {
      var i :| 0 <= i <= |Lower(s)| - |phrase| && OccursAt(Lower(s), phrase, i);
      OccursSays(text, from, to, phrase, i);
    }
    if Says(text, from, to, phrase) {
      var i :| from <= i && i + |phrase| <= to && i + |phrase| <= |text| && SaysAt(text, i, phrase);
      OccursSays(text, from, to, phrase, i - from);
    }
  }

  /** Each relation joins the two names of its pair, and what stands between them decides its kind. */
  lemma RelatedMeans(s: seq<Entity>, text: string, pairs: seq<Pair>, k: nat)
    requires Inside(pairs, |s|) && k < |pairs|
    ensures var r, a, b := RelateAll(s, text, pairs)[k], s[pairs[k].first], s[pairs[k].second];
            var isA := Says(text, a.end, b.start, "is a") || Says(text, a.end, b.start, "are a");
            && |RelateAll(s, text, pairs)| == |pairs| && r.source == a.name && r.target == b.name
            && (isA ==> r.kind == "IS_A")
            && (!isA && Says(text, a.end, b.start, "based on") ==> r.kind == "BASED_ON")
            && (!isA && !Says(text, a.end, b.start, "based on") ==> r.kind == "RELATED_TO")
  {
    var a, b := s[pairs[k].first], s[pairs[k].second];
    ContainsSays(text, a.end, b.start, "is a");
    ContainsSays(text, a.end, b.start, "are a");
    ContainsSays(text, a.end, b.start, "based on");
  }
}
