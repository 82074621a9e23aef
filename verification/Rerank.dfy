/** The hybrid merge of the recall paths: one registry of documents in first-seen order, one score per
    document, the k best returned. */
module Rerank {
  import opened Prelude
  import opened Metadata
  import opened StableSort

  /** A row of a recall query; `data` stands for content, metadata and embedding. */
  datatype Row = Row(id: Id, score: real, data: string)

  datatype Info = Info(data: Row, entityScore: real, vectorScore: real, isDirect: bool)

  datatype Recall = Recall(id: Id, score: real, data: string)

  function IdsOf(rows: seq<Row>): (r: seq<Id>)
    ensures |r| == |rows| && forall i :: 0 <= i < |rows| ==> r[i] == rows[i].id
  {
    seq(|rows|, i requires 0 <= i < |rows| => rows[i].id)
  }

  function FirstSeen(ids: seq<Id>): seq<Id> {
    AppendNew([], ids)
  }

  function Push(ids: seq<Id>, id: Id): seq<Id> {
    if id in ids then ids else ids + [id]
  }

  lemma FirstSeenMeans(ids: seq<Id>)
    ensures Distinct(FirstSeen(ids)) && forall x :: x in FirstSeen(ids) <==> x in ids
    ensures FirstSeenAfter(FirstSeen(ids), [], ids)
  {
    AppendNewUnique([], ids);
    AppendNewOrder([], ids);
    forall x ensures x in FirstSeen(ids) <==> x in ids {
      AppendNewMembers([], ids, x);
    }
  }

  function LastRow(rows: seq<Row>, id: Id): (r: Option<Row>)
    ensures r.Some? ==> r.value.id == id
  {
    if rows == [] then None
    else if rows[|rows| - 1].id == id then Some(rows[|rows| - 1])
    else LastRow(rows[..|rows| - 1], id)
  }

  function FirstRow(rows: seq<Row>, id: Id): (r: Option<Row>)
    ensures r.Some? == LastRow(rows, id).Some?
  {
    if rows == [] then None
    else
      var r := FirstRow(rows[..|rows| - 1], id);
      if r.Some? then r else if rows[|rows| - 1].id == id then Some(rows[|rows| - 1]) else None
  }

  lemma {:induction false} RowFound(rows: seq<Row>, id: Id)
    ensures LastRow(rows, id).Some? <==> exists i :: 0 <= i < |rows| && rows[i].id == id
    ensures LastRow(rows, id).Some? ==> LastRow(rows, id).value in rows
  {
    if rows != [] && rows[|rows| - 1].id != id {
      var head := rows[..|rows| - 1];
      RowFound(head, id);
      assert forall i :: 0 <= i < |head| ==> head[i] == rows[i];
      if i :| 0 <= i < |rows| && rows[i].id == id {
        assert head[i].id == id;
      }
    }
  }

  // ----- the registry, document by document -----

  /** What the three result lists say about a document. */
  function InfoFor(direct: seq<Row>, indirect: seq<Row>, vector: seq<Row>, id: Id): Option<Info> {
    var d, e, v := LastRow(direct, id), LastRow(indirect, id), LastRow(vector, id);
    var vs := if v.Some? then v.value.score else 0.0;
    if d.Some? then Some(Info(d.value, d.value.score, vs, true))
    else if e.Some? then Some(Info(e.value, e.value.score, vs, false))
    else if v.Some? then Some(Info(FirstRow(vector, id).value, 0.0, vs, false))
    else None
  }

  /** The i-th row is the last, or the first, the list has for the document. */
  ghost predicate LastAt(rows: seq<Row>, id: Id, i: nat) {
    i < |rows| && rows[i].id == id && forall j :: i < j < |rows| ==> rows[j].id != id
  }

  ghost predicate FirstAt(rows: seq<Row>, id: Id, i: nat) {
    i < |rows| && rows[i].id == id && forall j :: 0 <= j < i ==> rows[j].id != id
  }

  lemma {:induction false} LastRowAt(rows: seq<Row>, id: Id, i: nat)
    requires LastAt(rows, id, i)
    ensures LastRow(rows, id) == Some(rows[i])
  {
    if i < |rows| - 1 {
      LastRowAt(rows[..|rows| - 1], id, i);
    }
  }

  lemma {:induction false} FirstRowAt(rows: seq<Row>, id: Id, i: nat)
    requires FirstAt(rows, id, i)
    ensures FirstRow(rows, id) == Some(rows[i])
  {
    var head := rows[..|rows| - 1];
    if i < |head| {
      FirstRowAt(head, id, i);
    } else {
      RowFound(head, id);
      assert FirstRow(head, id).None?;
    }
  }

  lemma NoRow(rows: seq<Row>, id: Id)
    requires forall i :: 0 <= i < |rows| ==> rows[i].id != id
    ensures LastRow(rows, id).None?
  {
    RowFound(rows, id);
  }

  ghost predicate Absent(rows: seq<Row>, id: Id) {
    forall i :: 0 <= i < |rows| ==> rows[i].id != id
  }

  /** What the registry holds: the content and the entity score of the document's last direct row; failing
      that, of its last indirect row; failing that, the content of its first vector row. The vector score is
      that of its last vector row, or zero. */
  lemma RegistryMeans(direct: seq<Row>, indirect: seq<Row>, vector: seq<Row>, id: Id, i: nat, v: nat, first: nat)
    requires Absent(vector, id) || (LastAt(vector, id, v) && FirstAt(vector, id, first))
    ensures var info, vs := InfoFor(direct, indirect, vector, id), if Absent(vector, id) then 0.0 else vector[v].score;
            && (LastAt(direct, id, i) ==> info == Some(Info(direct[i], direct[i].score, vs, true)))
            && (Absent(direct, id) && LastAt(indirect, id, i) ==> info == Some(Info(indirect[i], indirect[i].score, vs, false)))
            && (Absent(direct, id) && Absent(indirect, id) ==>
                  info == if Absent(vector, id) then None else Some(Info(vector[first], 0.0, vs, false)))
  {
    if Absent(vector, id) {
      NoRow(vector, id);
    } else {
      LastRowAt(vector, id, v);
      FirstRowAt(vector, id, first);
    }
    if Absent(direct, id) {
      NoRow(direct, id);
    }
    if Absent(indirect, id) {
      NoRow(indirect, id);
    }
    if LastAt(direct, id, i) {
      LastRowAt(direct, id, i);
    }
    if LastAt(indirect, id, i) {
      LastRowAt(indirect, id, i);
    }
  }

  /** The score of a document found by one path is that path's; found by both, with positive scores, it is the
      better one times the boost, for an indirect match times the decay as well, and at most one. */
  lemma ScoreMeans(data: Row, es: real, vs: real, isDirect: bool, decay: real, boost: real)
    ensures var score := FinalScore(Info(data, es, vs, isDirect), decay, boost);
            var boosted := (if es < vs then vs else es) * (if isDirect then boost else boost * decay);
            && (vs == 0.0 ==> score == es)
            && (es == 0.0 ==> score == vs)
            && (es > 0.0 && vs > 0.0 ==> score == if boosted < 1.0 then boosted else 1.0)
  {
    if es > 0.0 && vs > 0.0 {
      BoostedMeans(es, vs, if isDirect then boost else boost * decay);
    }
  }

  lemma BoostedMeans(es: real, vs: real, factor: real)
    ensures var boosted := (if es < vs then vs else es) * factor;
            Boosted(es, vs, factor) == if boosted < 1.0 then boosted else 1.0
  {
  }

  function Capped(x: real): real {
    if x < 1.0 then x else 1.0
  }

  /** The better score times the factor, capped at one. */
  function Boosted(es: real, vs: real, factor: real): real {
    Capped(Max(es, vs) * factor)
  }

  function FinalScore(info: Info, decay: real, boost: real): real {
    if info.entityScore > 0.0 && info.vectorScore > 0.0 then
      Boosted(info.entityScore, info.vectorScore, if info.isDirect then boost else boost * decay)
    else if info.entityScore != 0.0 then info.entityScore
    else info.vectorScore
  }

  /** The five documented rows; `d`, `e` and `v` are the scores of the lists that found the document. */
  function TableScore(d: Option<real>, e: Option<real>, v: Option<real>, decay: real, boost: real): real {
    if d.Some? && v.Some? then Boosted(d.value, v.value, boost)
    else if d.Some? then d.value
    else if e.Some? && v.Some? then Boosted(e.value, v.value, boost * decay)
    else if e.Some? then e.value
    else if v.Some? then v.value
    else 0.0
  }

  function ScoreIn(rows: seq<Row>, id: Id): Option<real> {
    var r := LastRow(rows, id);
    if r.Some? then Some(r.value.score) else None
  }

  /** The document has a row in the list. */
  predicate Found(rows: seq<Row>, id: Id) {
    LastRow(rows, id).Some?
  }

  /** Found by the entity pool and by the vector search: the first or the third row of the table. */
  predicate FoundTwice(direct: seq<Row>, indirect: seq<Row>, vector: seq<Row>, id: Id) {
    (Found(direct, id) || Found(indirect, id)) && Found(vector, id)
  }

  /** Its two scores and the factor its row of the table applies. */
  function EntityScore(direct: seq<Row>, indirect: seq<Row>, id: Id): real
    requires Found(direct, id) || Found(indirect, id)
  {
    if Found(direct, id) then LastRow(direct, id).value.score else LastRow(indirect, id).value.score
  }

  function VectorScore(vector: seq<Row>, id: Id): real
    requires Found(vector, id)
  {
    LastRow(vector, id).value.score
  }

  function Factor(direct: seq<Row>, id: Id, decay: real, boost: real): real {
    if Found(direct, id) then boost else boost * decay
  }

  lemma FoundTwiceScores(direct: seq<Row>, indirect: seq<Row>, vector: seq<Row>, id: Id, decay: real, boost: real)
    requires FoundTwice(direct, indirect, vector, id)
    ensures var es, vs, f := EntityScore(direct, indirect, id), VectorScore(vector, id), Factor(direct, id, decay, boost);
            var info := InfoFor(direct, indirect, vector, id);
            && info.Some?
            && TableScore(ScoreIn(direct, id), ScoreIn(indirect, id), ScoreIn(vector, id), decay, boost) == Boosted(es, vs, f)
            && FinalScore(info.value, decay, boost) ==
               (if es > 0.0 && vs > 0.0 then Boosted(es, vs, f) else if es != 0.0 then es else vs)
  {
  }

  /** The score follows the documented table: always for a document that only one of the entity pool
      and the vector search found, and for one both found whenever its two scores are positive. */
  lemma ScoreFollowsTable(direct: seq<Row>, indirect: seq<Row>, vector: seq<Row>, id: Id, decay: real, boost: real)
    requires InfoFor(direct, indirect, vector, id).Some?
    requires FoundTwice(direct, indirect, vector, id) ==> EntityScore(direct, indirect, id) > 0.0 && VectorScore(vector, id) > 0.0
    ensures FinalScore(InfoFor(direct, indirect, vector, id).value, decay, boost)
         == TableScore(ScoreIn(direct, id), ScoreIn(indirect, id), ScoreIn(vector, id), decay, boost)
  {
    if FoundTwice(direct, indirect, vector, id) {
      FoundTwiceScores(direct, indirect, vector, id, decay, boost);
    }
  }

  /** Where the two can differ, for all non-negative scores and any boost and decay: a document found
      twice gets its boosted row if and only if both scores are positive, or both are zero, or the better
      score is below one and the factor is one, or the better score is one and the factor is at least one. */
  lemma BoostedIff(direct: seq<Row>, indirect: seq<Row>, vector: seq<Row>, id: Id, decay: real, boost: real)
    requires FoundTwice(direct, indirect, vector, id)
    requires EntityScore(direct, indirect, id) >= 0.0 && VectorScore(vector, id) >= 0.0
    ensures var es, vs, f := EntityScore(direct, indirect, id), VectorScore(vector, id), Factor(direct, id, decay, boost);
            FinalScore(InfoFor(direct, indirect, vector, id).value, decay, boost)
              == TableScore(ScoreIn(direct, id), ScoreIn(indirect, id), ScoreIn(vector, id), decay, boost)
            <==> (es > 0.0 && vs > 0.0) || Max(es, vs) == 0.0 || (Max(es, vs) < 1.0 && f == 1.0) || (Max(es, vs) == 1.0 && f >= 1.0)
  {
    var es, vs, f := EntityScore(direct, indirect, id), VectorScore(vector, id), Factor(direct, id, decay, boost);
    FoundTwiceScores(direct, indirect, vector, id, decay, boost);
    BoostChanges(Max(es, vs), f);
  }

  lemma BoostChanges(best: real, factor: real)
    requires best >= 0.0
    ensures Capped(best * factor) == best <==> best == 0.0 || (best < 1.0 && factor == 1.0) || (best == 1.0 && factor >= 1.0)
  {
    Scaled(best, factor);
  }

  lemma Scaled(best: real, factor: real)
    requires best >= 0.0
    ensures best == 0.0 ==> best * factor == 0.0
    ensures best > 0.0 ==> (best * factor < best <==> factor < 1.0) && (best * factor == best <==> factor == 1.0)
  {
    if best > 0.0 {
      if factor < 1.0 {
        ScaledLess(best, factor, 1.0);
      } else if factor > 1.0 {
        ScaledLess(best, 1.0, factor);
      }
    }
  }

  lemma ScaledLess(best: real, a: real, b: real)
    requires best > 0.0 && a < b
    ensures best * a < best * b
  {
    assert best * (b - a) > 0.0;
  }

  /** Being found twice pays off, the final score being at least the better of the two, if and only if
      that score is at most one and the factor at least one. */
  lemma RewardedIff(direct: seq<Row>, indirect: seq<Row>, vector: seq<Row>, id: Id, decay: real, boost: real)
    requires FoundTwice(direct, indirect, vector, id)
    requires EntityScore(direct, indirect, id) > 0.0 && VectorScore(vector, id) > 0.0
    ensures var best := Max(EntityScore(direct, indirect, id), VectorScore(vector, id));
            FinalScore(InfoFor(direct, indirect, vector, id).value, decay, boost) >= best
            <==> best <= 1.0 && Factor(direct, id, decay, boost) >= 1.0
  {
    var best, f := Max(EntityScore(direct, indirect, id), VectorScore(vector, id)), Factor(direct, id, decay, boost);
    FoundTwiceScores(direct, indirect, vector, id, decay, boost);
    assert FinalScore(InfoFor(direct, indirect, vector, id).value, decay, boost) == Capped(best * f);
    CappedReaches(best, f);
  }

  lemma CappedReaches(best: real, factor: real)
    requires best > 0.0
    ensures Capped(best * factor) >= best <==> best <= 1.0 && factor >= 1.0
  {
    Scaled(best, factor);
  }

  /** With the default boost and a decay of one half a document found through related entities and by the vector
      search scores below one that the vector search alone found, however good its entity score. */
  lemma IndirectDemoted(indirect: seq<Row>, vector: seq<Row>, id: Id)
    requires Found(indirect, id) && Found(vector, id)
    requires LastRow(indirect, id).value.score > 0.0 && LastRow(vector, id).value.score > 0.0
    ensures var best := Max(LastRow(indirect, id).value.score, LastRow(vector, id).value.score);
            && FinalScore(InfoFor([], indirect, vector, id).value, 0.5, 1.3) < best
            && (LastRow(indirect, id).value.score <= LastRow(vector, id).value.score ==>
                  FinalScore(InfoFor([], indirect, vector, id).value, 0.5, 1.3) < FinalScore(InfoFor([], [], vector, id).value, 0.5, 1.3))
  {
    RewardedIff([], indirect, vector, id, 0.5, 1.3);
    assert Factor([], id, 0.5, 1.3) == 0.65;
  }

  // ----- the scores the recall queries return -----

  /** A direct match: matched query entities over query entities. */
  function DirectScore(matched: nat, entities: nat): (score: real)
    requires 0 < matched <= entities
    ensures 0.0 < score <= 1.0 && (score == 1.0 <==> matched == entities)
    ensures score * entities as real == matched as real
  {
    matched as real / entities as real
  }

  /** A match through related entities: decay to the power of the hops. */
  function RelatedScore(decay: real, hops: nat): (score: real)
    requires decay >= 0.0 && hops > 0
    ensures score >= 0.0 && (score == 0.0 <==> decay == 0.0)
  {
    if hops == 1 then decay else
      var rest := RelatedScore(decay, hops - 1);
      Decays(decay, rest);
      rest * decay
  }

  /** Decay compounds: a path in two pieces scores the product of the pieces, one hop the decay itself. */
  lemma {:induction false} RelatedScorePower(decay: real, a: nat, b: nat)
    requires decay >= 0.0 && a > 0 && b > 0
    ensures RelatedScore(decay, 1) == decay
    ensures RelatedScore(decay, a + b) == RelatedScore(decay, a) * RelatedScore(decay, b)
  {
    if b > 1 {
      RelatedScorePower(decay, a, b - 1);
      Regroup(RelatedScore(decay, a), RelatedScore(decay, b - 1), decay);
    }
  }

  lemma Regroup(x: real, y: real, z: real)
    ensures (x * y) * z == x * (y * z)
  {
  }

  lemma Decays(decay: real, score: real)
    requires decay >= 0.0 && score >= 0.0 && (score == 0.0 <==> decay == 0.0)
    ensures score * decay >= 0.0 && (score * decay == 0.0 <==> decay == 0.0)
  {
    Scaled(score, decay);
    if decay > 0.0 {
      ScaledLess(score, 0.0, decay);
    }
  }

  // ----- the loops -----

  ghost predicate IsRegistry(order: seq<Id>, info: map<Id, Info>, direct: seq<Row>, indirect: seq<Row>, vector: seq<Row>) {
    && order == AllIds(direct, indirect, vector)
    && (forall id :: Get(info, id) == InfoFor(direct, indirect, vector, id))
    && (forall id :: id in order <==> id in info)
  }

  /** A Python dict as its keys in insertion order and its values. */
  method SetItem(order: seq<Id>, info: map<Id, Info>, id: Id, value: Info) returns (order': seq<Id>, info': map<Id, Info>)
    requires forall x :: x in order <==> x in info
    ensures order' == Push(order, id) && info' == info[id := value]
  {
    order' := if id in info then order else order + [id];
    info' := info[id := value];
  }

  lemma FirstSeenPush(ids: seq<Id>, id: Id)
    ensures FirstSeen(ids + [id]) == Push(FirstSeen(ids), id)
  {
    assert (ids + [id])[..|ids|] == ids;
  }

  lemma RowPush(rows: seq<Row>, r: Row, id: Id)
    ensures LastRow(rows + [r], id) == if r.id == id then Some(r) else LastRow(rows, id)
    ensures FirstRow(rows + [r], id) == if FirstRow(rows, id).None? && r.id == id then Some(r) else FirstRow(rows, id)
  {
    assert (rows + [r])[..|rows|] == rows;
  }

  method RegisterDirect(direct: seq<Row>) returns (order: seq<Id>, info: map<Id, Info>)
    ensures IsRegistry(order, info, direct, [], [])
  {
    order, info := [], map[];
    for n := 0 to |direct|
      invariant IsRegistry(order, info, direct[..n], [], [])
    {
      DirectStep(order, info, direct[..n], direct[n]);
      assert direct[..n + 1] == direct[..n] + [direct[n]];
      order, info := SetItem(order, info, direct[n].id, Info(direct[n], direct[n].score, 0.0, true));
    }
    assert direct[..|direct|] == direct;
  }

  function AllIds(direct: seq<Row>, indirect: seq<Row>, vector: seq<Row>): seq<Id> {
    FirstSeen(IdsOf(direct) + IdsOf(indirect) + IdsOf(vector))
  }

  lemma DirectStep(order: seq<Id>, info: map<Id, Info>, rows: seq<Row>, r: Row)
    requires IsRegistry(order, info, rows, [], [])
    ensures IsRegistry(Push(order, r.id), info[r.id := Info(r, r.score, 0.0, true)], rows + [r], [], [])
  {
    FirstSeenPush(IdsOf(rows), r.id);
    assert IdsOf(rows) + IdsOf([]) + IdsOf([]) == IdsOf(rows);
    assert IdsOf(rows + [r]) + IdsOf([]) + IdsOf([]) == IdsOf(rows) + [r.id];
    var next := info[r.id := Info(r, r.score, 0.0, true)];
    forall id ensures Get(next, id) == InfoFor(rows + [r], [], [], id) {
      RowPush(rows, r, id);
      assert Get(info, id) == InfoFor(rows, [], [], id);
    }
  }

  /** The comprehension over the indirect rows whose id is not registered yet, then `dict.update`. */
  method RegisterIndirect(order: seq<Id>, info: map<Id, Info>, indirect: seq<Row>, ghost direct: seq<Row>)
    returns (order': seq<Id>, info': map<Id, Info>)
    requires IsRegistry(order, info, direct, [], [])
    ensures IsRegistry(order', info', direct, indirect, [])
  {
    var newOrder: seq<Id> := [];
    var newInfo: map<Id, Info> := map[];
    assert info + newInfo == info && order + newOrder == order;
    for n := 0 to |indirect|
      invariant forall id :: id in newOrder <==> id in newInfo
      invariant newInfo.Keys !! info.Keys
      invariant IsRegistry(order + newOrder, info + newInfo, direct, indirect[..n], [])
    {
      var r := indirect[n];
      assert indirect[..n + 1] == indirect[..n] + [r];
      IndirectStep(order, info, newOrder, newInfo, direct, indirect[..n], r);
      if r.id !in info {
        newOrder, newInfo := SetItem(newOrder, newInfo, r.id, Info(r, r.score, 0.0, false));
      }
    }
    assert indirect[..|indirect|] == indirect;
    order', info' := order + newOrder, info + newInfo;
  }

  lemma IndirectStep(order: seq<Id>, info: map<Id, Info>, newOrder: seq<Id>, newInfo: map<Id, Info>,
                     direct: seq<Row>, rows: seq<Row>, r: Row)
    requires IsRegistry(order, info, direct, [], []) && newInfo.Keys !! info.Keys
    requires IsRegistry(order + newOrder, info + newInfo, direct, rows, [])
    ensures r.id in info ==> IsRegistry(order + newOrder, info + newInfo, direct, rows + [r], [])
    ensures r.id !in info ==>
              IsRegistry(order + Push(newOrder, r.id), info + newInfo[r.id := Info(r, r.score, 0.0, false)], direct, rows + [r], [])
  {
    FirstSeenPush(IdsOf(direct) + IdsOf(rows), r.id);
    assert IdsOf(direct) + IdsOf(rows) + IdsOf([]) == IdsOf(direct) + IdsOf(rows);
    assert IdsOf(direct) + IdsOf(rows + [r]) + IdsOf([]) == IdsOf(direct) + IdsOf(rows) + [r.id];
    if r.id in info {
      forall id ensures Get(info + newInfo, id) == InfoFor(direct, rows + [r], [], id) {
        IndirectInfo(order, info, newOrder, newInfo, direct, rows, r, id);
      }
    } else {
      var next := newInfo[r.id := Info(r, r.score, 0.0, false)];
      forall id ensures Get(info + next, id) == InfoFor(direct, rows + [r], [], id) {
        IndirectInfo(order, info, newOrder, newInfo, direct, rows, r, id);
        assert id != r.id ==> Get(info + next, id) == Get(info + newInfo, id);
      }
      assert r.id !in order;
      assert Push(order + newOrder, r.id) == order + Push(newOrder, r.id);
    }
  }

  lemma IndirectInfo(order: seq<Id>, info: map<Id, Info>, newOrder: seq<Id>, newInfo: map<Id, Info>,
                     direct: seq<Row>, rows: seq<Row>, r: Row, id: Id)
    requires IsRegistry(order, info, direct, [], []) && newInfo.Keys !! info.Keys
    requires IsRegistry(order + newOrder, info + newInfo, direct, rows, [])
    ensures InfoFor(direct, rows + [r], [], id) ==
            if id == r.id && r.id !in info then Some(Info(r, r.score, 0.0, false)) else Get(info + newInfo, id)
  {
    RowPush(rows, r, id);
    assert Get(info, id) == InfoFor(direct, [], [], id);
    assert Get(info + newInfo, id) == InfoFor(direct, rows, [], id);
  }

  method RegisterVector(order: seq<Id>, info: map<Id, Info>, vector: seq<Row>, ghost direct: seq<Row>, ghost indirect: seq<Row>)
    returns (order': seq<Id>, info': map<Id, Info>)
    requires IsRegistry(order, info, direct, indirect, [])
    ensures IsRegistry(order', info', direct, indirect, vector)
  {
    order', info' := order, info;
    for n := 0 to |vector|
      invariant IsRegistry(order', info', direct, indirect, vector[..n])
    {
      var r := vector[n];
      VectorStep(order', info', direct, indirect, vector[..n], r);
      assert vector[..n + 1] == vector[..n] + [r];
      if r.id in info' {
        info' := info'[r.id := info'[r.id].(vectorScore := r.score)];
      } else {
        order', info' := SetItem(order', info', r.id, Info(r, 0.0, r.score, false));
      }
    }
    assert vector[..|vector|] == vector;
  }

  lemma VectorStep(order: seq<Id>, info: map<Id, Info>, direct: seq<Row>, indirect: seq<Row>, rows: seq<Row>, r: Row)
    requires IsRegistry(order, info, direct, indirect, rows)
    ensures r.id in info ==> IsRegistry(order, info[r.id := info[r.id].(vectorScore := r.score)], direct, indirect, rows + [r])
    ensures r.id !in info ==> IsRegistry(Push(order, r.id), info[r.id := Info(r, 0.0, r.score, false)], direct, indirect, rows + [r])
  {
    FirstSeenPush(IdsOf(direct) + IdsOf(indirect) + IdsOf(rows), r.id);
    assert IdsOf(direct) + IdsOf(indirect) + IdsOf(rows + [r]) == IdsOf(direct) + IdsOf(indirect) + IdsOf(rows) + [r.id];
    var next := info[r.id := if r.id in info then info[r.id].(vectorScore := r.score) else Info(r, 0.0, r.score, false)];
    forall id ensures Get(next, id) == InfoFor(direct, indirect, rows + [r], id) {
      RowPush(rows, r, id);
      assert Get(info, id) == InfoFor(direct, indirect, rows, id);
    }
  }

  // ----- ranking -----

  /** `final[:k]`. */
  function Head<T>(s: seq<T>, k: int): seq<T> {
    if k >= |s| then s else if k >= 0 then s[..k] else if |s| + k >= 0 then s[..|s| + k] else []
  }

  /** The documents the lists name. */
  ghost function Named(rows: seq<Row>): set<Id> {
    set i | 0 <= i < |rows| :: rows[i].id
  }

  lemma {:induction false} DistinctCount(ids: seq<Id>)
    requires Distinct(ids)
    ensures |Elements(ids)| == |ids|
  {
    if ids != [] {
      var head, last := ids[..|ids| - 1], ids[|ids| - 1];
      DistinctCount(head);
      assert last !in Elements(head);
      assert Elements(ids) == Elements(head) + {last};
    }
  }

  lemma AllIdsCount(direct: seq<Row>, indirect: seq<Row>, vector: seq<Row>)
    ensures |AllIds(direct, indirect, vector)| == |Named(direct) + Named(indirect) + Named(vector)|
    ensures forall id :: id in AllIds(direct, indirect, vector) ==> id in Named(direct) + Named(indirect) + Named(vector)
  {
    var all := IdsOf(direct) + IdsOf(indirect) + IdsOf(vector);
    FirstSeenMeans(all);
    DistinctCount(AllIds(direct, indirect, vector));
    forall id ensures id in all <==> id in Named(direct) + Named(indirect) + Named(vector) {
      NamedMember(direct, id);
      NamedMember(indirect, id);
      NamedMember(vector, id);
    }
    assert Elements(AllIds(direct, indirect, vector)) == Named(direct) + Named(indirect) + Named(vector);
  }

  lemma NamedMember(rows: seq<Row>, id: Id)
    ensures id in IdsOf(rows) <==> id in Named(rows)
  {
    if id in IdsOf(rows) {
      var i :| 0 <= i < |IdsOf(rows)| && IdsOf(rows)[i] == id;
      assert rows[i].id == id;
    }
    if i :| 0 <= i < |rows| && rows[i].id == id {
      assert IdsOf(rows)[i] == id;
    }
  }

  ghost function ScoreOf(info: map<Id, Info>, decay: real, boost: real): Id -> real {
    id => if id in info then FinalScore(info[id], decay, boost) else 0.0
  }

  /** Higher score first, equal scores in registry order. */
  ghost predicate Ranked(order: seq<Id>, score: Id -> real, a: Id, b: Id) {
    a in order && b in order && (score(a) > score(b) || (score(a) == score(b) && Position(order, a) < Position(order, b)))
  }

  /** The documents returned are the first `k` of the registry in rank order. */
  ghost predicate KBest(result: seq<Recall>, order: seq<Id>, info: map<Id, Info>, score: Id -> real, k: int) {
    && |result| == |Head(order, k)|
    && (forall i :: 0 <= i < |result| ==>
          result[i].id in order && result[i].id in info && result[i] == Recall(result[i].id, score(result[i].id), info[result[i].id].data.data))
    && (forall i, j :: 0 <= i < j < |result| ==> Ranked(order, score, result[i].id, result[j].id))
    && (forall id, i :: id in order && 0 <= i < |result| ==> Returned(result, id) || Ranked(order, score, result[i].id, id))
  }

  ghost predicate Returned(result: seq<Recall>, id: Id) {
    exists i :: 0 <= i < |result| && result[i].id == id
  }

  /** What the lists say about every document they name. */
  function Registry(direct: seq<Row>, indirect: seq<Row>, vector: seq<Row>): map<Id, Info> {
    map id | id in AllIds(direct, indirect, vector) && InfoFor(direct, indirect, vector, id).Some? ::
      InfoFor(direct, indirect, vector, id).value
  }

  lemma RegistryIs(order: seq<Id>, info: map<Id, Info>, direct: seq<Row>, indirect: seq<Row>, vector: seq<Row>)
    requires IsRegistry(order, info, direct, indirect, vector)
    ensures order == AllIds(direct, indirect, vector) && info == Registry(direct, indirect, vector)
  {
    var r := Registry(direct, indirect, vector);
    forall id ensures id in info <==> id in r
              ensures id in info ==> info[id] == r[id] {
      assert Get(info, id) == InfoFor(direct, indirect, vector, id);
    }
  }

  method MergeAndRerank(direct: seq<Row>, indirect: seq<Row>, vector: seq<Row>, k: int, decay: real, boost: real := 1.3)
    returns (result: seq<Recall>)
    ensures var info := Registry(direct, indirect, vector);
            KBest(result, AllIds(direct, indirect, vector), info, ScoreOf(info, decay, boost), k)
    ensures var found := |Named(direct) + Named(indirect) + Named(vector)|;
            |result| == if k >= 0 then (if k < found then k else found) else if found + k > 0 then found + k else 0
    ensures forall i :: 0 <= i < |result| ==> result[i].id in Named(direct) + Named(indirect) + Named(vector)
  {
    var order, info := RegisterDirect(direct);
    order, info := RegisterIndirect(order, info, indirect, direct);
    order, info := RegisterVector(order, info, vector, direct, indirect);
    RegistryDistinct(order, info, direct, indirect, vector);
    RegistryIs(order, info, direct, indirect, vector);
    result := Best(order, info, k, decay, boost);
    ResultCount(result, direct, indirect, vector, info, ScoreOf(info, decay, boost), k);
  }

  lemma ResultCount(result: seq<Recall>, direct: seq<Row>, indirect: seq<Row>, vector: seq<Row>, info: map<Id, Info>, score: Id -> real, k: int)
    requires KBest(result, AllIds(direct, indirect, vector), info, score, k)
    ensures var found := |Named(direct) + Named(indirect) + Named(vector)|;
            |result| == if k >= 0 then (if k < found then k else found) else if found + k > 0 then found + k else 0
    ensures forall i :: 0 <= i < |result| ==> result[i].id in Named(direct) + Named(indirect) + Named(vector)
  {
    AllIdsCount(direct, indirect, vector);
  }

  lemma RegistryDistinct(order: seq<Id>, info: map<Id, Info>, direct: seq<Row>, indirect: seq<Row>, vector: seq<Row>)
    requires IsRegistry(order, info, direct, indirect, vector)
    ensures Distinct(order)
  {
    FirstSeenMeans(IdsOf(direct) + IdsOf(indirect) + IdsOf(vector));
  }

  /** `final.sort(key=score, reverse=True)`, then the first `k` of it. */
  method Best(order: seq<Id>, info: map<Id, Info>, k: int, decay: real, boost: real) returns (result: seq<Recall>)
    requires Distinct(order) && forall id :: id in order <==> id in info
    ensures KBest(result, order, info, ScoreOf(info, decay, boost), k)
  {
    var worst := (id: Id) => if id in info then -FinalScore(info[id], decay, boost) else 0.0;
    var final := Sorted(order, worst);
    SortedSorts(order, worst);
    SortedPrecedence(order, worst);
    forall i | 0 <= i < |final| ensures final[i] in info {
      assert final[i] in multiset(final);
    }
    var best := Head(final, k);
    assert forall i :: 0 <= i < |best| ==> best[i] == final[i];
    result := seq(|best|, i requires 0 <= i < |best| => Recall(best[i], FinalScore(info[best[i]], decay, boost), info[best[i]].data.data));
    KBestOf(result, final, order, info, ScoreOf(info, decay, boost), worst, k);
  }

  lemma KBestOf(result: seq<Recall>, final: seq<Id>, order: seq<Id>, info: map<Id, Info>, score: Id -> real, worst: Id -> real, k: int)
    requires forall id :: worst(id) == -score(id)
    requires forall id :: id in order <==> id in info
    requires multiset(final) == multiset(order) && |final| == |order| && InPrecedence(final, order, worst)
    requires |result| == |Head(final, k)|
    requires forall i :: 0 <= i < |result| ==>
               final[i] in info && result[i] == Recall(final[i], score(final[i]), info[final[i]].data.data)
    ensures KBest(result, order, info, score, k)
  {
    forall i, j | 0 <= i < j < |final| ensures Ranked(order, score, final[i], final[j]) {
      assert Precedes(order, worst, final[i], final[j]);
    }
    forall id, i | id in order && 0 <= i < |result| ensures Returned(result, id) || Ranked(order, score, result[i].id, id) {
      assert id in multiset(final);
      var p :| 0 <= p < |final| && final[p] == id;
      if p < |result| {
        assert result[p].id == id;
      }
    }
  }

  /** So no document is returned twice, scores never increase, and nothing left out scores above
      anything returned. */
  lemma KBestMeans(result: seq<Recall>, order: seq<Id>, info: map<Id, Info>, score: Id -> real, k: int)
    requires KBest(result, order, info, score, k)
    ensures forall i, j :: 0 <= i < j < |result| ==> result[i].id != result[j].id && result[i].score >= result[j].score
    ensures forall id, i :: id in order && !Returned(result, id) && 0 <= i < |result| ==> score(id) <= result[i].score
  {
    forall i, j | 0 <= i < j < |result| ensures result[i].id != result[j].id && result[i].score >= result[j].score {
      assert Ranked(order, score, result[i].id, result[j].id);
    }
  }

  // ----- the indirect pool -----

  /** `recall_tenant_memory_from_embedding` joins the graph and the entity-vector rows: the better row
      of each document, a tie going to the graph. */
  method IndirectPool(related: seq<Row>, byVector: seq<Row>) returns (pool: seq<Row>)
    ensures Distinct(IdsOf(pool)) && IdsOf(pool) == FirstSeen(IdsOf(related) + IdsOf(byVector))
    ensures forall r :: r in pool ==> r in related || r in byVector
    ensures forall r, v :: r in pool && v in byVector && v.id == r.id ==> r.score >= v.score
    ensures forall r :: r in pool && LastRow(related, r.id).Some? ==>
              var row := LastRow(related, r.id).value; r.score > row.score || r == row
  {
    var order, best := PoolRelated(related);
    PooledStart(best, related);
    PoolOrderStart(related);
    AddByVectorPools(order, best, related, byVector);
    order, best := PoolByVector(order, best, byVector);
    pool := seq(|order|, i requires 0 <= i < |order| => best[order[i]]);
    FirstSeenMeans(IdsOf(related) + IdsOf(byVector));
    PoolMeans(pool, order, best, related, byVector);
  }

  lemma PoolMeans(pool: seq<Row>, order: seq<Id>, best: map<Id, Row>, related: seq<Row>, byVector: seq<Row>)
    requires Pooled(best, related, byVector) && |pool| == |order|
    requires forall i :: 0 <= i < |order| ==> order[i] in best && pool[i] == best[order[i]]
    ensures IdsOf(pool) == order
    ensures forall r :: r in pool ==> r in related || r in byVector
    ensures forall r, v :: r in pool && v in byVector && v.id == r.id ==> r.score >= v.score
    ensures forall r :: r in pool && LastRow(related, r.id).Some? ==>
              var row := LastRow(related, r.id).value; r.score > row.score || r == row
  {
    forall r | r in pool ensures r.id in best && best[r.id] == r {
      var i :| 0 <= i < |pool| && pool[i] == r;
    }
    forall r, v | r in pool && v in byVector && v.id == r.id ensures r.score >= v.score {
      var i :| 0 <= i < |byVector| && byVector[i] == v;
    }
  }

  lemma PooledStart(best: map<Id, Row>, related: seq<Row>)
    requires forall id :: Get(best, id) == LastRow(related, id)
    ensures Pooled(best, related, [])
  {
    forall id | id in best ensures best[id].id == id && best[id] in related {
      RowFound(related, id);
      assert Get(best, id) == LastRow(related, id);
    }
    forall id | LastRow(related, id).Some? ensures id in best && best[id] == LastRow(related, id).value {
      assert Get(best, id) == LastRow(related, id);
    }
  }

  method PoolRelated(related: seq<Row>) returns (order: seq<Id>, best: map<Id, Row>)
    ensures order == FirstSeen(IdsOf(related)) && forall id :: id in order <==> id in best
    ensures forall id :: Get(best, id) == LastRow(related, id)
  {
    order, best := [], map[];
    for n := 0 to |related|
      invariant order == FirstSeen(IdsOf(related[..n]))
      invariant forall id :: id in order <==> id in best
      invariant forall id :: Get(best, id) == LastRow(related[..n], id)
    {
      var r := related[n];
      assert related[..n + 1] == related[..n] + [r];
      FirstSeenPush(IdsOf(related[..n]), r.id);
      assert IdsOf(related[..n + 1]) == IdsOf(related[..n]) + [r.id];
      ghost var before := best;
      order := if r.id in best then order else order + [r.id];
      best := best[r.id := r];
      forall id ensures Get(best, id) == LastRow(related[..n] + [r], id) {
        RowPush(related[..n], r, id);
        assert Get(before, id) == LastRow(related[..n], id);
      }
    }
    assert related[..|related|] == related;
  }

  ghost predicate Pooled(best: map<Id, Row>, related: seq<Row>, byVector: seq<Row>) {
    && (forall id :: id in best ==> best[id].id == id && (best[id] in related || best[id] in byVector))
    && (forall i :: 0 <= i < |byVector| ==> byVector[i].id in best && best[byVector[i].id].score >= byVector[i].score)
    && (forall id :: LastRow(related, id).Some? ==>
          id in best && (best[id].score > LastRow(related, id).value.score || best[id] == LastRow(related, id).value))
  }

  function PoolOrder(related: seq<Row>, byVector: seq<Row>): seq<Id> {
    FirstSeen(IdsOf(related) + IdsOf(byVector))
  }

  lemma PoolOrderStep(related: seq<Row>, rows: seq<Row>, r: Row)
    ensures PoolOrder(related, rows + [r]) == Push(PoolOrder(related, rows), r.id)
  {
    FirstSeenPush(IdsOf(related) + IdsOf(rows), r.id);
    assert IdsOf(related) + IdsOf(rows + [r]) == IdsOf(related) + IdsOf(rows) + [r.id];
  }

  lemma PoolOrderStart(related: seq<Row>)
    ensures PoolOrder(related, []) == FirstSeen(IdsOf(related))
  {
    assert IdsOf(related) + IdsOf([]) == IdsOf(related);
  }

  ghost predicate PoolState(order: seq<Id>, best: map<Id, Row>, related: seq<Row>, byVector: seq<Row>) {
    && order == PoolOrder(related, byVector)
    && (forall id :: id in order <==> id in best)
    && Pooled(best, related, byVector)
  }

  /** The second loop: a better row takes its document's place, an unknown document is appended. */
  function AddByVector(pool: (seq<Id>, map<Id, Row>), rows: seq<Row>): (seq<Id>, map<Id, Row>) {
    if rows == [] then pool else
      var (order, best) := AddByVector(pool, rows[..|rows| - 1]);
      var r := rows[|rows| - 1];
      if r.id !in best || r.score > best[r.id].score then (Push(order, r.id), best[r.id := r]) else (order, best)
  }

  lemma {:induction false} AddByVectorPools(order: seq<Id>, best: map<Id, Row>, related: seq<Row>, rows: seq<Row>)
    requires PoolState(order, best, related, [])
    ensures var (o, b) := AddByVector((order, best), rows); PoolState(o, b, related, rows)
  {
    if rows != [] {
      var head, r := rows[..|rows| - 1], rows[|rows| - 1];
      AddByVectorPools(order, best, related, head);
      var (o, b) := AddByVector((order, best), head);
      PoolStateStep(o, b, related, head, r);
      assert rows == head + [r];
    }
  }

  lemma PoolStateStep(order: seq<Id>, best: map<Id, Row>, related: seq<Row>, rows: seq<Row>, r: Row)
    requires PoolState(order, best, related, rows)
    ensures if r.id !in best || r.score > best[r.id].score
            then PoolState(Push(order, r.id), best[r.id := r], related, rows + [r])
            else PoolState(order, best, related, rows + [r])
  {
    PoolOrderStep(related, rows, r);
    PooledStep(best, related, rows, r);
  }

  method PoolByVector(order0: seq<Id>, best0: map<Id, Row>, byVector: seq<Row>) returns (order: seq<Id>, best: map<Id, Row>)
    ensures (order, best) == AddByVector((order0, best0), byVector)
  {
    order, best := order0, best0;
    for n := 0 to |byVector|
      invariant (order, best) == AddByVector((order0, best0), byVector[..n])
    {
      var r := byVector[n];
      assert byVector[..n + 1][..n] == byVector[..n];
      if r.id !in best || r.score > best[r.id].score {
        order := Push(order, r.id);
        best := best[r.id := r];
      }
    }
    assert byVector[..|byVector|] == byVector;
  }

  lemma PooledStep(best: map<Id, Row>, related: seq<Row>, rows: seq<Row>, r: Row)
    requires Pooled(best, related, rows)
    ensures Pooled(if r.id !in best || r.score > best[r.id].score then best[r.id := r] else best, related, rows + [r])
  {
  }
}
