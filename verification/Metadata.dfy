/** Accumulated entity metadata: which documents produced an entity, and how confidently. The same
    union is computed twice, across the chunks of one source and against the stored node. */
module Metadata {
  import opened Prelude

  type Id = string

  /** The shape every payload carries; a value that does not parse counts as no documents, no confidence. */
  datatype Accumulated = Accumulated(docs: seq<Id>, confidence: Option<real>)

  /** What a stored node may hold, the single-document key of older nodes included. */
  datatype StoredMetadata =
    | NoMetadata
    | Malformed
    | Stored(docs: seq<Id>, legacyDoc: Option<Id>, confidence: Option<real>)

  function AsStored(a: Accumulated): StoredMetadata {
    Stored(a.docs, None, a.confidence)
  }

  function Max(a: real, b: real): real {
    if a < b then b else a
  }

  function OrZero(c: Option<real>): real {
    if c.Some? then c.value else 0.0
  }

  function MaxOption(a: Option<real>, b: Option<real>): Option<real> {
    if b.None? then a else if a.None? then b else Some(Max(a.value, b.value))
  }

  /** `base`, then the elements of `more` that are not there yet, in first-seen order. */
  function AppendNew(base: seq<Id>, more: seq<Id>): seq<Id> {
    if more == [] then base
    else
      var r := AppendNew(base, more[..|more| - 1]);
      if more[|more| - 1] in r then r else r + [more[|more| - 1]]
  }

  function PreviousDocs(existing: StoredMetadata): seq<Id> {
    if !existing.Stored? then []
    else if existing.docs == [] && existing.legacyDoc.Some? && existing.legacyDoc.value != "" then
      [existing.legacyDoc.value]
    else existing.docs
  }

  function PreviousConfidence(existing: StoredMetadata): real {
    if existing.Stored? then OrZero(existing.confidence) else 0.0
  }

  /** The value the write transaction stores for an incoming payload. */
  function Merged(existing: StoredMetadata, incoming: Accumulated): Accumulated {
    Accumulated(
      AppendNew(PreviousDocs(existing), incoming.docs),
      Some(Max(PreviousConfidence(existing), OrZero(incoming.confidence))))
  }

  /** The union over the payloads of several chunks. */
  function MergedChunks(raws: seq<Accumulated>): Accumulated {
    if raws == [] then Accumulated([], None)
    else
      var r := MergedChunks(raws[..|raws| - 1]);
      var last := raws[|raws| - 1];
      Accumulated(AppendNew(r.docs, last.docs), MaxOption(r.confidence, last.confidence))
  }

  /** `_merge_entity_metadata` of the handler. */
  method MergeEntityMetadata(existing: StoredMetadata, incoming: Accumulated) returns (r: Accumulated)
    ensures r == Merged(existing, incoming)
  {
    var docs := [];
    var confidence := 0.0;
    if existing.Stored? {
      docs := existing.docs;
      if docs == [] && existing.legacyDoc.Some? && existing.legacyDoc.value != "" {
        docs := [existing.legacyDoc.value];
      }
      confidence := OrZero(existing.confidence);
    }
    for i := 0 to |incoming.docs|
      invariant docs == AppendNew(PreviousDocs(existing), incoming.docs[..i])
    {
      assert incoming.docs[..i + 1][..i] == incoming.docs[..i];
      if incoming.docs[i] !in docs {
        docs := docs + [incoming.docs[i]];
      }
    }
    assert incoming.docs[..|incoming.docs|] == incoming.docs;
    r := Accumulated(docs, Some(Max(confidence, OrZero(incoming.confidence))));
  }

  /** `_merge_entity_metadata` of the per-source writer. */
  method MergeChunkMetadata(raws: seq<Accumulated>) returns (r: Accumulated)
    ensures r == MergedChunks(raws)
  {
    var docs: seq<Id> := [];
    var confidence: Option<real> := None;
    for i := 0 to |raws|
      invariant Accumulated(docs, confidence) == MergedChunks(raws[..i])
    {
      assert raws[..i + 1][..i] == raws[..i];
      ghost var before := docs;
      for j := 0 to |raws[i].docs|
        invariant docs == AppendNew(before, raws[i].docs[..j])
      {
        assert raws[i].docs[..j + 1][..j] == raws[i].docs[..j];
        if raws[i].docs[j] !in docs {
          docs := docs + [raws[i].docs[j]];
        }
      }
      assert raws[i].docs[..|raws[i].docs|] == raws[i].docs;
      if raws[i].confidence.Some? {
        confidence := if confidence.None? then raws[i].confidence
                      else Some(Max(confidence.value, raws[i].confidence.value));
      }
    }
    assert raws[..|raws|] == raws;
    r := Accumulated(docs, confidence);
  }

  // ----- first-seen union -----

  lemma {:induction false} AppendNewMembers(base: seq<Id>, more: seq<Id>, x: Id)
    ensures x in AppendNew(base, more) <==> x in base || x in more
  {
    if more != [] {
      AppendNewMembers(base, more[..|more| - 1], x);
      assert more == more[..|more| - 1] + [more[|more| - 1]];
    }
  }

  lemma {:induction false} AppendNewAbsorbs(base: seq<Id>, more: seq<Id>)
    requires forall x :: x in more ==> x in base
    ensures AppendNew(base, more) == base
  {
    if more != [] {
      assert forall x :: x in more[..|more| - 1] ==> x in more;
      AppendNewAbsorbs(base, more[..|more| - 1]);
      assert more[|more| - 1] in more;
    }
  }

  /** Deduplicating what is about to be added changes nothing. */
  lemma {:induction false} AppendNewDeduplicated(base: seq<Id>, start: seq<Id>, more: seq<Id>)
    requires forall x :: x in start ==> x in base
    ensures AppendNew(base, AppendNew(start, more)) == AppendNew(base, more)
  {
    if more == [] {
      AppendNewAbsorbs(base, start);
    } else {
      var shorter, x := more[..|more| - 1], more[|more| - 1];
      AppendNewDeduplicated(base, start, shorter);
      var r := AppendNew(start, shorter);
      if x in r {
        AppendNewMembers(start, shorter, x);
        AppendNewMembers(base, shorter, x);
      } else {
        assert (r + [x])[..|r + [x]| - 1] == r;
      }
    }
  }

  /** Every document once, provided the base had every document once. */
  lemma {:induction false} AppendNewUnique(base: seq<Id>, more: seq<Id>)
    requires Distinct(base)
    ensures Distinct(AppendNew(base, more))
  {
    if more != [] {
      AppendNewUnique(base, more[..|more| - 1]);
    }
  }

  // ----- the merge against the stored node -----

  /** A second attempt over the same stored node, with a payload the first attempt overwrote. */
  lemma MergedTwice(existing: StoredMetadata, incoming: Accumulated)
    ensures Merged(existing, Merged(existing, incoming)) == Merged(existing, incoming)
  {
    AppendNewDeduplicated(PreviousDocs(existing), PreviousDocs(existing), incoming.docs);
  }

  /** A re-run meets its own earlier result and leaves it. */
  lemma MergedStored(existing: StoredMetadata, incoming: Accumulated)
    ensures Merged(AsStored(Merged(existing, incoming)), incoming) == Merged(existing, incoming)
  {
    var m := Merged(existing, incoming);
    assert PreviousDocs(AsStored(m)) == m.docs;
    forall x | x in incoming.docs ensures x in m.docs {
      AppendNewMembers(PreviousDocs(existing), incoming.docs, x);
    }
    AppendNewAbsorbs(m.docs, incoming.docs);
  }

  /** What the merge promises: nothing lost, nothing invented, the larger confidence. */
  lemma MergedMeaning(existing: StoredMetadata, incoming: Accumulated)
    ensures var m := Merged(existing, incoming);
            && (forall x :: x in m.docs <==> x in PreviousDocs(existing) || x in incoming.docs)
            && m.confidence.Some?
            && m.confidence.value >= PreviousConfidence(existing)
            && m.confidence.value >= OrZero(incoming.confidence)
            && (m.confidence.value == PreviousConfidence(existing) || m.confidence.value == OrZero(incoming.confidence))
  {
    forall x ensures x in Merged(existing, incoming).docs <==> x in PreviousDocs(existing) || x in incoming.docs {
      AppendNewMembers(PreviousDocs(existing), incoming.docs, x);
    }
  }

  // ----- the merge across chunks -----

  lemma {:induction false} MergedChunksAppend(a: seq<Accumulated>, b: seq<Accumulated>)
    ensures MergedChunks([MergedChunks(a)] + b) == MergedChunks(a + b)
  {
    if b == [] {
      assert a + b == a;
      var m := MergedChunks(a);
      assert [m] + b == [m];
      assert [m][..0] == [];
      MergedChunksUnique(a);
      AppendNewDeduplicated([], [], m.docs);
      AppendNewFixed(m.docs);
    } else {
      assert (a + b)[..|a + b| - 1] == a + b[..|b| - 1];
      assert ([MergedChunks(a)] + b)[..|b|] == [MergedChunks(a)] + b[..|b| - 1];
      MergedChunksAppend(a, b[..|b| - 1]);
    }
  }

  lemma {:induction false} MergedChunksUnique(raws: seq<Accumulated>)
    ensures Distinct(MergedChunks(raws).docs)
  {
    if raws != [] {
      MergedChunksUnique(raws[..|raws| - 1]);
      AppendNewUnique(MergedChunks(raws[..|raws| - 1]).docs, raws[|raws| - 1].docs);
    }
  }

  lemma {:induction false} AppendNewFixed(s: seq<Id>)
    requires Distinct(s)
    ensures AppendNew([], s) == s
  {
    if s != [] {
      AppendNewFixed(s[..|s| - 1]);
    }
  }

  /** Across chunks: the documents are the union, and the confidence is the largest one present. */
  lemma {:induction false} MergedChunksMeaning(raws: seq<Accumulated>)
    ensures forall x :: x in MergedChunks(raws).docs <==> exists i :: 0 <= i < |raws| && x in raws[i].docs
    ensures forall i :: 0 <= i < |raws| && raws[i].confidence.Some? ==>
              MergedChunks(raws).confidence.Some? && raws[i].confidence.value <= MergedChunks(raws).confidence.value
    ensures MergedChunks(raws).confidence.Some? ==>
              exists i :: 0 <= i < |raws| && raws[i].confidence == MergedChunks(raws).confidence
  {
    if raws != [] {
      var shorter, last := raws[..|raws| - 1], raws[|raws| - 1];
      MergedChunksMeaning(shorter);
      var r := MergedChunks(shorter);
      forall x ensures x in MergedChunks(raws).docs <==> exists i :: 0 <= i < |raws| && x in raws[i].docs {
        AppendNewMembers(r.docs, last.docs, x);
        if x in r.docs {
          var i :| 0 <= i < |shorter| && x in shorter[i].docs;
          assert x in raws[i].docs;
        }
        if i :| 0 <= i < |raws| && x in raws[i].docs {
          assert i < |shorter| ==> x in shorter[i].docs;
        }
      }
      forall i | 0 <= i < |raws| && raws[i].confidence.Some?
        ensures MergedChunks(raws).confidence.Some? && raws[i].confidence.value <= MergedChunks(raws).confidence.value
      {
        assert i < |shorter| ==> raws[i] == shorter[i];
      }
      if MergedChunks(raws).confidence.Some? {
        if MergedChunks(raws).confidence == last.confidence {
        } else {
          var i :| 0 <= i < |shorter| && shorter[i].confidence == r.confidence;
          assert raws[i].confidence == MergedChunks(raws).confidence;
        }
      }
    }
  }

  // ----- order, and what older nodes hold -----

  /** `r` starts with `base`; every later element comes from `more`, and stands where it is first seen there:
      everything between `base` and it was seen before. */
  ghost predicate FirstSeenAfter(r: seq<Id>, base: seq<Id>, more: seq<Id>) {
    base <= r && forall k :: |base| <= k < |r| ==> FirstSeenAt(r, base, more, k)
  }

  ghost predicate FirstSeenAt(r: seq<Id>, base: seq<Id>, more: seq<Id>, k: nat)
    requires |base| <= k < |r|
  {
    r[k] !in base && exists i :: 0 <= i < |more| && more[i] == r[k] && r[k] !in more[..i] && AllIn(r[|base|..k], more[..i])
  }

  ghost predicate AllIn(xs: seq<Id>, ys: seq<Id>) {
    forall x :: x in xs ==> x in ys
  }

  lemma FirstSeenLonger(r: seq<Id>, s: seq<Id>, base: seq<Id>, more: seq<Id>, last: Id, k: nat)
    requires |base| <= k < |r| && FirstSeenAt(r, base, more, k) && r <= s
    ensures FirstSeenAt(s, base, more + [last], k)
  {
    var i :| 0 <= i < |more| && more[i] == r[k] && r[k] !in more[..i] && AllIn(r[|base|..k], more[..i]);
    assert (more + [last])[i] == more[i] && (more + [last])[..i] == more[..i] && s[|base|..k] == r[|base|..k];
  }

  lemma {:induction false} AppendNewOrder(base: seq<Id>, more: seq<Id>)
    ensures FirstSeenAfter(AppendNew(base, more), base, more)
  {
    if more != [] {
      var last := |more| - 1;
      var before, r := AppendNew(base, more[..last]), AppendNew(base, more);
      AppendNewOrder(base, more[..last]);
      assert more == more[..last] + [more[last]];
      forall k | |base| <= k < |r| ensures FirstSeenAt(r, base, more, k) {
        if k < |before| {
          FirstSeenLonger(before, r, base, more[..last], more[last], k);
        } else {
          AppendNewMembers(base, more[..last], more[last]);
          NewOnes(before, base, more[..last]);
          assert r[|base|..k] == before[|base|..];
        }
      }
    }
  }

  lemma {:induction false} AppendNewAppend(base: seq<Id>, a: seq<Id>, b: seq<Id>)
    ensures AppendNew(AppendNew(base, a), b) == AppendNew(base, a + b)
  {
    if b == [] {
      assert a + b == a;
    } else {
      AppendNewAppend(base, a, b[..|b| - 1]);
      assert (a + b)[..|a + b| - 1] == a + b[..|b| - 1];
    }
  }

  function DocLists(raws: seq<Accumulated>): seq<seq<Id>> {
    if raws == [] then [] else DocLists(raws[..|raws| - 1]) + [raws[|raws| - 1].docs]
  }

  /** Across chunks the documents come in the order in which the chunks first name them. */
  lemma MergedChunksOrder(raws: seq<Accumulated>)
    ensures FirstSeenAfter(MergedChunks(raws).docs, [], Concat(DocLists(raws)))
  {
    MergedChunksDocs(raws);
    AppendNewOrder([], Concat(DocLists(raws)));
  }

  lemma {:induction false} MergedChunksDocs(raws: seq<Accumulated>)
    ensures MergedChunks(raws).docs == AppendNew([], Concat(DocLists(raws)))
  {
    if raws != [] {
      var shorter, last := raws[..|raws| - 1], raws[|raws| - 1];
      MergedChunksDocs(shorter);
      AppendNewAppend([], Concat(DocLists(shorter)), last.docs);
      assert DocLists(raws)[..|DocLists(shorter)|] == DocLists(shorter);
    }
  }

  lemma NewOnes(r: seq<Id>, base: seq<Id>, more: seq<Id>)
    requires FirstSeenAfter(r, base, more)
    ensures AllIn(r[|base|..], more)
  {
    forall x | x in r[|base|..] ensures x in more {
      var k :| 0 <= k < |r| - |base| && r[|base|..][k] == x;
      assert FirstSeenAt(r, base, more, |base| + k);
    }
  }

  /** The merge spelled out: the stored documents first, or the single document of an older node that has no
      list; a malformed or missing value counts for nothing, a missing confidence as zero. */
  lemma MergedSpelledOut(existing: StoredMetadata, incoming: Accumulated)
    ensures var m := Merged(existing, incoming);
            && (!existing.Stored? ==> FirstSeenAfter(m.docs, [], incoming.docs))
            && (existing.Stored? && existing.docs != [] ==> FirstSeenAfter(m.docs, existing.docs, incoming.docs))
            && (existing.Stored? && existing.docs == [] ==>
                  match existing.legacyDoc
                  case Some(d) => FirstSeenAfter(m.docs, if d == "" then [] else [d], incoming.docs)
                  case None => FirstSeenAfter(m.docs, [], incoming.docs))
    ensures var stored := if existing.Stored? && existing.confidence.Some? then existing.confidence.value else 0.0;
            var added := if incoming.confidence.Some? then incoming.confidence.value else 0.0;
            Merged(existing, incoming).confidence == Some(if stored < added then added else stored)
  {
    AppendNewOrder(PreviousDocs(existing), incoming.docs);
  }
}
