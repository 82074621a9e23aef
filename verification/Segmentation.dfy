/** `_segment_text`: a long text cut into contiguous segments for the language model. The paragraph
    splitter may be any function whose non-empty pieces concatenate to the text. */
module Segmentation {
  import opened Prelude

  const SPACY_MAX_SEGMENT_CHARS := 100_000

  datatype Segment = Segment(offset: nat, text: string)

  // ----- hard split -----

  /** The last space at or after `from`, as `str.rfind` finds it. */
  function LastSpace(s: string, from: nat): (r: Option<nat>)
    ensures r.Some? ==> from <= r.value < |s| && s[r.value] == ' ' && forall i :: r.value < i < |s| ==> s[i] != ' '
    ensures r.None? ==> forall i :: from <= i < |s| ==> s[i] != ' '
  {
    if |s| <= from then None
    else if s[|s| - 1] == ' ' then Some(|s| - 1)
    else LastSpace(s[..|s| - 1], from)
  }

  function Cut(chunk: string, cap: nat): (cut: nat)
    requires |chunk| > cap >= 1
    ensures 1 <= cut <= cap
  {
    match LastSpace(chunk[..cap], 3 * cap / 4)
    case Some(i) => i + 1
    case None => cap
  }

  /** The cut is after the last space of the last quarter of the window, or at the cap if there is none. */
  lemma CutPlace(chunk: string, cap: nat)
    requires |chunk| > cap >= 1
    ensures var cut := Cut(chunk, cap);
            if exists i :: 3 * cap / 4 <= i < cap && chunk[i] == ' '
            then 3 * cap / 4 < cut && chunk[cut - 1] == ' ' && forall i :: cut <= i < cap ==> chunk[i] != ' '
            else cut == cap
  {
    var window := chunk[..cap];
    assert forall i :: 0 <= i < cap ==> window[i] == chunk[i];
  }

  predicate AllNonEmpty(chunks: seq<string>) {
    forall i :: 0 <= i < |chunks| ==> chunks[i] != []
  }

  ghost predicate Fits(segments: seq<string>, cap: nat) {
    forall i :: 0 <= i < |segments| ==> 0 < |segments[i]| <= cap
  }

  function HardParts(chunk: string, cap: nat): (r: seq<string>)
    requires cap >= 1
    ensures r != [] && (chunk != [] ==> Fits(r, cap))
    decreases |chunk|
  {
    if |chunk| <= cap then [chunk]
    else [chunk[..Cut(chunk, cap)]] + HardParts(chunk[Cut(chunk, cap)..], cap)
  }

  lemma ConcatOfSplit(chunk: string, cut: nat, rest: seq<string>)
    requires cut <= |chunk| && Concat(rest) == chunk[cut..]
    ensures Concat([chunk[..cut]] + rest) == chunk
  {
    ConcatCons(chunk[..cut], rest);
    assert chunk[..cut] + chunk[cut..] == chunk;
  }

  lemma {:induction false} HardPartsConcat(chunk: string, cap: nat)
    requires cap >= 1
    ensures Concat(HardParts(chunk, cap)) == chunk
    decreases |chunk|
  {
    if |chunk| <= cap {
      ConcatOfSplit(chunk, |chunk|, []);
      assert chunk[..|chunk|] == chunk && [chunk] + [] == [chunk];
    } else {
      HardPartsConcat(chunk[Cut(chunk, cap)..], cap);
      ConcatOfSplit(chunk, Cut(chunk, cap), HardParts(chunk[Cut(chunk, cap)..], cap));
    }
  }

  function Parts(chunks: seq<string>, cap: nat): (r: seq<string>)
    requires cap >= 1 && AllNonEmpty(chunks)
    ensures Fits(r, cap)
  {
    if chunks == [] then [] else Parts(chunks[..|chunks| - 1], cap) + HardParts(chunks[|chunks| - 1], cap)
  }

  lemma {:induction false} PartsConcat(chunks: seq<string>, cap: nat)
    requires cap >= 1 && AllNonEmpty(chunks)
    ensures Concat(Parts(chunks, cap)) == Concat(chunks)
  {
    if chunks != [] {
      PartsConcat(chunks[..|chunks| - 1], cap);
      HardPartsConcat(chunks[|chunks| - 1], cap);
      ConcatAppend(Parts(chunks[..|chunks| - 1], cap), HardParts(chunks[|chunks| - 1], cap));
    }
  }

  // ----- greedy packing -----

  function PackOne(packed: seq<string>, part: string, cap: nat): seq<string> {
    if packed != [] && |packed[|packed| - 1]| + |part| <= cap
    then packed[..|packed| - 1] + [packed[|packed| - 1] + part]
    else packed + [part]
  }

  function Pack(parts: seq<string>, cap: nat): seq<string> {
    if parts == [] then [] else PackOne(Pack(parts[..|parts| - 1], cap), parts[|parts| - 1], cap)
  }

  /** No two neighbours would have fitted into one segment. */
  ghost predicate NeighboursExceed(segments: seq<string>, cap: nat) {
    forall i :: 0 < i < |segments| ==> |segments[i - 1]| + |segments[i]| > cap
  }

  /** Packing loses nothing, keeps the order and the cap, and never leaves two neighbours that fit together. */
  lemma {:induction false} PackPartitions(parts: seq<string>, cap: nat)
    requires Fits(parts, cap)
    ensures Concat(Pack(parts, cap)) == Concat(parts)
    ensures Fits(Pack(parts, cap), cap) && NeighboursExceed(Pack(parts, cap), cap)
  {
    if parts != [] {
      var head, part := parts[..|parts| - 1], parts[|parts| - 1];
      PackPartitions(head, cap);
      PackOneKeeps(Pack(head, cap), part, cap);
    }
  }

  lemma PackOneKeeps(packed: seq<string>, part: string, cap: nat)
    requires Fits(packed, cap) && NeighboursExceed(packed, cap) && 0 < |part| <= cap
    ensures Fits(PackOne(packed, part, cap), cap) && NeighboursExceed(PackOne(packed, part, cap), cap)
    ensures Concat(PackOne(packed, part, cap)) == Concat(packed) + part
  {
    if packed != [] && |packed[|packed| - 1]| + |part| <= cap {
      var last := |packed| - 1;
      ConcatLast(packed[..last], packed[last] + part);
      assert Concat(packed[..last]) + (packed[last] + part) == Concat(packed) + part;
    } else {
      ConcatLast(packed, part);
    }
  }

  lemma ConcatLast<T>(parts: seq<seq<T>>, last: seq<T>)
    ensures Concat(parts + [last]) == Concat(parts) + last
  {
    assert (parts + [last])[..|parts|] == parts;
  }

  // ----- no grouping is smaller -----

  /** Contiguous groups of the parts, each within the cap. */
  ghost predicate Grouping(groups: seq<seq<string>>, parts: seq<string>, cap: nat) {
    && Concat(groups) == parts
    && (forall i :: 0 <= i < |groups| ==> groups[i] != [] && |Concat(groups[i])| <= cap)
  }

  ghost function LastLength(segments: seq<string>): nat {
    if segments == [] then 0 else |segments[|segments| - 1]|
  }

  ghost function LastGroupLength(groups: seq<seq<string>>): nat {
    if groups == [] then 0 else |Concat(groups[|groups| - 1])|
  }

  ghost predicate Ahead(packed: seq<string>, groups: seq<seq<string>>) {
    |packed| < |groups| || (|packed| == |groups| && LastLength(packed) <= LastGroupLength(groups))
  }

  /** Greedy stays ahead: fewer segments, or as many with a last one that is no longer. */
  lemma {:induction false} GreedyStaysAhead(parts: seq<string>, groups: seq<seq<string>>, cap: nat)
    requires Fits(parts, cap) && Grouping(groups, parts, cap)
    ensures Ahead(Pack(parts, cap), groups)
    decreases |parts|
  {
    if groups == [] {
      assert parts == [];
    } else {
      var n := |groups| - 1;
      var head, part := parts[..|parts| - 1], parts[|parts| - 1];
      WithoutLastPart(parts, groups, cap);
      if |groups[n]| == 1 {
        GreedyStaysAhead(head, groups[..n], cap);
        OpenedGroup(Pack(head, cap), groups[..n], part, cap);
      } else {
        var start := groups[n][..|groups[n]| - 1];
        GreedyStaysAhead(head, groups[..n] + [start], cap);
        ExtendedGroup(Pack(head, cap), groups[..n], start, part, cap);
        assert groups == groups[..n] + [start + [part]];
      }
    }
  }

  /** The grouping that remains when the last part is taken away. */
  lemma WithoutLastPart(parts: seq<string>, groups: seq<seq<string>>, cap: nat)
    requires Grouping(groups, parts, cap) && groups != []
    ensures parts != [] && groups[|groups| - 1][|groups[|groups| - 1]| - 1] == parts[|parts| - 1]
    ensures var n := |groups| - 1;
            if |groups[n]| == 1
            then Grouping(groups[..n], parts[..|parts| - 1], cap) && groups == groups[..n] + [[parts[|parts| - 1]]]
            else && Grouping(groups[..n] + [groups[n][..|groups[n]| - 1]], parts[..|parts| - 1], cap)
                 && groups[n] == groups[n][..|groups[n]| - 1] + [parts[|parts| - 1]]
  {
    var n := |groups| - 1;
    var g := groups[n];
    assert parts == Concat(groups[..n]) + g;
    if |g| == 1 {
      assert Concat(groups[..n]) == parts[..|parts| - 1];
      assert g == [parts[|parts| - 1]];
    } else {
      var start := g[..|g| - 1];
      assert g == start + [g[|g| - 1]];
      ConcatLast(start, g[|g| - 1]);
      ConcatLast(groups[..n], start);
      assert Concat(groups[..n] + [start]) == parts[..|parts| - 1];
    }
  }

  lemma OpenedGroup(packed: seq<string>, groups: seq<seq<string>>, part: string, cap: nat)
    requires Ahead(packed, groups)
    ensures Ahead(PackOne(packed, part, cap), groups + [[part]])
  {
    ConcatLast([], part);
    assert [] + [part] == [part];
  }

  lemma ExtendedGroup(packed: seq<string>, before: seq<seq<string>>, start: seq<string>, part: string, cap: nat)
    requires Ahead(packed, before + [start]) && |Concat(start + [part])| <= cap
    ensures Ahead(PackOne(packed, part, cap), before + [start + [part]])
  {
    LastGroup(before, start);
    LastGroup(before, start + [part]);
    ConcatLast(start, part);
    GrownLast(packed, |Concat(start)|, part, |before| + 1, cap, before + [start + [part]]);
  }

  lemma LastGroup(before: seq<seq<string>>, last: seq<string>)
    ensures LastGroupLength(before + [last]) == |Concat(last)|
  {
    assert (before + [last])[|before|] == last;
  }

  lemma GrownLast(packed: seq<string>, room: nat, part: string, n: nat, cap: nat, groups: seq<seq<string>>)
    requires |packed| < n || (|packed| == n && LastLength(packed) <= room)
    requires n >= 1 && room + |part| <= cap && |groups| == n && LastGroupLength(groups) == room + |part|
    ensures Ahead(PackOne(packed, part, cap), groups)
  {
  }

  /** No other contiguous grouping of the same parts within the cap has fewer segments. */
  lemma PackIsOptimal(parts: seq<string>, groups: seq<seq<string>>, cap: nat)
    requires Fits(parts, cap) && Grouping(groups, parts, cap)
    ensures |Pack(parts, cap)| <= |groups|
  {
    GreedyStaysAhead(parts, groups, cap);
  }

  /** `n` segments mean a text of at least `floor(n / 2) * (cap + 1)` characters. */
  lemma {:induction false} SegmentsNeedLength(segments: seq<string>, cap: nat)
    requires NeighboursExceed(segments, cap)
    ensures |segments| / 2 * (cap + 1) <= |Concat(segments)|
    decreases |segments|
  {
    if |segments| >= 2 {
      var n := |segments|;
      SegmentsNeedLength(segments[..n - 2], cap);
      TwoMore(segments[..n - 2], segments[n - 2], segments[n - 1]);
      assert segments[..n - 2] + [segments[n - 2], segments[n - 1]] == segments;
      HalfStep(n, cap + 1);
    }
  }

  lemma TwoMore(before: seq<string>, a: string, b: string)
    ensures |Concat(before + [a, b])| == |Concat(before)| + |a| + |b|
  {
    ConcatLast(before, a);
    ConcatLast(before + [a], b);
    assert before + [a] + [b] == before + [a, b];
  }

  lemma HalfStep(n: nat, width: nat)
    requires n >= 2
    ensures n / 2 * width == (n - 2) / 2 * width + width
  {
    assert n / 2 == (n - 2) / 2 + 1;
  }

  // ----- the loop -----

  /** Each segment sits in the text at its offset, and the segments follow each other without a gap. */
  ghost predicate Placed(segments: seq<Segment>, texts: seq<string>, text: string) {
    && |segments| == |texts|
    && (forall i :: 0 <= i < |segments| ==> segments[i].text == texts[i] && segments[i].offset == |Concat(texts[..i])|)
    && (forall i :: 0 <= i < |segments| ==> SitsAt(text, segments[i].offset, texts[i]))
  }

  predicate SitsAt(text: string, offset: nat, piece: string) {
    offset + |piece| <= |text| && text[offset..offset + |piece|] == piece
  }

  method SegmentText(text: string, chunks: seq<string>, cap: nat := SPACY_MAX_SEGMENT_CHARS) returns (segments: seq<Segment>, ghost texts: seq<string>)
    requires cap >= 1 && Concat(chunks) == text && AllNonEmpty(chunks)
    ensures texts == Pack(Parts(chunks, cap), cap)
    ensures Concat(texts) == text && Fits(texts, cap) && NeighboursExceed(texts, cap)
    ensures Placed(segments, texts, text)
    ensures |segments| / 2 * (cap + 1) <= |text|
  {
    var parts := SplitChunks(chunks, cap);
    var packed := PackParts(parts, cap);
    texts := packed;
    PartsConcat(chunks, cap);
    PackPartitions(parts, cap);
    SegmentsNeedLength(texts, cap);
    segments := PlaceSegments(packed);
  }

  method PackParts(parts: seq<string>, cap: nat) returns (packed: seq<string>)
    ensures packed == Pack(parts, cap)
  {
    packed := [];
    for n := 0 to |parts|
      invariant packed == Pack(parts[..n], cap)
    {
      var part := parts[n];
      if packed != [] && |packed[|packed| - 1]| + |part| <= cap {
        packed := packed[..|packed| - 1] + [packed[|packed| - 1] + part];
      } else {
        packed := packed + [part];
      }
      assert parts[..n + 1][..n] == parts[..n];
    }
    assert parts[..|parts|] == parts;
  }

  method PlaceSegments(texts: seq<string>) returns (segments: seq<Segment>)
    ensures Placed(segments, texts, Concat(texts))
  {
    segments := [];
    var offset := 0;
    for n := 0 to |texts|
      invariant |segments| == n && offset == |Concat(texts[..n])|
      invariant forall i :: 0 <= i < n ==> segments[i] == Segment(|Concat(texts[..i])|, texts[i])
    {
      segments := segments + [Segment(offset, texts[n])];
      assert texts[..n + 1][..n] == texts[..n];
      offset := offset + |texts[n]|;
    }
    forall i | 0 <= i < |segments|
      ensures SitsAt(Concat(texts), segments[i].offset, texts[i])
    {
      PieceInPlace(texts, i);
    }
  }

  lemma PieceInPlace(texts: seq<string>, i: nat)
    requires i < |texts|
    ensures SitsAt(Concat(texts), |Concat(texts[..i])|, texts[i])
  {
    assert texts == texts[..i] + ([texts[i]] + texts[i + 1..]);
    ConcatAppend(texts[..i], [texts[i]] + texts[i + 1..]);
    ConcatCons(texts[i], texts[i + 1..]);
  }

  method SplitChunks(chunks: seq<string>, cap: nat) returns (parts: seq<string>)
    requires cap >= 1 && AllNonEmpty(chunks)
    ensures parts == Parts(chunks, cap)
  {
    parts := [];
    for n := 0 to |chunks|
      invariant parts == Parts(chunks[..n], cap)
    {
      var chunk := chunks[n];
      ghost var before := parts;
      while |chunk| > cap
        invariant parts + HardParts(chunk, cap) == before + HardParts(chunks[n], cap)
        decreases |chunk|
      {
        var cut := Cut(chunk, cap);
        parts := parts + [chunk[..cut]];
        chunk := chunk[cut..];
      }
      parts := parts + [chunk];
      assert chunks[..n + 1][..n] == chunks[..n];
    }
    assert chunks[..|chunks|] == chunks;
  }

  /** A span found in a segment, shifted by the segment's offset, is the same span of the text. */
  lemma ShiftedSpan(segments: seq<Segment>, texts: seq<string>, text: string, i: nat, from: nat, to: nat)
    requires Placed(segments, texts, text) && i < |segments| && from <= to <= |segments[i].text|
    ensures segments[i].offset + to <= |text|
    ensures text[segments[i].offset + from..segments[i].offset + to] == segments[i].text[from..to]
  {
    var o := segments[i].offset;
    assert SitsAt(text, o, texts[i]);
    SliceOfSlice(text, o, |texts[i]|, from, to);
  }

  lemma SliceOfSlice(text: string, o: nat, n: nat, from: nat, to: nat)
    requires from <= to <= n && o + n <= |text|
    ensures text[o..o + n][from..to] == text[o + from..o + to]
  {
    var a, b := text[o..o + n][from..to], text[o + from..o + to];
    forall i | 0 <= i < to - from ensures a[i] == b[i] {
      assert a[i] == text[o..o + n][from + i];
    }
    assert a == b;
  }

  // ----- where the pieces are cut -----

  /** Of a text longer than the cap: after the last space of the last quarter of its first `cap` characters, or
      at the cap if there is none. */
  ghost predicate CutHere(rest: string, cap: nat, cut: nat) {
    && cap < |rest| && 0 < cut <= cap
    && (forall i :: cut <= i < cap && 3 * cap / 4 <= i ==> rest[i] != ' ')
    && (cut == cap || rest[cut - 1] == ' ')
    && (cut < cap ==> 3 * cap / 4 < cut)
  }

  /** Part j but the last ends where what is left of the chunk has to be cut; the last is what then fits. */
  ghost predicate PartCut(chunk: string, cap: nat, parts: seq<string>, j: nat)
    requires j < |parts|
  {
    var start := |Concat(parts[..j])|;
    && start <= |chunk|
    && (j + 1 < |parts| ==> CutHere(chunk[start..], cap, |parts[j]|))
    && (j + 1 == |parts| ==> parts[j] == chunk[start..] && |parts[j]| <= cap)
  }

  lemma PartCutLater(chunk: string, cap: nat, cut: nat, rest: seq<string>, j: nat)
    requires cut <= |chunk| && j < |rest| && PartCut(chunk[cut..], cap, rest, j)
    ensures PartCut(chunk, cap, [chunk[..cut]] + rest, j + 1)
  {
    var parts := [chunk[..cut]] + rest;
    var start := |Concat(rest[..j])|;
    assert parts[..j + 1] == [chunk[..cut]] + rest[..j];
    ConcatCons(chunk[..cut], rest[..j]);
    assert chunk[cut..][start..] == chunk[cut + start..];
    assert parts[j + 1] == rest[j];
  }

  lemma PartCutFirst(chunk: string, cap: nat, rest: seq<string>)
    requires cap >= 1 && |chunk| > cap && rest != []
    ensures PartCut(chunk, cap, [chunk[..Cut(chunk, cap)]] + rest, 0)
  {
    CutPlace(chunk, cap);
    assert ([chunk[..Cut(chunk, cap)]] + rest)[..0] == [] && chunk[0..] == chunk;
  }

  lemma {:induction false} HardPartsCut(chunk: string, cap: nat, j: nat)
    requires cap >= 1 && j < |HardParts(chunk, cap)|
    ensures PartCut(chunk, cap, HardParts(chunk, cap), j)
    decreases |chunk|
  {
    if |chunk| > cap {
      var cut := Cut(chunk, cap);
      var rest := HardParts(chunk[cut..], cap);
      assert HardParts(chunk, cap) == [chunk[..cut]] + rest;
      if j == 0 {
        PartCutFirst(chunk, cap, rest);
      } else {
        HardPartsCut(chunk[cut..], cap, j - 1);
        PartCutLater(chunk, cap, cut, rest, j - 1);
      }
    } else {
      assert HardParts(chunk, cap)[..0] == [] && chunk[0..] == chunk;
    }
  }
}
