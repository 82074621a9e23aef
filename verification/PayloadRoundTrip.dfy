/** What the parsing loops read in a payload: the records of a list, in order, each with the values its
    fields say. */
module PayloadRoundTrip {
  import opened Prelude
  import opened LlmAccounting

  // ----- strings -----

  ghost predicate Blank(s: string) {
    forall i :: 0 <= i < |s| ==> Space(s[i])
  }

  ghost predicate Trim(s: string) {
    s == "" || (!Space(s[0]) && !Space(s[|s| - 1]))
  }

  /** `raw` is `s` with nothing but spaces around it. */
  ghost predicate Padded(raw: string, s: string) {
    Trim(s) && exists a, b :: Blank(a) && Blank(b) && raw == a + s + b
  }

  lemma {:induction false} StripLeftPadded(s: string) returns (front: string)
    ensures Blank(front) && s == front + StripLeft(s)
    ensures StripLeft(s) != "" ==> !Space(StripLeft(s)[0])
  {
    if s != [] && Space(s[0]) {
      var rest := StripLeftPadded(s[1..]);
      front := [s[0]] + rest;
      assert s == [s[0]] + s[1..];
    } else {
      front := "";
    }
  }

  /** Stripping takes spaces away at the ends, all of them, and nothing else. */
  lemma {:induction false} StripPadded(s: string)
    ensures Padded(s, Strip(s))
  {
    StripNotBlank(s);
    if s != [] && Space(s[|s| - 1]) {
      var head := s[..|s| - 1];
      StripPadded(head);
      var a, b :| Blank(a) && Blank(b) && head == a + Strip(head) + b;
      assert s == a + Strip(s) + (b + [s[|s| - 1]]);
      assert Blank(b + [s[|s| - 1]]);
    } else {
      var a := StripLeftPadded(s);
      assert s == a + Strip(s) + "" && Blank("");
    }
  }

  /** Where what is kept begins and ends in `raw`. */
  ghost predicate Kept(raw: string, from: nat, to: nat) {
    && from < to <= |raw| && !Space(raw[from]) && !Space(raw[to - 1])
    && (forall k :: 0 <= k < from ==> Space(raw[k])) && (forall k :: to <= k < |raw| ==> Space(raw[k]))
  }

  lemma PaddedKept(raw: string, s: string) returns (from: nat, to: nat)
    requires Padded(raw, s) && s != ""
    ensures Kept(raw, from, to) && raw[from..to] == s
  {
    var a, b :| Blank(a) && Blank(b) && raw == a + s + b;
    from, to := |a|, |a| + |s|;
    assert raw[from] == s[0] && raw[to - 1] == s[|s| - 1];
  }

  lemma PaddedOnce(raw: string, s: string, t: string)
    requires Padded(raw, s) && Padded(raw, t)
    ensures s == t
  {
    if s != "" {
      var from, to := PaddedKept(raw, s);
      if t != "" {
        var from', to' := PaddedKept(raw, t);
        assert from == from' && to == to';
      } else {
        NothingKept(raw);
      }
    } else if t != "" {
      var from, to := PaddedKept(raw, t);
      NothingKept(raw);
    }
  }

  lemma NothingKept(raw: string)
    requires Padded(raw, "")
    ensures Blank(raw)
  {
  }

  lemma PaddedIff(raw: string, s: string)
    ensures Padded(raw, s) <==> Strip(raw) == s
  {
    StripPadded(raw);
    if Padded(raw, s) {
      PaddedOnce(raw, s, Strip(raw));
    }
  }

  /** `upper` is `s` with its small letters made capital ones. */
  ghost predicate CapitalsOf(upper: string, s: string) {
    && |upper| == |s|
    && forall i :: 0 <= i < |s| ==> upper[i] as int == if 'a' <= s[i] <= 'z' then s[i] as int - 32 else s[i] as int
  }

  /** `lower` is `s` with its capital letters made small ones. */
  ghost predicate SmallsOf(lower: string, s: string) {
    && |lower| == |s|
    && forall i :: 0 <= i < |s| ==> lower[i] as int == if 'A' <= s[i] <= 'Z' then s[i] as int + 32 else s[i] as int
  }

  lemma CapitalsIff(upper: string, s: string)
    ensures CapitalsOf(upper, s) <==> Upper(s) == upper
  {
    var u := Upper(s);
    assert forall i :: 0 <= i < |s| ==> u[i] as int == if 'a' <= s[i] <= 'z' then s[i] as int - 32 else s[i] as int;
    if CapitalsOf(upper, s) {
      assert forall i :: 0 <= i < |s| ==> u[i] as int == upper[i] as int;
    }
  }

  lemma SmallsIff(lower: string, s: string)
    ensures SmallsOf(lower, s) <==> Casefold(s) == lower
  {
    var u := Casefold(s);
    assert forall i :: 0 <= i < |s| ==> u[i] as int == if 'A' <= s[i] <= 'Z' then s[i] as int + 32 else s[i] as int;
    if SmallsOf(lower, s) {
      assert forall i :: 0 <= i < |s| ==> u[i] as int == lower[i] as int;
    }
  }

  // ----- what a record says -----

  /** The field, its outer spaces apart; a missing one reads as empty, one that is no string as its `str()`. */
  ghost predicate Reads(item: Json, key: string, s: string, c: Config) {
    && item.Object?
    && if key !in item.fields then s == ""
       else if item.fields[key].Text? then Padded(item.fields[key].chars, s)
       else Padded(c.repr(item.fields[key]), s)
  }

  lemma ReadsIff(item: Json, key: string, s: string, c: Config)
    requires item.Object?
    ensures Reads(item, key, s, c) <==> Field(item, key, c) == s
  {
    if key in item.fields {
      PaddedIff(Str(item.fields[key], c), s);
    }
  }

  /** The field read as a type name. */
  ghost predicate Types(item: Json, key: string, kind: string, c: Config) {
    exists raw :: Reads(item, key, raw, c) && CapitalsOf(kind, raw)
  }

  lemma TypesIff(item: Json, key: string, kind: string, c: Config)
    requires item.Object?
    ensures Types(item, key, kind, c) <==> Upper(Field(item, key, c)) == kind
  {
    var raw := Field(item, key, c);
    ReadsIff(item, key, raw, c);
    CapitalsIff(kind, raw);
    if other :| Reads(item, key, other, c) && CapitalsOf(kind, other) {
      ReadsIff(item, key, other, c);
    }
  }

  /** The record of a relation: a configured type, two endpoints that are not blank, a text that may be. */
  ghost predicate SaysRelation(item: Json, r: Relation, c: Config) {
    && item.Object? && r.kind in c.relationTypes && r.origin != "" && r.destination != ""
    && Types(item, "type", r.kind, c)
    && Reads(item, "origin", r.origin, c) && Reads(item, "destination", r.destination, c) && Reads(item, "text", r.text, c)
  }

  /** The legacy record: its subject is the origin, its object the destination; there is no text. */
  ghost predicate SaysLegacy(item: Json, r: Relation, c: Config) {
    && item.Object? && r.kind in c.relationTypes && r.origin != "" && r.destination != "" && r.text == ""
    && Types(item, "relation_type", r.kind, c)
    && Reads(item, "subject", r.origin, c) && Reads(item, "object", r.destination, c)
  }

  /** The record of a concept: a text that is not blank, its folded form, and CONCEPT for a type that is
      not configured. */
  ghost predicate SaysConcept(item: Json, x: Concept, c: Config) {
    && item.Object? && x.text != "" && Reads(item, "text", x.text, c) && SmallsOf(x.norm, x.text)
    && exists kind :: Types(item, "type", kind, c) && x.kind == if kind in c.conceptTypes then kind else "CONCEPT"
  }

  lemma SaysRelationIff(item: Json, r: Relation, c: Config)
    ensures SaysRelation(item, r, c) <==> RelationKept(item, c) && ToRelation(item, c) == r
  {
    if item.Object? {
      TypesIff(item, "type", r.kind, c);
      ReadsIff(item, "origin", r.origin, c);
      ReadsIff(item, "destination", r.destination, c);
      ReadsIff(item, "text", r.text, c);
    }
  }

  lemma SaysLegacyIff(item: Json, r: Relation, c: Config)
    ensures SaysLegacy(item, r, c) <==> LegacyKept(item, c) && FromLegacy(item, c) == r
  {
    if item.Object? {
      TypesIff(item, "relation_type", r.kind, c);
      ReadsIff(item, "subject", r.origin, c);
      ReadsIff(item, "object", r.destination, c);
    }
  }

  lemma SaysConceptIff(item: Json, x: Concept, c: Config)
    ensures SaysConcept(item, x, c) <==> ConceptKept(item, c) && ToConcept(item, c) == x
  {
    if item.Object? {
      ReadsIff(item, "text", x.text, c);
      SmallsIff(x.norm, x.text);
      var kind := Upper(Field(item, "type", c));
      TypesIff(item, "type", kind, c);
      if other :| Types(item, "type", other, c) && x.kind == if other in c.conceptTypes then other else "CONCEPT" {
        TypesIff(item, "type", other, c);
      }
    }
  }

  // ----- whole lists -----

  /** The values present, in order. */
  function Somes<T>(os: seq<Option<T>>): seq<T> {
    if os == [] then [] else Somes(os[..|os| - 1]) + (if os[|os| - 1].Some? then [os[|os| - 1].value] else [])
  }

  /** The record says exactly this, or nothing. */
  ghost predicate RelationAt(item: Json, o: Option<Relation>, c: Config) {
    if o.Some? then SaysRelation(item, o.value, c) else forall x :: !SaysRelation(item, x, c)
  }

  lemma RelationAtMeans(item: Json, o: Option<Relation>, c: Config)
    requires RelationAt(item, o, c)
    ensures o == if RelationKept(item, c) then Some(ToRelation(item, c)) else None
  {
    if o.Some? {
      SaysRelationIff(item, o.value, c);
    } else if RelationKept(item, c) {
      SaysRelationIff(item, ToRelation(item, c), c);
    }
  }

  lemma {:induction false} RelationsTold(items: seq<Json>, os: seq<Option<Relation>>, c: Config)
    requires |os| == |items| && forall i :: 0 <= i < |items| ==> RelationAt(items[i], os[i], c)
    ensures Relations(items, c) == Somes(os)
  {
    if items != [] {
      var last := |items| - 1;
      RelationsTold(items[..last], os[..last], c);
      RelationAtMeans(items[last], os[last], c);
    }
  }

  /** The record says exactly this, or nothing. */
  ghost predicate LegacyAt(item: Json, o: Option<Relation>, c: Config) {
    if o.Some? then SaysLegacy(item, o.value, c) else forall x :: !SaysLegacy(item, x, c)
  }

  lemma LegacyAtMeans(item: Json, o: Option<Relation>, c: Config)
    requires LegacyAt(item, o, c)
    ensures o == if LegacyKept(item, c) then Some(FromLegacy(item, c)) else None
  {
    if o.Some? {
      SaysLegacyIff(item, o.value, c);
    } else if LegacyKept(item, c) {
      SaysLegacyIff(item, FromLegacy(item, c), c);
    }
  }

  lemma {:induction false} LegacyRelationsTold(items: seq<Json>, os: seq<Option<Relation>>, c: Config)
    requires |os| == |items| && forall i :: 0 <= i < |items| ==> LegacyAt(items[i], os[i], c)
    ensures LegacyRelations(items, c) == Somes(os)
  {
    if items != [] {
      var last := |items| - 1;
      LegacyRelationsTold(items[..last], os[..last], c);
      LegacyAtMeans(items[last], os[last], c);
    }
  }

  /** The record says exactly this, or nothing. */
  ghost predicate ConceptAt(item: Json, o: Option<Concept>, c: Config) {
    if o.Some? then SaysConcept(item, o.value, c) else forall x :: !SaysConcept(item, x, c)
  }

  lemma ConceptAtMeans(item: Json, o: Option<Concept>, c: Config)
    requires ConceptAt(item, o, c)
    ensures o == if ConceptKept(item, c) then Some(ToConcept(item, c)) else None
  {
    if o.Some? {
      SaysConceptIff(item, o.value, c);
    } else if ConceptKept(item, c) {
      SaysConceptIff(item, ToConcept(item, c), c);
    }
  }

  lemma {:induction false} ConceptsTold(items: seq<Json>, os: seq<Option<Concept>>, c: Config)
    requires |os| == |items| && forall i :: 0 <= i < |items| ==> ConceptAt(items[i], os[i], c)
    ensures Concepts(items, c) == Somes(os)
  {
    if items != [] {
      var last := |items| - 1;
      ConceptsTold(items[..last], os[..last], c);
      ConceptAtMeans(items[last], os[last], c);
    }
  }

  // ----- a payload written out and parsed again -----

  function RelationRecord(r: Relation): Json {
    Object(map["type" := Text(r.kind), "origin" := Text(r.origin), "destination" := Text(r.destination), "text" := Text(r.text)])
  }

  function ConceptRecord(x: Concept): Json {
    Object(map["type" := Text(x.kind), "text" := Text(x.text)])
  }

  function LegacyRecord(r: Relation): Json {
    Object(map["subject" := Text(r.origin), "relation_type" := Text(r.kind), "object" := Text(r.destination)])
  }

  /** Stripped fields, a capital configured type, endpoints that are not empty. */
  ghost predicate CleanRelation(r: Relation, c: Config) {
    && r.kind in c.relationTypes && CapitalsOf(r.kind, r.kind) && Trim(r.kind)
    && r.origin != "" && r.destination != "" && Trim(r.origin) && Trim(r.destination) && Trim(r.text)
  }

  ghost predicate CleanConcept(x: Concept, c: Config) {
    && (x.kind in c.conceptTypes || x.kind == "CONCEPT") && CapitalsOf(x.kind, x.kind) && Trim(x.kind)
    && x.text != "" && Trim(x.text) && SmallsOf(x.norm, x.text)
  }

  lemma ReadsText(item: Json, key: string, s: string, c: Config)
    requires item.Object? && key in item.fields && item.fields[key] == Text(s) && Trim(s)
    ensures Reads(item, key, s, c)
  {
    assert s == "" + s + "" && Blank("");
  }

  lemma KeysDiffer()
    ensures "type" != "text" && "origin" != "destination" && "type" != "origin" && "type" != "destination"
    ensures "text" != "origin" && "text" != "destination"
    ensures "subject" != "relation_type" && "subject" != "object" && "relation_type" != "object"
  {
    assert "type"[1] != "text"[1] && "type"[0] != "origin"[0] && "type"[0] != "destination"[0];
    assert "origin"[0] != "destination"[0] && "text"[0] != "origin"[0] && "text"[0] != "destination"[0];
    assert "subject"[0] != "relation_type"[0] && "subject"[0] != "object"[0] && "relation_type"[0] != "object"[0];
  }

  lemma RelationRecordSays(r: Relation, c: Config)
    requires CleanRelation(r, c)
    ensures RelationAt(RelationRecord(r), Some(r), c)
  {
    var item := RelationRecord(r);
    KeysDiffer();
    ReadsText(item, "type", r.kind, c);
    ReadsText(item, "origin", r.origin, c);
    ReadsText(item, "destination", r.destination, c);
    ReadsText(item, "text", r.text, c);
  }

  lemma LegacyRecordSays(r: Relation, c: Config)
    requires CleanRelation(r, c) && r.text == ""
    ensures LegacyAt(LegacyRecord(r), Some(r), c)
  {
    var item := LegacyRecord(r);
    KeysDiffer();
    ReadsText(item, "relation_type", r.kind, c);
    ReadsText(item, "subject", r.origin, c);
    ReadsText(item, "object", r.destination, c);
  }

  lemma ConceptRecordSays(x: Concept, c: Config)
    requires CleanConcept(x, c)
    ensures ConceptAt(ConceptRecord(x), Some(x), c)
  {
    var item := ConceptRecord(x);
    KeysDiffer();
    ReadsText(item, "type", x.kind, c);
    ReadsText(item, "text", x.text, c);
    assert Types(item, "type", x.kind, c);
  }

  lemma {:induction false} SomesAll<T>(xs: seq<T>, os: seq<Option<T>>)
    requires |os| == |xs| && forall i :: 0 <= i < |xs| ==> os[i] == Some(xs[i])
    ensures Somes(os) == xs
  {
    if xs != [] {
      SomesAll(xs[..|xs| - 1], os[..|xs| - 1]);
    }
  }

  function Written(concepts: seq<Concept>, relations: seq<Relation>): Json {
    Object(map[
      "concepts" := List(seq(|concepts|, i requires 0 <= i < |concepts| => ConceptRecord(concepts[i]))),
      "relations" := List(seq(|relations|, i requires 0 <= i < |relations| => RelationRecord(relations[i])))])
  }

  /** The object that lists clean concepts and relations parses to exactly those, in their order. */
  lemma ParseRoundTrip(concepts: seq<Concept>, relations: seq<Relation>, c: Config)
    requires forall i :: 0 <= i < |concepts| ==> CleanConcept(concepts[i], c)
    requires forall i :: 0 <= i < |relations| ==> CleanRelation(relations[i], c)
    ensures ParsedConcepts(Some(Written(concepts, relations)), c) == concepts
    ensures ParsedRelations(Some(Written(concepts, relations)), c) == relations
  {
    assert "concepts"[0] != "relations"[0];
    var ci := seq(|concepts|, i requires 0 <= i < |concepts| => ConceptRecord(concepts[i]));
    var ri := seq(|relations|, i requires 0 <= i < |relations| => RelationRecord(relations[i]));
    assert ItemsOf(Written(concepts, relations), "concepts") == ci;
    assert ItemsOf(Written(concepts, relations), "relations") == ri;
    ConceptsWritten(concepts, ci, c);
    RelationsWritten(relations, ri, c);
  }

  lemma ConceptsWritten(concepts: seq<Concept>, items: seq<Json>, c: Config)
    requires |items| == |concepts| && forall i :: 0 <= i < |items| ==> CleanConcept(concepts[i], c) && items[i] == ConceptRecord(concepts[i])
    ensures Concepts(items, c) == concepts
  {
    var os := seq(|concepts|, i requires 0 <= i < |concepts| => Some(concepts[i]));
    forall i | 0 <= i < |items| ensures ConceptAt(items[i], os[i], c) {
      ConceptRecordSays(concepts[i], c);
    }
    ConceptsTold(items, os, c);
    SomesAll(concepts, os);
  }

  lemma RelationsWritten(relations: seq<Relation>, items: seq<Json>, c: Config)
    requires |items| == |relations| && forall i :: 0 <= i < |items| ==> CleanRelation(relations[i], c) && items[i] == RelationRecord(relations[i])
    ensures Relations(items, c) == relations
  {
    var os := seq(|relations|, i requires 0 <= i < |relations| => Some(relations[i]));
    forall i | 0 <= i < |items| ensures RelationAt(items[i], os[i], c) {
      RelationRecordSays(relations[i], c);
    }
    RelationsTold(items, os, c);
    SomesAll(relations, os);
  }

  /** So does the legacy list of clean relations without text: the subject is the origin. */
  lemma LegacyRoundTrip(relations: seq<Relation>, c: Config)
    requires forall i :: 0 <= i < |relations| ==> CleanRelation(relations[i], c) && relations[i].text == ""
    ensures ParsedRelations(Some(List(seq(|relations|, i requires 0 <= i < |relations| => LegacyRecord(relations[i])))), c) == relations
  {
    var items := seq(|relations|, i requires 0 <= i < |relations| => LegacyRecord(relations[i]));
    var os := seq(|relations|, i requires 0 <= i < |relations| => Some(relations[i]));
    forall i | 0 <= i < |items| ensures LegacyAt(items[i], os[i], c) {
      LegacyRecordSays(relations[i], c);
    }
    LegacyRelationsTold(items, os, c);
    SomesAll(relations, os);
  }

  // ----- the concepts of a legacy list -----

  /** The name an optional type field gives; a missing or falsy one gives the empty name. */
  ghost predicate NamesType(item: Json, key: string, name: string, c: Config) {
    && item.Object?
    && if key in item.fields && Truthy(item.fields[key]) then Types(item, key, name, c) else name == ""
  }

  lemma NamesTypeIff(item: Json, key: string, name: string, c: Config)
    requires item.Object?
    ensures NamesType(item, key, name, c)
       <==> name == Upper(Strip(if key in item.fields && Truthy(item.fields[key]) then Str(item.fields[key], c) else ""))
  {
    if key in item.fields && Truthy(item.fields[key]) {
      TypesIff(item, key, name, c);
    }
  }

  /** The concept type it stands for: a name that is not configured stands for CONCEPT. */
  ghost predicate EndType(item: Json, key: string, kind: string, c: Config) {
    exists name :: NamesType(item, key, name, c) && kind == if name in c.conceptTypes then name else "CONCEPT"
  }

  lemma EndTypeIff(item: Json, key: string, kind: string, c: Config)
    requires item.Object?
    ensures EndType(item, key, kind, c) <==> LegacyType(item, key, c) == kind
  {
    var name := Upper(Strip(if key in item.fields && Truthy(item.fields[key]) then Str(item.fields[key], c) else ""));
    NamesTypeIff(item, key, name, c);
    if EndType(item, key, kind, c) {
      var n :| NamesType(item, key, n, c) && kind == if n in c.conceptTypes then n else "CONCEPT";
      NamesTypeIff(item, key, n, c);
    }
  }

  /** The concepts at the two ends of a legacy record. */
  ghost predicate SaysEnds(item: Json, s: Concept, o: Concept, c: Config) {
    && (exists kind :: SaysLegacy(item, Relation(kind, s.text, o.text, ""), c))
    && EndType(item, "subject_type", s.kind, c) && SmallsOf(s.norm, s.text)
    && EndType(item, "object_type", o.kind, c) && SmallsOf(o.norm, o.text)
  }

  lemma SaysEndsMeans(item: Json, s: Concept, o: Concept, c: Config, before: seq<Concept>)
    requires SaysEnds(item, s, o, c)
    ensures LegacyKept(item, c) && Endpoints(before, item, c) == SetDefault(SetDefault(before, s), o)
  {
    var kind :| SaysLegacy(item, Relation(kind, s.text, o.text, ""), c);
    SaysLegacyIff(item, Relation(kind, s.text, o.text, ""), c);
    EndTypeIff(item, "subject_type", s.kind, c);
    EndTypeIff(item, "object_type", o.kind, c);
    SmallsIff(s.norm, s.text);
    SmallsIff(o.norm, o.text);
  }

  /** The record names these two ends, or says no relation at all. */
  ghost predicate EndsAt(item: Json, ends: Option<(Concept, Concept)>, c: Config) {
    if ends.Some? then SaysEnds(item, ends.value.0, ends.value.1, c) else forall r :: !SaysLegacy(item, r, c)
  }

  function AllEnds(es: seq<Option<(Concept, Concept)>>): seq<Concept> {
    if es == [] then [] else
      var head, last := AllEnds(es[..|es| - 1]), es[|es| - 1];
      if last.Some? then head + [last.value.0] + [last.value.1] else head
  }

  /** `kept` lists, in order, those concepts of `all` whose norm no earlier one has. */
  ghost predicate FirstOfEachNorm(all: seq<Concept>, kept: seq<Concept>, places: seq<nat>) {
    && |places| == |kept|
    && (forall k :: 0 <= k < |kept| ==> FirstAt(all, kept[k], places[k]))
    && (forall i, k :: 0 <= i < k < |places| ==> places[i] < places[k])
    && (forall j :: 0 <= j < |all| ==> HasNorm(kept, all[j].norm))
  }

  ghost predicate FirstAt(all: seq<Concept>, x: Concept, place: nat) {
    place < |all| && all[place] == x && NormUnseen(all[..place], x.norm)
  }

  ghost predicate NormUnseen(concepts: seq<Concept>, norm: string) {
    forall i :: 0 <= i < |concepts| ==> concepts[i].norm != norm
  }

  lemma FirstAtStays(all: seq<Concept>, x: Concept, place: nat, next: Concept)
    requires FirstAt(all, x, place)
    ensures FirstAt(all + [next], x, place)
  {
    assert (all + [next])[..place] == all[..place];
  }

  lemma HasNormStays(kept: seq<Concept>, norm: string, x: Concept)
    requires HasNorm(kept, norm) || x.norm == norm
    ensures HasNorm(kept + [x], norm)
  {
    var more := kept + [x];
    assert more[|kept|].norm == x.norm;
    if i :| 0 <= i < |kept| && kept[i].norm == norm {
      assert more[i].norm == norm;
    }
  }

  lemma FirstsPush(all: seq<Concept>, kept: seq<Concept>, places: seq<nat>, x: Concept) returns (more: seq<nat>)
    requires FirstOfEachNorm(all, kept, places)
    ensures FirstOfEachNorm(all + [x], SetDefault(kept, x), more)
  {
    forall k | 0 <= k < |kept| ensures FirstAt(all + [x], kept[k], places[k]) {
      FirstAtStays(all, kept[k], places[k], x);
    }
    if HasNorm(kept, x.norm) {
      more := places;
    } else {
      more := places + [|all|];
      assert FirstAt(all + [x], x, |all|) by {
        assert (all + [x])[..|all|] == all;
      }
      forall j | 0 <= j < |all + [x]| ensures HasNorm(kept + [x], (all + [x])[j].norm) {
        HasNormStays(kept, (all + [x])[j].norm, x);
      }
    }
  }

  lemma EndsPush(all: seq<Concept>, kept: seq<Concept>, places: seq<nat>, s: Concept, o: Concept) returns (more: seq<nat>)
    requires FirstOfEachNorm(all, kept, places)
    ensures FirstOfEachNorm(all + [s] + [o], SetDefault(SetDefault(kept, s), o), more)
  {
    var middle := FirstsPush(all, kept, places, s);
    more := FirstsPush(all + [s], SetDefault(kept, s), middle, o);
  }

  /** A legacy list yields the concepts at the ends of its relations, subject before object: of those with
      one norm the first. */
  lemma {:induction false} LegacyConceptsTold(items: seq<Json>, es: seq<Option<(Concept, Concept)>>, c: Config) returns (places: seq<nat>)
    requires |es| == |items| && forall i :: 0 <= i < |items| ==> EndsAt(items[i], es[i], c)
    ensures FirstOfEachNorm(AllEnds(es), LegacyConcepts(items, c), places)
  {
    places := [];
    if items != [] {
      var last := |items| - 1;
      var head := LegacyConceptsTold(items[..last], es[..last], c);
      places := head;
      if es[last].Some? {
        var s, o := es[last].value.0, es[last].value.1;
        SaysEndsMeans(items[last], s, o, c, LegacyConcepts(items[..last], c));
        places := EndsPush(AllEnds(es[..last]), LegacyConcepts(items[..last], c), head, s, o);
      } else {
        LegacyAtMeans(items[last], None, c);
      }
    }
  }

  // ----- how many records are dropped -----

  /** The places of the records that are not kept. */
  ghost function Unkept(items: seq<Json>, kept: Json -> bool): set<nat> {
    set i: nat | i < |items| && !kept(items[i])
  }

  lemma UnkeptPush(items: seq<Json>, kept: Json -> bool)
    requires items != []
    ensures |Unkept(items, kept)| == |Unkept(items[..|items| - 1], kept)| + if kept(items[|items| - 1]) then 0 else 1
  {
    var last := |items| - 1;
    var head := Unkept(items[..last], kept);
    assert last !in head;
    assert Unkept(items, kept) == if kept(items[last]) then head else head + {last};
  }

  lemma {:induction false} UnkeptCounts(items: seq<Json>, c: Config)
    ensures |Concepts(items, c)| + |Unkept(items, j => ConceptKept(j, c))| == |items|
    ensures |Relations(items, c)| + |Unkept(items, j => RelationKept(j, c))| == |items|
    ensures |LegacyRelations(items, c)| + |Unkept(items, j => LegacyKept(j, c))| == |items|
  {
    if items != [] {
      UnkeptCounts(items[..|items| - 1], c);
      UnkeptPush(items, j => ConceptKept(j, c));
      UnkeptPush(items, j => RelationKept(j, c));
      UnkeptPush(items, j => LegacyKept(j, c));
    }
  }

  /** What a container loses: nothing if it is missing, its records that are not kept if it is a list; a
      mapping counts for its entries, at least one, and anything else for one. */
  ghost function LostIn(data: Json, key: string, kept: Json -> bool): nat
    requires data.Object?
  {
    if key !in data.fields then 0
    else match data.fields[key]
      case List(items) => |Unkept(items, kept)|
      case Object(fields) => if fields == map[] then 1 else |fields|
      case _ => 1
  }

  /** The count of dropped records is the number of candidates that were not kept. */
  lemma DroppedExactly(data: Json, c: Config)
    ensures CountDroppedItems(Some(data), |ParsedConcepts(Some(data), c)|, |ParsedRelations(Some(data), c)|)
         == match data
            case List(items) => |Unkept(items, j => LegacyKept(j, c))|
            case Object(_) => LostIn(data, "concepts", j => ConceptKept(j, c)) + LostIn(data, "relations", j => RelationKept(j, c))
            case _ => 0
  {
    match data
    case List(items) => UnkeptCounts(items, c);
    case Object(_) =>
      UnkeptCounts(ItemsOf(data, "concepts"), c);
      UnkeptCounts(ItemsOf(data, "relations"), c);
      RawMinusKept(data, "concepts", j => ConceptKept(j, c), |Concepts(ItemsOf(data, "concepts"), c)|);
      RawMinusKept(data, "relations", j => RelationKept(j, c), |Relations(ItemsOf(data, "relations"), c)|);
    case _ =>
  }

  lemma RawMinusKept(data: Json, key: string, kept: Json -> bool, n: nat)
    requires data.Object? && n + |Unkept(ItemsOf(data, key), kept)| == |ItemsOf(data, key)|
    ensures Larger(0, RawCount(data, key) - n) == LostIn(data, key, kept)
  {
    if key in data.fields && data.fields[key].Object? && data.fields[key].fields != map[] {
      assert |data.fields[key].fields| >= 1;
    }
  }
}
