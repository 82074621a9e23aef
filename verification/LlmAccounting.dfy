/** What the concept extraction keeps of a model's answer, and the gate that must not let a loss pass:
    `data` is the JSON value found in the raw text, `None` if there is none. */
module LlmAccounting {
  import opened Prelude

  datatype Json =
    | Null
    | Bool(value: bool)
    | Number(literal: string, zero: bool)
    | Text(chars: string)
    | List(items: seq<Json>)
    | Object(fields: map<string, Json>)

  /** The configured types, and `str()` of a JSON value that is not a string. */
  datatype Config = Config(conceptTypes: set<string>, relationTypes: set<string>, repr: Json -> string)

  datatype Concept = Concept(kind: string, text: string, norm: string)

  datatype Relation = Relation(kind: string, origin: string, destination: string, text: string)

  // ----- strings -----

  /** White space in Python's sense. */
  predicate Space(c: char) {
    var n := c as int;
    || 0x9 <= n <= 0xd || 0x1c <= n <= 0x20 || n == 0x85 || n == 0xa0 || n == 0x1680
    || 0x2000 <= n <= 0x200a || n == 0x2028 || n == 0x2029 || n == 0x202f || n == 0x205f || n == 0x3000
  }

  function StripLeft(s: string): string {
    if s != [] && Space(s[0]) then StripLeft(s[1..]) else s
  }

  function Strip(s: string): string {
    if s != [] && Space(s[|s| - 1]) then Strip(s[..|s| - 1]) else StripLeft(s)
  }

  /** What is kept as non-empty is not blank: it starts and ends with a character that is no space. */
  lemma {:induction false} StripNotBlank(s: string)
    ensures Strip(s) != "" ==> !Space(Strip(s)[0]) && !Space(Strip(s)[|Strip(s)| - 1])
  {
    if s != [] && Space(s[|s| - 1]) {
      StripNotBlank(s[..|s| - 1]);
    } else {
      StripLeftKeepsEnd(s);
    }
  }

  lemma {:induction false} StripLeftKeepsEnd(s: string)
    ensures StripLeft(s) != "" ==> s != "" && !Space(StripLeft(s)[0]) && StripLeft(s)[|StripLeft(s)| - 1] == s[|s| - 1]
  {
    if s != [] && Space(s[0]) {
      StripLeftKeepsEnd(s[1..]);
    }
  }

  function Upper(s: string): string {
    seq(|s|, i requires 0 <= i < |s| => if 'a' <= s[i] <= 'z' then s[i] - 'a' + 'A' else s[i])
  }

  function Casefold(s: string): string {
    seq(|s|, i requires 0 <= i < |s| => if 'A' <= s[i] <= 'Z' then s[i] - 'A' + 'a' else s[i])
  }

  function Str(j: Json, c: Config): string {
    if j.Text? then j.chars else c.repr(j)
  }

  /** `str(item.get(key, "")).strip()`. */
  function Field(item: Json, key: string, c: Config): string
    requires item.Object?
  {
    Strip(if key in item.fields then Str(item.fields[key], c) else "")
  }

  predicate Truthy(j: Json) {
    match j
    case Null => false
    case Bool(b) => b
    case Number(_, zero) => !zero
    case Text(chars) => chars != ""
    case List(items) => items != []
    case Object(fields) => fields != map[]
  }

  /** `str(item.get(key, "") or "").strip().upper()`, or CONCEPT if that is no configured type. */
  function LegacyType(item: Json, key: string, c: Config): string
    requires item.Object?
  {
    var kind := Upper(Strip(if key in item.fields && Truthy(item.fields[key]) then Str(item.fields[key], c) else ""));
    if kind in c.conceptTypes then kind else "CONCEPT"
  }

  // ----- which candidates are kept -----

  predicate ConceptKept(item: Json, c: Config) {
    item.Object? && Field(item, "text", c) != ""
  }

  function ToConcept(item: Json, c: Config): Concept
    requires item.Object?
  {
    var kind := Upper(Field(item, "type", c));
    Concept(if kind in c.conceptTypes then kind else "CONCEPT", Field(item, "text", c), Casefold(Field(item, "text", c)))
  }

  predicate RelationKept(item: Json, c: Config) {
    && item.Object?
    && Upper(Field(item, "type", c)) in c.relationTypes
    && Field(item, "origin", c) != "" && Field(item, "destination", c) != ""
  }

  function ToRelation(item: Json, c: Config): Relation
    requires item.Object?
  {
    Relation(Upper(Field(item, "type", c)), Field(item, "origin", c), Field(item, "destination", c), Field(item, "text", c))
  }

  predicate LegacyKept(item: Json, c: Config) {
    && item.Object?
    && Field(item, "subject", c) != "" && Field(item, "object", c) != ""
    && Upper(Field(item, "relation_type", c)) in c.relationTypes
  }

  function FromLegacy(item: Json, c: Config): Relation
    requires item.Object?
  {
    Relation(Upper(Field(item, "relation_type", c)), Field(item, "subject", c), Field(item, "object", c), "")
  }

  /** Whether all records of a list are kept. */
  predicate All(items: seq<Json>, kept: Json -> bool) {
    forall i :: 0 <= i < |items| ==> kept(items[i])
  }

  /** A container loses nothing: it is missing, or a list whose records are all kept. */
  ghost predicate ContainerKept(data: Json, key: string, kept: Json -> bool)
    requires data.Object?
  {
    key in data.fields ==> data.fields[key].List? && All(data.fields[key].items, kept)
  }

  /** Every candidate record of the payload was kept. */
  ghost predicate EveryCandidateKept(data: Json, c: Config) {
    match data
    case List(items) => All(items, j => LegacyKept(j, c))
    case Object(_) => ContainerKept(data, "concepts", j => ConceptKept(j, c)) && ContainerKept(data, "relations", j => RelationKept(j, c))
    case _ => true
  }

  // ----- the lenient parse -----

  function Concepts(items: seq<Json>, c: Config): seq<Concept> {
    if items == [] then [] else
      Concepts(items[..|items| - 1], c) + (if ConceptKept(items[|items| - 1], c) then [ToConcept(items[|items| - 1], c)] else [])
  }

  function Relations(items: seq<Json>, c: Config): seq<Relation> {
    if items == [] then [] else
      Relations(items[..|items| - 1], c) + (if RelationKept(items[|items| - 1], c) then [ToRelation(items[|items| - 1], c)] else [])
  }

  function LegacyRelations(items: seq<Json>, c: Config): seq<Relation> {
    if items == [] then [] else
      LegacyRelations(items[..|items| - 1], c) + (if LegacyKept(items[|items| - 1], c) then [FromLegacy(items[|items| - 1], c)] else [])
  }

  predicate HasNorm(concepts: seq<Concept>, norm: string) {
    exists i :: 0 <= i < |concepts| && concepts[i].norm == norm
  }

  /** `dict.setdefault`: the first concept with a norm stays. */
  function SetDefault(concepts: seq<Concept>, added: Concept): seq<Concept> {
    if HasNorm(concepts, added.norm) then concepts else concepts + [added]
  }

  function Endpoints(concepts: seq<Concept>, item: Json, c: Config): seq<Concept>
    requires item.Object?
  {
    var s, o := Field(item, "subject", c), Field(item, "object", c);
    SetDefault(SetDefault(concepts, Concept(LegacyType(item, "subject_type", c), s, Casefold(s))),
               Concept(LegacyType(item, "object_type", c), o, Casefold(o)))
  }

  function LegacyConcepts(items: seq<Json>, c: Config): seq<Concept> {
    if items == [] then [] else
      var head := LegacyConcepts(items[..|items| - 1], c);
      if LegacyKept(items[|items| - 1], c) then Endpoints(head, items[|items| - 1], c) else head
  }

  function ItemsOf(data: Json, key: string): seq<Json>
    requires data.Object?
  {
    if key in data.fields && data.fields[key].List? then data.fields[key].items else []
  }

  function ParsedConcepts(data: Option<Json>, c: Config): seq<Concept> {
    if data.None? then []
    else if data.value.List? then LegacyConcepts(data.value.items, c)
    else if data.value.Object? then Concepts(ItemsOf(data.value, "concepts"), c)
    else []
  }

  function ParsedRelations(data: Option<Json>, c: Config): seq<Relation> {
    if data.None? then []
    else if data.value.List? then LegacyRelations(data.value.items, c)
    else if data.value.Object? then Relations(ItemsOf(data.value, "relations"), c)
    else []
  }

  method ParseLegacy(items: seq<Json>, c: Config) returns (concepts: seq<Concept>, relations: seq<Relation>)
    ensures concepts == LegacyConcepts(items, c) && relations == LegacyRelations(items, c)
  {
    concepts, relations := [], [];
    for n := 0 to |items|
      invariant concepts == LegacyConcepts(items[..n], c) && relations == LegacyRelations(items[..n], c)
    {
      var item := items[n];
      assert items[..n + 1][..n] == items[..n];
      if !item.Object? { continue; }
      var s, o := Field(item, "subject", c), Field(item, "object", c);
      var r := Upper(Field(item, "relation_type", c));
      if s == "" || o == "" || r !in c.relationTypes { continue; }
      relations := relations + [Relation(r, s, o, "")];
      concepts := SetDefault(concepts, Concept(LegacyType(item, "subject_type", c), s, Casefold(s)));
      concepts := SetDefault(concepts, Concept(LegacyType(item, "object_type", c), o, Casefold(o)));
    }
    assert items[..|items|] == items;
  }

  method ParseConcepts(items: seq<Json>, c: Config) returns (concepts: seq<Concept>)
    ensures concepts == Concepts(items, c)
  {
    concepts := [];
    for n := 0 to |items|
      invariant concepts == Concepts(items[..n], c)
    {
      assert items[..n + 1][..n] == items[..n];
      if items[n].Object? {
        var kind := Upper(Field(items[n], "type", c));
        if kind !in c.conceptTypes {
          kind := "CONCEPT";
        }
        var text := Field(items[n], "text", c);
        if text != "" {
          concepts := concepts + [Concept(kind, text, Casefold(text))];
        }
      }
    }
    assert items[..|items|] == items;
  }

  method ParseRelations(items: seq<Json>, c: Config) returns (relations: seq<Relation>)
    ensures relations == Relations(items, c)
  {
    relations := [];
    for n := 0 to |items|
      invariant relations == Relations(items[..n], c)
    {
      assert items[..n + 1][..n] == items[..n];
      if items[n].Object? {
        var kind := Upper(Field(items[n], "type", c));
        if kind in c.relationTypes {
          var origin, destination := Field(items[n], "origin", c), Field(items[n], "destination", c);
          if origin != "" && destination != "" {
            relations := relations + [Relation(kind, origin, destination, Field(items[n], "text", c))];
          }
        }
      }
    }
    assert items[..|items|] == items;
  }

  method ParseConceptRelations(data: Option<Json>, c: Config) returns (concepts: seq<Concept>, relations: seq<Relation>)
    ensures concepts == ParsedConcepts(data, c) && relations == ParsedRelations(data, c)
  {
    if data.None? {
      return [], [];
    }
    if data.value.List? {
      concepts, relations := ParseLegacy(data.value.items, c);
    } else if data.value.Object? {
      concepts := ParseConcepts(ItemsOf(data.value, "concepts"), c);
      relations := ParseRelations(ItemsOf(data.value, "relations"), c);
    } else {
      concepts, relations := [], [];
    }
  }

  // ----- counting -----

  function Larger(a: int, b: int): int {
    if a >= b then a else b
  }

  function RawContainerCount(value: Json): nat {
    match value
    case List(items) => |items|
    case Object(fields) => Larger(1, |fields|)
    case _ => 1
  }

  function RawCount(data: Json, key: string): nat
    requires data.Object?
  {
    if key in data.fields then RawContainerCount(data.fields[key]) else 0
  }

  /** Concept and relation candidates of the payload. */
  function RawItemCounts(data: Option<Json>): (nat, nat) {
    if data.None? then (0, 0)
    else if data.value.List? then (0, |data.value.items|)
    else if data.value.Object? then (RawCount(data.value, "concepts"), RawCount(data.value, "relations"))
    else (0, 0)
  }

  function CountDroppedItems(data: Option<Json>, concepts: nat, relations: nat): nat {
    Larger(0, RawItemCounts(data).0 - concepts) + Larger(0, RawItemCounts(data).1 - relations)
  }

  lemma AllPush(items: seq<Json>, kept: Json -> bool)
    requires items != []
    ensures All(items, kept) <==> All(items[..|items| - 1], kept) && kept(items[|items| - 1])
  {
  }

  lemma {:induction false} ConceptsCount(items: seq<Json>, c: Config)
    ensures |Concepts(items, c)| <= |items|
    ensures |Concepts(items, c)| == |items| <==> All(items, j => ConceptKept(j, c))
  {
    if items != [] {
      ConceptsCount(items[..|items| - 1], c);
      AllPush(items, j => ConceptKept(j, c));
    }
  }

  lemma {:induction false} RelationsCount(items: seq<Json>, c: Config)
    ensures |Relations(items, c)| <= |items|
    ensures |Relations(items, c)| == |items| <==> All(items, j => RelationKept(j, c))
  {
    if items != [] {
      RelationsCount(items[..|items| - 1], c);
      AllPush(items, j => RelationKept(j, c));
    }
  }

  lemma {:induction false} LegacyCount(items: seq<Json>, c: Config)
    ensures |LegacyRelations(items, c)| <= |items|
    ensures |LegacyRelations(items, c)| == |items| <==> All(items, j => LegacyKept(j, c))
  {
    if items != [] {
      LegacyCount(items[..|items| - 1], c);
      AllPush(items, j => LegacyKept(j, c));
    }
  }

  predicate Storable(r: Relation, c: Config) {
    r.kind in c.relationTypes && r.origin != "" && r.destination != ""
  }

  lemma {:induction false} RelationsStorable(items: seq<Json>, c: Config)
    ensures forall r :: r in Relations(items, c) ==> Storable(r, c)
  {
    if items != [] {
      RelationsStorable(items[..|items| - 1], c);
    }
  }

  lemma {:induction false} LegacyStorable(items: seq<Json>, c: Config)
    ensures forall r :: r in LegacyRelations(items, c) ==> Storable(r, c)
  {
    if items != [] {
      LegacyStorable(items[..|items| - 1], c);
    }
  }

  /** What the store relies on: a configured type or CONCEPT, a text, and its folded form. */
  predicate ConceptStorable(x: Concept, c: Config) {
    (x.kind in c.conceptTypes || x.kind == "CONCEPT") && x.text != "" && x.norm == Casefold(x.text)
  }

  lemma {:induction false} ConceptsStorable(items: seq<Json>, c: Config)
    ensures forall x :: x in Concepts(items, c) ==> ConceptStorable(x, c)
  {
    if items != [] {
      ConceptsStorable(items[..|items| - 1], c);
    }
  }

  lemma {:induction false} LegacyConceptsStorable(items: seq<Json>, c: Config)
    ensures forall x :: x in LegacyConcepts(items, c) ==> ConceptStorable(x, c)
  {
    if items != [] {
      LegacyConceptsStorable(items[..|items| - 1], c);
    }
  }

  /** Every parsed concept, of either payload shape, can be stored. */
  lemma ParsedConceptsStorable(data: Option<Json>, c: Config)
    ensures forall x :: x in ParsedConcepts(data, c) ==> ConceptStorable(x, c)
  {
    if data.Some? {
      if data.value.List? {
        LegacyConceptsStorable(data.value.items, c);
      } else if data.value.Object? {
        ConceptsStorable(ItemsOf(data.value, "concepts"), c);
      }
    }
  }

  /** Nothing counts as dropped if and only if every candidate was kept, whatever shape the payload has. */
  lemma NothingDroppedIff(data: Json, c: Config)
    ensures CountDroppedItems(Some(data), |ParsedConcepts(Some(data), c)|, |ParsedRelations(Some(data), c)|) == 0
       <==> EveryCandidateKept(data, c)
  {
    if data.List? {
      LegacyCount(data.items, c);
    } else if data.Object? {
      ConceptContainerIff(data, c);
      RelationContainerIff(data, c);
    }
  }

  lemma ConceptContainerIff(data: Json, c: Config)
    requires data.Object?
    ensures RawCount(data, "concepts") <= |Concepts(ItemsOf(data, "concepts"), c)| <==> ContainerKept(data, "concepts", j => ConceptKept(j, c))
  {
    ConceptsCount(ItemsOf(data, "concepts"), c);
    ContainerCountIff(data, "concepts", j => ConceptKept(j, c), |Concepts(ItemsOf(data, "concepts"), c)|);
  }

  lemma RelationContainerIff(data: Json, c: Config)
    requires data.Object?
    ensures RawCount(data, "relations") <= |Relations(ItemsOf(data, "relations"), c)| <==> ContainerKept(data, "relations", j => RelationKept(j, c))
  {
    RelationsCount(ItemsOf(data, "relations"), c);
    ContainerCountIff(data, "relations", j => RelationKept(j, c), |Relations(ItemsOf(data, "relations"), c)|);
  }

  lemma ContainerCountIff(data: Json, key: string, kept: Json -> bool, n: nat)
    requires data.Object? && n <= |ItemsOf(data, key)|
    requires n == |ItemsOf(data, key)| <==> All(ItemsOf(data, key), kept)
    ensures RawCount(data, key) <= n <==> ContainerKept(data, key, kept)
  {
  }

  // ----- outcomes -----

  datatype Reason = Unparsable | Partial(dropped: nat)

  datatype Outcome = Done(concepts: seq<Concept>, relations: seq<Relation>) | NotReady | Error(reason: Reason)

  /** The branch taken when the structured client rejected a non-blank raw text. */
  method LenientExtraction(data: Option<Json>, c: Config, attempt: int) returns (outcome: Outcome)
    ensures outcome.Done? <==>
              && data.Some? && EveryCandidateKept(data.value, c)
              && (ParsedConcepts(data, c) != [] || ParsedRelations(data, c) != [])
    ensures outcome.Done? ==> outcome.concepts == ParsedConcepts(data, c) && outcome.relations == ParsedRelations(data, c)
    ensures outcome.Done? ==> forall r :: r in outcome.relations ==> Storable(r, c)
    ensures outcome.NotReady? <==> ParsedConcepts(data, c) == [] && ParsedRelations(data, c) == [] && attempt <= 1
    ensures outcome == Error(Unparsable) <==> ParsedConcepts(data, c) == [] && ParsedRelations(data, c) == [] && attempt > 1
    ensures outcome.Error? && outcome.reason.Partial? ==>
              outcome.reason.dropped == CountDroppedItems(data, |ParsedConcepts(data, c)|, |ParsedRelations(data, c)|) > 0
  {
    var concepts, relations := ParseConceptRelations(data, c);
    if concepts == [] && relations == [] {
      if attempt <= 1 {
        return NotReady;
      }
      return Error(Unparsable);
    }
    NothingDroppedIff(data.value, c);
    KeptRelationsStorable(data, c);
    var dropped := CountDroppedItems(data, |concepts|, |relations|);
    if dropped > 0 {
      return Error(Partial(dropped));
    }
    return Done(concepts, relations);
  }

  lemma KeptRelationsStorable(data: Option<Json>, c: Config)
    ensures forall r :: r in ParsedRelations(data, c) ==> Storable(r, c)
  {
    if data.Some? {
      if data.value.List? {
        LegacyStorable(data.value.items, c);
      } else if data.value.Object? {
        RelationsStorable(ItemsOf(data.value, "relations"), c);
      }
    }
  }

  /** A legacy list yields one concept per endpoint: every endpoint of a kept relation has its concept,
      and no two concepts have the same norm. */
  lemma {:induction false} LegacyConceptsCover(items: seq<Json>, c: Config)
    ensures forall r :: r in LegacyRelations(items, c) ==>
              HasNorm(LegacyConcepts(items, c), Casefold(r.origin)) && HasNorm(LegacyConcepts(items, c), Casefold(r.destination))
    ensures UniqueNorms(LegacyConcepts(items, c))
  {
    if items != [] {
      var head, item := items[..|items| - 1], items[|items| - 1];
      LegacyConceptsCover(head, c);
      if LegacyKept(item, c) {
        var s, o := Field(item, "subject", c), Field(item, "object", c);
        var first := Concept(LegacyType(item, "subject_type", c), s, Casefold(s));
        var second := Concept(LegacyType(item, "object_type", c), o, Casefold(o));
        var before := LegacyConcepts(head, c);
        SetDefaultKeeps(before, first);
        SetDefaultKeeps(SetDefault(before, first), second);
      }
    }
  }

  ghost predicate UniqueNorms(concepts: seq<Concept>) {
    forall i, j :: 0 <= i < j < |concepts| ==> concepts[i].norm != concepts[j].norm
  }

  lemma SetDefaultKeeps(concepts: seq<Concept>, added: Concept)
    ensures HasNorm(SetDefault(concepts, added), added.norm)
    ensures forall norm :: HasNorm(concepts, norm) ==> HasNorm(SetDefault(concepts, added), norm)
    ensures UniqueNorms(concepts) ==> UniqueNorms(SetDefault(concepts, added))
  {
    var r := SetDefault(concepts, added);
    if !HasNorm(concepts, added.norm) {
      assert r[|concepts|].norm == added.norm;
    }
    forall norm | HasNorm(concepts, norm) ensures HasNorm(r, norm) {
      var i :| 0 <= i < |concepts| && concepts[i].norm == norm;
      assert r[i].norm == norm;
    }
  }

  // ----- the validated branch -----

  predicate StorableConcept(x: Concept) {
    Strip(x.text) != ""
  }

  predicate StorableRelation(x: Relation) {
    Strip(x.origin) != "" && Strip(x.destination) != "" && Strip(x.text) != ""
  }

  /** Some character is no space. */
  ghost predicate HasText(s: string) {
    exists i :: 0 <= i < |s| && !Space(s[i])
  }

  lemma {:induction false} StripEmptyIff(s: string)
    ensures Strip(s) != "" <==> HasText(s)
  {
    if s != [] && Space(s[|s| - 1]) {
      var head := s[..|s| - 1];
      StripEmptyIff(head);
      if i :| 0 <= i < |head| && !Space(head[i]) {
        assert !Space(s[i]);
      }
      if i :| 0 <= i < |s| && !Space(s[i]) {
        assert !Space(head[i]);
      }
    } else if s != [] {
      StripLeftText(s);
    }
  }

  lemma {:induction false} StripLeftText(s: string)
    requires s != [] && !Space(s[|s| - 1])
    ensures StripLeft(s) != "" && HasText(s)
  {
    if Space(s[0]) {
      StripLeftText(s[1..]);
    }
  }

  /** A concept is storable if its text says something, a relation if both its ends and its text do. */
  lemma StorableMeans(x: Concept, r: Relation)
    ensures StorableConcept(x) <==> HasText(x.text)
    ensures StorableRelation(r) <==> HasText(r.origin) && HasText(r.destination) && HasText(r.text)
  {
    StripEmptyIff(x.text);
    StripEmptyIff(r.origin);
    StripEmptyIff(r.destination);
    StripEmptyIff(r.text);
  }

  ghost predicate AllStorable(concepts: seq<Concept>, relations: seq<Relation>) {
    (forall x :: x in concepts ==> StorableConcept(x)) && (forall x :: x in relations ==> StorableRelation(x))
  }

  ghost predicate NoneStorable(concepts: seq<Concept>, relations: seq<Relation>) {
    (forall x :: x in concepts ==> !StorableConcept(x)) && (forall x :: x in relations ==> !StorableRelation(x))
  }

  /** The branch taken when the client returned a validated product; `data` is the JSON of the raw text.
      What is done is the storable records in their order; it is an empty result only if there is no
      such record; and when the raw text shows at least as many candidates as were validated, a
      non-empty result is the validated product itself, whole. */
  method ValidatedExtraction(concepts: seq<Concept>, relations: seq<Relation>, data: Option<Json>) returns (outcome: Outcome)
    ensures outcome.Done? ==>
              outcome.concepts == Filter(concepts, StorableConcept) && outcome.relations == Filter(relations, StorableRelation)
    ensures outcome == Done([], []) <==> NoneStorable(concepts, relations)
    ensures !outcome.Done? ==> outcome == Error(Partial(DroppedAt(data, |Filter(concepts, StorableConcept)|, |Filter(relations, StorableRelation)|)))
                               && outcome.reason.dropped > 0
    ensures RawItemCounts(data).0 >= |concepts| && RawItemCounts(data).1 >= |relations| && outcome.Done? && outcome != Done([], []) ==>
              outcome == Done(concepts, relations) && AllStorable(concepts, relations)
    ensures RawItemCounts(data).0 <= |concepts| && RawItemCounts(data).1 <= |relations| && AllStorable(concepts, relations) ==>
              outcome == Done(concepts, relations)
    ensures outcome.Done? && outcome != Done([], []) <==> Passes(concepts, relations, data)
  {
    var kept, keptRelations := Filter(concepts, StorableConcept), Filter(relations, StorableRelation);
    FilterCount(concepts, StorableConcept);
    FilterCount(relations, StorableRelation);
    NothingKept(concepts, relations);
    if kept == [] && keptRelations == [] {
      return Done([], []);
    }
    var dropped := CountDroppedItems(data, |kept|, |keptRelations|);
    DroppedCounts(data, |kept|, |keptRelations|);
    if dropped > 0 {
      return Error(Partial(dropped));
    }
    return Done(kept, keptRelations);
  }

  lemma NothingKept(concepts: seq<Concept>, relations: seq<Relation>)
    ensures Filter(concepts, StorableConcept) == [] && Filter(relations, StorableRelation) == [] <==> NoneStorable(concepts, relations)
  {
    if NoneStorable(concepts, relations) {
      FilterNone(concepts, StorableConcept);
      FilterNone(relations, StorableRelation);
    }
  }

  /** By how much the candidates of the raw text outnumber the records kept, of each kind. */
  function DroppedAt(data: Option<Json>, concepts: nat, relations: nat): nat {
    var (c, r) := RawItemCounts(data);
    (if c > concepts then c - concepts else 0) + (if r > relations then r - relations else 0)
  }

  lemma DroppedCounts(data: Option<Json>, concepts: nat, relations: nat)
    ensures CountDroppedItems(data, concepts, relations) == DroppedAt(data, concepts, relations)
  {
  }

  /** A product with something to store gets past the gate. */
  predicate Passes(concepts: seq<Concept>, relations: seq<Relation>, data: Option<Json>) {
    var kc, kr := |Filter(concepts, StorableConcept)|, |Filter(relations, StorableRelation)|;
    kc + kr > 0 && RawItemCounts(data).0 <= kc && RawItemCounts(data).1 <= kr
  }

  lemma FilterCount<T(!new)>(s: seq<T>, p: T -> bool)
    ensures |Filter(s, p)| == |s| <==> forall x :: x in s ==> p(x)
    ensures |Filter(s, p)| == |s| ==> Filter(s, p) == s
  {
    if forall x :: x in s ==> p(x) {
      FilterAll(s, p);
    }
  }

  /** For a raw text and numbers of validated records: the gate is sound if no product of that size
      passes with a record dropped. */
  ghost predicate GateSound(m: nat, n: nat, data: Option<Json>) {
    forall concepts, relations :: |concepts| == m && |relations| == n && Passes(concepts, relations, data) ==> AllStorable(concepts, relations)
  }

  /** The gate is sound if and only if the raw text shows at least as many concept and relation
      candidates as were validated; or so many that nothing passes; or there is only one record,
      which cannot be dropped and leave a product. */
  lemma GateSoundIff(m: nat, n: nat, data: Option<Json>)
    ensures var (c, r) := RawItemCounts(data);
            GateSound(m, n, data) <==> (c >= m && r >= n) || c > m || r > n || m + n <= 1
  {
    var (c, r) := RawItemCounts(data);
    if (c >= m && r >= n) || c > m || r > n || m + n <= 1 {
      forall concepts, relations | |concepts| == m && |relations| == n && Passes(concepts, relations, data)
        ensures AllStorable(concepts, relations)
      {
        FilterCount(concepts, StorableConcept);
        FilterCount(relations, StorableRelation);
      }
    } else {
      IncompletePasses(m, n, data);
    }
  }

  /** A product of the given size of which one record is dropped and which passes nevertheless. */
  lemma IncompletePasses(m: nat, n: nat, data: Option<Json>)
    requires m + n >= 2 && RawItemCounts(data).0 <= m && RawItemCounts(data).1 <= n
    requires RawItemCounts(data).0 < m || RawItemCounts(data).1 < n
    ensures !GateSound(m, n, data)
  {
    if RawItemCounts(data).0 < m {
      BlankConceptPasses(m, n, data);
    } else {
      BlankRelationPasses(m, n, data);
    }
  }

  lemma BlankConceptPasses(m: nat, n: nat, data: Option<Json>)
    requires m + n >= 2 && RawItemCounts(data).0 < m && RawItemCounts(data).1 <= n
    ensures !GateSound(m, n, data)
  {
    var concepts, relations := Mixed(GoodConcept(), BlankConcept(), m), seq(n, _ => GoodRelation());
    MixedFilter(GoodConcept(), BlankConcept(), m, StorableConcept);
    AllGood(n);
    assert BlankConcept() in concepts;
    assert Passes(concepts, relations, data) && !AllStorable(concepts, relations);
  }

  lemma BlankRelationPasses(m: nat, n: nat, data: Option<Json>)
    requires m + n >= 2 && RawItemCounts(data).0 <= m && RawItemCounts(data).1 < n
    ensures !GateSound(m, n, data)
  {
    var concepts, relations := seq(m, _ => GoodConcept()), Mixed(GoodRelation(), BlankRelation(), n);
    MixedFilter(GoodRelation(), BlankRelation(), n, StorableRelation);
    AllGoodConcepts(m);
    assert BlankRelation() in relations;
    assert Passes(concepts, relations, data) && !AllStorable(concepts, relations);
  }

  function GoodConcept(): (x: Concept) ensures StorableConcept(x) { Concept("CONCEPT", "x", "x") }

  function BlankConcept(): (x: Concept) ensures !StorableConcept(x) { Concept("CONCEPT", "", "") }

  function GoodRelation(): (x: Relation) ensures StorableRelation(x) { Relation("R", "x", "y", "z") }

  function BlankRelation(): (x: Relation) ensures !StorableRelation(x) { Relation("R", "x", "y", "") }

  /** All records but the last are good. */
  function Mixed<T>(good: T, blank: T, n: nat): (r: seq<T>)
    requires n >= 1
    ensures |r| == n && r[n - 1] == blank
  {
    seq(n - 1, _ => good) + [blank]
  }

  lemma MixedFilter<T(!new)>(good: T, blank: T, n: nat, p: T -> bool)
    requires n >= 1 && p(good) && !p(blank)
    ensures |Filter(Mixed(good, blank, n), p)| == n - 1
  {
    FilterAppend(seq(n - 1, _ => good), [blank], p);
    FilterAll(seq(n - 1, _ => good), p);
    FilterNone([blank], p);
  }

  lemma AllGood(n: nat)
    ensures |Filter(seq(n, _ => GoodRelation()), StorableRelation)| == n
  {
    FilterAll(seq(n, _ => GoodRelation()), StorableRelation);
  }

  lemma AllGoodConcepts(n: nat)
    ensures |Filter(seq(n, _ => GoodConcept()), StorableConcept)| == n
  {
    FilterAll(seq(n, _ => GoodConcept()), StorableConcept);
  }

  /** A client with native structured output hands over the product's own JSON as raw text. */
  function Dumped(concepts: seq<Json>, relations: seq<Json>): Json {
    Object(map["concepts" := List(concepts), "relations" := List(relations)])
  }

  /** There the gate is always sound. */
  lemma NativeGateSound(concepts: seq<Json>, relations: seq<Json>)
    ensures GateSound(|concepts|, |relations|, Some(Dumped(concepts, relations)))
  {
    assert "concepts" != "relations" by {
      assert "concepts"[0] != "relations"[0];
    }
    GateSoundIff(|concepts|, |relations|, Some(Dumped(concepts, relations)));
  }

  /** Without JSON in the raw text it is sound for a single record only. */
  lemma BlindGate(m: nat, n: nat)
    ensures GateSound(m, n, None) <==> m + n <= 1
  {
    GateSoundIff(m, n, None);
  }
}
