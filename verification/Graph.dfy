/** One tenant's knowledge graph, and the Cypher statements that write a source into it. Entity and
    document ids are unique (graphrag_handler.py:560-561), so nodes are maps keyed by id; an edge
    is keyed by what its MERGE pattern identifies. */
module Graph {
  import opened Prelude
  import opened MapFold
  import opened Metadata

  type Vector = seq<real>

  datatype Document = Document(collection: string, metadata: map<string, string>)

  /** `tracked` is `tracked_by_provenance = true`; `conceptInactive` is `concept_gen_active = false`. */
  datatype Entity = Entity(
    name: string, kind: Option<string>, types: seq<string>, metadata: StoredMetadata,
    embedding: Option<Vector>, conceptGen: Option<string>, conceptInactive: bool, tracked: bool)

  datatype Edge = Edge(doc: Id, ent: Id)

  datatype RelationKey = RelationKey(source: Id, target: Id, kind: string)

  datatype Relation = Relation(weight: real, files: Option<seq<string>>)

  datatype Similar = Similar(from: Id, to: Id, gen: nat)

  datatype Graph = Graph(
    documents: map<Id, Document>,
    entities: map<Id, Entity>,
    mentions: map<Edge, real>,
    provenance: set<Edge>,
    relations: map<RelationKey, Relation>,
    similar: set<Similar>)

  /** Every edge joins two nodes of the graph. */
  ghost predicate WellFormed(g: Graph) {
    && (forall e :: e in g.mentions ==> e.doc in g.documents && e.ent in g.entities)
    && (forall e :: e in g.provenance ==> e.doc in g.documents && e.ent in g.entities)
    && (forall k :: k in g.relations ==> k.source in g.entities && k.target in g.entities)
    && (forall s :: s in g.similar ==> s.from in g.documents && s.to in g.documents)
  }

  /** The database between transactions. */
  class Store {
    var graph: Graph

    constructor (g: Graph)
      ensures graph == g
    {
      graph := g;
    }
  }

  predicate IsFrom(d: Document, source: string) {
    "source" in d.metadata && d.metadata["source"] == source
  }

  // ----- payloads -----

  datatype EntityItem = EntityItem(
    id: Id, name: string, kind: string, metadata: Accumulated, embedding: Option<Vector>)

  datatype MentionItem = MentionItem(doc: Id, ent: Id, confidence: real)

  datatype RelationItem = RelationItem(
    source: Id, target: Id, kind: string, weight: real, files: Option<seq<string>>)

  datatype Plan = Plan(entities: seq<EntityItem>, mentions: seq<MentionItem>, relations: seq<RelationItem>)

  /** The extraction output of two runs of chunks, accumulated. */
  function Joint(a: Plan, b: Plan): Plan {
    Plan(a.entities + b.entities, a.mentions + b.mentions, a.relations + b.relations)
  }

  // ----- the statements of one write transaction -----

  function MergeEntity(existing: Option<Entity>, item: EntityItem): Entity {
    match existing
    case None =>
      Entity(item.name, Some(item.kind), [item.kind], AsStored(item.metadata), item.embedding, None, false, false)
    case Some(e) =>
      e.(name := item.name,
         types := if item.kind in e.types then e.types else e.types + [item.kind],
         metadata := AsStored(item.metadata),
         embedding := if item.embedding.Some? then item.embedding else e.embedding,
         conceptGen := None,
         conceptInactive := false)
  }

  function MergeFiles(stored: Option<seq<string>>, incoming: Option<seq<string>>): Option<seq<string>> {
    if incoming.None? then stored
    else if stored.None? then incoming
    else Some(Filter(stored.value, x => x !in incoming.value) + incoming.value)
  }

  function MergeRelation(existing: Option<Relation>, item: RelationItem): Relation {
    match existing
    case None => Relation(item.weight, item.files)
    case Some(r) => Relation((r.weight + item.weight) / 2.0, MergeFiles(r.files, item.files))
  }

  function MentionEdge(m: MentionItem): Edge {
    Edge(m.doc, m.ent)
  }

  function KeyOf(r: RelationItem): RelationKey {
    RelationKey(r.source, r.target, r.kind)
  }

  function EntityUpsert(): Upsert<Id, Entity, EntityItem> {
    Upsert((i: EntityItem) => i.id, (e, i) => MergeEntity(e, i))
  }

  function MentionUpsert(): Upsert<Edge, real, MentionItem> {
    Upsert((m: MentionItem) => MentionEdge(m), (_, m: MentionItem) => m.confidence)
  }

  function RelationUpsert(): Upsert<RelationKey, Relation, RelationItem> {
    Upsert((r: RelationItem) => KeyOf(r), (e, r) => MergeRelation(e, r))
  }

  function StoredMetadataOf(entities: map<Id, Entity>, id: Id): StoredMetadata {
    if id in entities then entities[id].metadata else NoMetadata
  }

  function OverwrittenItem(entities: map<Id, Entity>, item: EntityItem): EntityItem {
    item.(metadata := Merged(StoredMetadataOf(entities, item.id), item.metadata))
  }

  /** The payload after the transaction body has replaced every item's metadata by the merged value. */
  function Overwritten(entities: map<Id, Entity>, items: seq<EntityItem>): (r: seq<EntityItem>)
    ensures |r| == |items|
    ensures forall i :: 0 <= i < |items| ==> r[i] == OverwrittenItem(entities, items[i])
  {
    seq(|items|, i requires 0 <= i < |items| => OverwrittenItem(entities, items[i]))
  }

  function WriteEntities(g: Graph, items: seq<EntityItem>): Graph {
    g.(entities := ApplyAll(EntityUpsert(), g.entities, items))
  }

  /** The mentions whose two MATCH clauses find a node. */
  function Linked(g: Graph, mentions: seq<MentionItem>): seq<MentionItem> {
    Filter(mentions, (m: MentionItem) => m.doc in g.documents && m.ent in g.entities)
  }

  function WriteMentions(g: Graph, mentions: seq<MentionItem>): Graph {
    g.(mentions := ApplyAll(MentionUpsert(), g.mentions, Linked(g, mentions)))
  }

  function WriteProvenance(g: Graph, mentions: seq<MentionItem>): Graph {
    var linked := Linked(g, mentions);
    g.(provenance := g.provenance + (set m | m in linked :: MentionEdge(m)),
       entities := map id | id in g.entities ::
         if exists m :: m in linked && m.ent == id then g.entities[id].(tracked := true) else g.entities[id])
  }

  function Joined(g: Graph, relations: seq<RelationItem>): seq<RelationItem> {
    Filter(relations, (r: RelationItem) => r.source in g.entities && r.target in g.entities)
  }

  function WriteRelations(g: Graph, relations: seq<RelationItem>): Graph {
    g.(relations := ApplyAll(RelationUpsert(), g.relations, Joined(g, relations)))
  }

  /** One committed transaction: metadata merge, then the four statements in order. */
  function WriteTx(g: Graph, p: Plan): Graph {
    var g1 := WriteEntities(g, Overwritten(g.entities, p.entities));
    var g2 := WriteMentions(g1, p.mentions);
    var g3 := WriteProvenance(g2, p.mentions);
    WriteRelations(g3, p.relations)
  }

  /** Transactions committed one after the other. */
  function WriteAll(g: Graph, plans: seq<Plan>): Graph {
    if plans == [] then g else WriteTx(WriteAll(g, plans[..|plans| - 1]), plans[|plans| - 1])
  }

  lemma {:induction false} WriteAllAppend(g: Graph, a: seq<Plan>, b: seq<Plan>)
    ensures WriteAll(g, a + b) == WriteAll(WriteAll(g, a), b)
  {
    if b == [] {
      assert a + b == a;
    } else {
      assert (a + b)[..|a + b| - 1] == a + b[..|b| - 1];
      WriteAllAppend(g, a, b[..|b| - 1]);
    }
  }
}
