/** The embedding-generation swap: shadow build, flip, collect, interleaved with point inserts and
    deletions, similarity and entity writes, and stops between any two statements. A generation
    token `v<n>` is its number. */
module Generation {
  import opened Prelude
  import opened Metadata
  import opened Graph

  datatype Slot = Slot(node: Id, gen: nat)

  datatype Index = DocumentIndex(gen: nat) | EntityIndex(gen: nat)

  /** The versioned part of a tenant's graph and its Epoch token. */
  datatype Versioned = Versioned(
    documents: set<Id>, entities: set<Id>,
    vectors: map<Slot, Vector>, entityVectors: map<Slot, Vector>,
    indexes: set<Index>, similar: set<Similar>, token: nat)

  // ----- the statements a swap sends -----

  datatype Statement =
    | SetVectors(payload: map<Id, Vector>, gen: nat)
    | CreateIndex(index: Index)
    | CarryEntityVectors(from: nat, to: nat)
    | LinkSimilar(doc: Id, found: set<Id>, gen: nat)
    | Flip(gen: nat)
    | DropIndex(index: Index)
    | DeleteSimilar(gen: nat)
    | RemoveVectors(gen: nat)
    | RemoveEntityVectors(gen: nat)

  /** A document with the answer of its similarity search; the search may return anything. */
  datatype Link = Link(doc: Id, found: set<Id>)

  function Both(doc: Id, found: set<Id>, gen: nat): set<Similar> {
    (set b | b in found :: Similar(doc, b, gen)) + (set b | b in found :: Similar(b, doc, gen))
  }

  function Slots(nodes: set<Id>, gen: nat): (r: set<Slot>)
    ensures forall s :: s in r <==> s.gen == gen && s.node in nodes
  {
    set n | n in nodes :: Slot(n, gen)
  }

  function Exec(db: Versioned, st: Statement): Versioned {
    match st
    case SetVectors(payload, gen) =>
      var slots := Slots(payload.Keys * db.documents, gen);
      db.(vectors := map s | s in db.vectors.Keys + slots :: if s in slots then payload[s.node] else db.vectors[s])
    case CreateIndex(index) => db.(indexes := db.indexes + {index})
    case CarryEntityVectors(from, to) =>
      var slots := Slots((set e | e in db.entities && Slot(e, from) in db.entityVectors), to);
      db.(entityVectors := map s | s in db.entityVectors.Keys + slots ::
            if s in slots then db.entityVectors[Slot(s.node, from)] else db.entityVectors[s])
    case LinkSimilar(doc, found, gen) =>
      if doc in db.documents then db.(similar := db.similar + Both(doc, found * db.documents - {doc}, gen)) else db
    case Flip(gen) => db.(token := gen)
    case DropIndex(index) => db.(indexes := db.indexes - {index})
    case DeleteSimilar(gen) => db.(similar := set s | s in db.similar && s.gen != gen)
    case RemoveVectors(gen) => db.(vectors := map s | s in db.vectors && s.gen != gen :: db.vectors[s])
    case RemoveEntityVectors(gen) => db.(entityVectors := map s | s in db.entityVectors && s.gen != gen :: db.entityVectors[s])
  }

  function ExecAll(db: Versioned, sts: seq<Statement>): Versioned {
    if sts == [] then db else Exec(ExecAll(db, sts[..|sts| - 1]), sts[|sts| - 1])
  }

  lemma {:induction false} ExecAppend(db: Versioned, a: seq<Statement>, b: seq<Statement>)
    ensures ExecAll(db, a + b) == ExecAll(ExecAll(db, a), b)
  {
    if b == [] {
      assert a + b == a;
    } else {
      assert (a + b)[..|a + b| - 1] == a + b[..|b| - 1];
      ExecAppend(db, a, b[..|b| - 1]);
    }
  }

  function Build(oldGen: nat, payload: map<Id, Vector>): seq<Statement> {
    (if payload == map[] then [] else [SetVectors(payload, oldGen + 1)])
    + [CreateIndex(DocumentIndex(oldGen + 1)), CarryEntityVectors(oldGen, oldGen + 1), CreateIndex(EntityIndex(oldGen + 1))]
  }

  function LinkAll(links: seq<Link>, gen: nat): seq<Statement> {
    seq(|links|, i requires 0 <= i < |links| => LinkSimilar(links[i].doc, links[i].found, gen))
  }

  /** `_gc_generation`. */
  function Collect(oldGen: nat): seq<Statement> {
    [DropIndex(DocumentIndex(oldGen)), DropIndex(EntityIndex(oldGen)), DeleteSimilar(oldGen), RemoveVectors(oldGen), RemoveEntityVectors(oldGen)]
  }

  function BeforeFlip(oldGen: nat, snapshot: set<Id>, payload: map<Id, Vector>, links: seq<Link>): seq<Statement> {
    if snapshot == {} then [] else Build(oldGen, payload) + LinkAll(links, oldGen + 1)
  }

  /** Everything `_reembed_tenant_impl` sends under the tenant write lock. */
  function LockedStatements(oldGen: nat, snapshot: set<Id>, payload: map<Id, Vector>, links: seq<Link>): seq<Statement> {
    BeforeFlip(oldGen, snapshot, payload, links) + [Flip(oldGen + 1)] + Collect(oldGen)
  }

  /** The database of one tenant. */
  class Database {
    var db: Versioned

    method Run(st: Statement)
      modifies this
      ensures db == Exec(old(db), st)
    {
      db := Exec(db, st);
    }

    /** `_gc_generation`: nothing of the generation is left, and nothing else changes. */
    method GcGeneration(gen: nat)
      modifies this
      ensures Collected(db, gen) && forall other :: other != gen ==> SameGeneration(old(db), db, other)
      ensures db.token == old(db).token && db.documents == old(db).documents && db.entities == old(db).entities
      ensures db == ExecAll(old(db), Collect(gen))
    {
      ghost var start := db;
      Run(DropIndex(DocumentIndex(gen)));
      Run(DropIndex(EntityIndex(gen)));
      Run(DeleteSimilar(gen));
      Run(RemoveVectors(gen));
      Run(RemoveEntityVectors(gen));
      CollectUnrolled(start, gen);
      CollectRemoves(start, gen);
    }

    /** The part of `_reembed_tenant_impl` that holds the tenant write lock, run to its end. */
    method ReembedLocked(oldGen: nat, snapshot: set<Id>, payload: map<Id, Vector>, links: seq<Link>)
      modifies this
      ensures Swapped(old(db), oldGen, snapshot, payload, db)
      ensures db == ExecAll(old(db), LockedStatements(oldGen, snapshot, payload, links))
    {
      ghost var start := db;
      var newGen := oldGen + 1;
      if snapshot != {} {
        if payload != map[] {
          Run(SetVectors(payload, newGen));
        }
        Run(CreateIndex(DocumentIndex(newGen)));
        Run(CarryEntityVectors(oldGen, newGen));
        Run(CreateIndex(EntityIndex(newGen)));
        BuildUnrolled(start, oldGen, payload);
        ghost var built := db;
        ghost var all := LinkAll(links, newGen);
        for n := 0 to |links|
          invariant db == ExecAll(built, all[..n])
        {
          Run(LinkSimilar(links[n].doc, links[n].found, newGen));
          assert all[..n + 1][..n] == all[..n];
        }
        assert all[..|links|] == all;
        ExecAppend(start, Build(oldGen, payload), all);
      }
      Run(Flip(newGen));
      GcGeneration(oldGen);
      Staged(start, oldGen, snapshot, payload, links);
      LockedStatementsSwap(start, oldGen, snapshot, payload, links);
    }
  }

  lemma CollectUnrolled(db: Versioned, gen: nat)
    ensures ExecAll(db, Collect(gen)) ==
            Exec(Exec(Exec(Exec(Exec(db, DropIndex(DocumentIndex(gen))), DropIndex(EntityIndex(gen))), DeleteSimilar(gen)), RemoveVectors(gen)), RemoveEntityVectors(gen))
  {
    var c := Collect(gen);
    assert c[..4][..3] == c[..3];
    assert c[..3][..2] == c[..2];
    assert c[..2][..1] == c[..1];
    assert c[..1][..0] == [];
    assert ExecAll(db, c[..1]) == Exec(db, c[0]);
    assert ExecAll(db, c[..2]) == Exec(ExecAll(db, c[..1]), c[1]);
    assert ExecAll(db, c[..3]) == Exec(ExecAll(db, c[..2]), c[2]);
    assert ExecAll(db, c[..4]) == Exec(ExecAll(db, c[..3]), c[3]);
  }

  lemma BuildUnrolled(db: Versioned, oldGen: nat, payload: map<Id, Vector>)
    ensures var written := if payload == map[] then db else Exec(db, SetVectors(payload, oldGen + 1));
            ExecAll(db, Build(oldGen, payload)) ==
            Exec(Exec(Exec(written, CreateIndex(DocumentIndex(oldGen + 1))), CarryEntityVectors(oldGen, oldGen + 1)), CreateIndex(EntityIndex(oldGen + 1)))
  {
    var head := if payload == map[] then [] else [SetVectors(payload, oldGen + 1)];
    var tail := [CreateIndex(DocumentIndex(oldGen + 1)), CarryEntityVectors(oldGen, oldGen + 1), CreateIndex(EntityIndex(oldGen + 1))];
    ExecAppend(db, head, tail);
    if payload != map[] {
      assert head[..0] == [];
    }
    var h := ExecAll(db, head);
    assert tail[..2][..1] == tail[..1];
    assert tail[..1][..0] == [];
    assert ExecAll(h, tail[..1]) == Exec(h, tail[0]);
    assert ExecAll(h, tail[..2]) == Exec(ExecAll(h, tail[..1]), tail[1]);
  }

  lemma Staged(db: Versioned, oldGen: nat, snapshot: set<Id>, payload: map<Id, Vector>, links: seq<Link>)
    ensures ExecAll(db, LockedStatements(oldGen, snapshot, payload, links))
         == ExecAll(Exec(ExecAll(db, BeforeFlip(oldGen, snapshot, payload, links)), Flip(oldGen + 1)), Collect(oldGen))
  {
    var before := BeforeFlip(oldGen, snapshot, payload, links);
    ExecAppend(db, before + [Flip(oldGen + 1)], Collect(oldGen));
    ExecAppend(db, before, [Flip(oldGen + 1)]);
    var h := ExecAll(db, before);
    assert [Flip(oldGen + 1)][..0] == [];
    assert ExecAll(h, [Flip(oldGen + 1)]) == Exec(h, Flip(oldGen + 1));
  }

  // ----- what the statements leave alone -----

  /** Everything stored under one generation. */
  ghost predicate SameGeneration(a: Versioned, b: Versioned, gen: nat) {
    && (forall n: Id :: Get(a.vectors, Slot(n, gen)) == Get(b.vectors, Slot(n, gen)))
    && (forall n: Id :: Get(a.entityVectors, Slot(n, gen)) == Get(b.entityVectors, Slot(n, gen)))
    && (DocumentIndex(gen) in a.indexes <==> DocumentIndex(gen) in b.indexes)
    && (EntityIndex(gen) in a.indexes <==> EntityIndex(gen) in b.indexes)
    && (forall s: Similar :: s.gen == gen ==> (s in a.similar <==> s in b.similar))
  }

  /** The generation a statement writes to or deletes from. */
  function Target(st: Statement): Option<nat> {
    match st
    case SetVectors(_, gen) => Some(gen)
    case CreateIndex(index) => Some(index.gen)
    case CarryEntityVectors(_, to) => Some(to)
    case LinkSimilar(_, _, gen) => Some(gen)
    case Flip(_) => None
    case DropIndex(index) => Some(index.gen)
    case DeleteSimilar(gen) => Some(gen)
    case RemoveVectors(gen) => Some(gen)
    case RemoveEntityVectors(gen) => Some(gen)
  }

  lemma ExecSpares(db: Versioned, st: Statement, gen: nat)
    requires Target(st) != Some(gen)
    ensures SameGeneration(db, Exec(db, st), gen)
    ensures Exec(db, st).documents == db.documents && Exec(db, st).entities == db.entities
    ensures !st.Flip? ==> Exec(db, st).token == db.token
  {
  }

  /** Where the statements of a swap are aimed: at the new generation up to the flip, at the old one after it. */
  lemma StatementTargets(oldGen: nat, snapshot: set<Id>, payload: map<Id, Vector>, links: seq<Link>, i: nat)
    requires i < |LockedStatements(oldGen, snapshot, payload, links)|
    ensures var st := LockedStatements(oldGen, snapshot, payload, links)[i];
            var flip := |BeforeFlip(oldGen, snapshot, payload, links)|;
            && (i < flip ==> !st.Flip? && Target(st) == Some(oldGen + 1))
            && (i == flip ==> st == Flip(oldGen + 1))
            && (i > flip ==> !st.Flip? && Target(st) == Some(oldGen))
  {
    var before := BeforeFlip(oldGen, snapshot, payload, links);
    var all := LockedStatements(oldGen, snapshot, payload, links);
    if i < |before| {
      assert all[i] == before[i];
      var b := Build(oldGen, payload);
      if i < |b| {
        assert before[i] == b[i];
      } else {
        assert before[i] == LinkAll(links, oldGen + 1)[i - |b|];
      }
    } else if i > |before| {
      assert all[i] == Collect(oldGen)[i - |before| - 1];
    }
  }

  lemma ExecKeepsNodes(db: Versioned, st: Statement)
    ensures Exec(db, st).documents == db.documents && Exec(db, st).entities == db.entities
    ensures Exec(db, st).token == if st.Flip? then st.gen else db.token
  {
  }

  lemma {:induction false} PrefixKeepsNodes(db: Versioned, all: seq<Statement>, flip: nat, gen: nat, n: nat)
    requires n <= |all| && forall i :: 0 <= i < |all| ==> if i == flip then all[i] == Flip(gen) else !all[i].Flip?
    ensures var h := ExecAll(db, all[..n]);
            h.documents == db.documents && h.entities == db.entities && h.token == if n <= flip then db.token else gen
  {
    if n == 0 {
      assert all[..0] == [];
    } else {
      var last := n - 1;
      PrefixKeepsNodes(db, all, flip, gen, last);
      assert all[..n][..last] == all[..last];
      ExecKeepsNodes(ExecAll(db, all[..last]), all[last]);
    }
  }

  lemma PrefixSpares(db: Versioned, oldGen: nat, snapshot: set<Id>, payload: map<Id, Vector>, links: seq<Link>, n: nat)
    requires n <= |LockedStatements(oldGen, snapshot, payload, links)| && db.token == oldGen
    ensures var h := ExecAll(db, LockedStatements(oldGen, snapshot, payload, links)[..n]);
            && h.documents == db.documents && h.entities == db.entities
            && h.token == if n <= |BeforeFlip(oldGen, snapshot, payload, links)| then oldGen else oldGen + 1
  {
    var all, flip := LockedStatements(oldGen, snapshot, payload, links), |BeforeFlip(oldGen, snapshot, payload, links)|;
    forall i | 0 <= i < |all| ensures if i == flip then all[i] == Flip(oldGen + 1) else !all[i].Flip? {
      StatementTargets(oldGen, snapshot, payload, links, i);
    }
    PrefixKeepsNodes(db, all, flip, oldGen + 1, n);
  }

  // ----- what a whole swap achieves -----

  lemma {:induction false} LinksOnlyAdd(db: Versioned, links: seq<Link>, gen: nat)
    ensures var h := ExecAll(db, LinkAll(links, gen));
            && h == db.(similar := h.similar) && db.similar <= h.similar
            && (forall s :: s in h.similar && s !in db.similar ==> s.gen == gen)
  {
    if links != [] {
      var all := LinkAll(links, gen);
      assert all[..|all| - 1] == LinkAll(links[..|links| - 1], gen);
      LinksOnlyAdd(db, links[..|links| - 1], gen);
    }
  }

  /** The similarity search of one of the linked documents reported the other end. */
  ghost predicate Reported(documents: set<Id>, links: seq<Link>, s: Similar) {
    && s.from in documents && s.to in documents && s.from != s.to
    && exists l :: l in links && ((l.doc == s.from && s.to in l.found) || (l.doc == s.to && s.from in l.found))
  }

  /** The edges of `h` are those of `db`, and both directions of every reported pair. */
  ghost predicate Extended(db: Versioned, links: seq<Link>, gen: nat, h: Versioned) {
    && h.documents == db.documents
    && forall s: Similar :: s in h.similar <==> s in db.similar || (s.gen == gen && Reported(db.documents, links, s))
  }

  /** What the links leave. */
  lemma {:induction false} LinkedExactly(db: Versioned, links: seq<Link>, gen: nat)
    ensures Extended(db, links, gen, ExecAll(db, LinkAll(links, gen)))
  {
    if links != [] {
      var head, last := links[..|links| - 1], links[|links| - 1];
      var all := LinkAll(links, gen);
      assert all[..|all| - 1] == LinkAll(head, gen);
      LinkedExactly(db, head, gen);
      assert links == head + [last];
      ExtendedPush(db, head, last, gen, ExecAll(db, LinkAll(head, gen)));
    }
  }

  lemma ExtendedPush(db: Versioned, head: seq<Link>, last: Link, gen: nat, h: Versioned)
    requires Extended(db, head, gen, h)
    ensures Extended(db, head + [last], gen, Exec(h, LinkSimilar(last.doc, last.found, gen)))
  {
    var after := Exec(h, LinkSimilar(last.doc, last.found, gen));
    LinkedOnce(h, last, gen);
    forall s: Similar
      ensures s in after.similar <==> s in db.similar || (s.gen == gen && Reported(db.documents, head + [last], s))
    {
      LinkedPush(db.documents, head, last, s);
    }
  }

  lemma LinkedPush(documents: set<Id>, head: seq<Link>, last: Link, s: Similar)
    ensures Reported(documents, head + [last], s) <==> Reported(documents, head, s) || Reported(documents, [last], s)
  {
    assert last in head + [last] && last in [last];
    assert forall l :: l in head + [last] <==> l in head || l == last;
  }

  lemma LinkedOnce(db: Versioned, l: Link, gen: nat)
    ensures forall s: Similar :: s in Exec(db, LinkSimilar(l.doc, l.found, gen)).similar <==> s in db.similar || (s.gen == gen && Reported(db.documents, [l], s))
  {
    assert l in [l];
    assert forall x :: x in [l] ==> x == l;
  }

  /** A finished swap from `entry` to `db`. */
  ghost predicate Swapped(entry: Versioned, oldGen: nat, snapshot: set<Id>, payload: map<Id, Vector>, db: Versioned) {
    && db.token == oldGen + 1
    && (forall d :: d in payload && d in db.documents && snapshot != {} ==> Get(db.vectors, Slot(d, oldGen + 1)) == Some(payload[d]))
    && (forall d :: d !in payload || d !in db.documents || snapshot == {} ==> Get(db.vectors, Slot(d, oldGen + 1)) == Get(entry.vectors, Slot(d, oldGen + 1)))
    && (forall e :: e in db.entities && Slot(e, oldGen) in entry.entityVectors && snapshot != {} ==>
          Get(db.entityVectors, Slot(e, oldGen + 1)) == Get(entry.entityVectors, Slot(e, oldGen)))
    && (forall e :: e !in db.entities || Slot(e, oldGen) !in entry.entityVectors || snapshot == {} ==>
          Get(db.entityVectors, Slot(e, oldGen + 1)) == Get(entry.entityVectors, Slot(e, oldGen + 1)))
    && (snapshot == {} ==> SameGeneration(entry, db, oldGen + 1))
    && db.documents == entry.documents && db.entities == entry.entities
    && (snapshot != {} ==> DocumentIndex(oldGen + 1) in db.indexes && EntityIndex(oldGen + 1) in db.indexes)
    && Collected(db, oldGen)
    && (forall gen :: gen != oldGen && gen != oldGen + 1 ==> SameGeneration(entry, db, gen))
  }

  /** The similarity edges of the new generation after a swap. */
  lemma SwapLinks(entry: Versioned, oldGen: nat, snapshot: set<Id>, payload: map<Id, Vector>, links: seq<Link>, s: Similar)
    requires s.gen == oldGen + 1 && snapshot != {}
    ensures s in ExecAll(entry, LockedStatements(oldGen, snapshot, payload, links)).similar
       <==> s in entry.similar || Reported(entry.documents, links, s)
  {
    Staged(entry, oldGen, snapshot, payload, links);
    ExecAppend(entry, Build(oldGen, payload), LinkAll(links, oldGen + 1));
    BuildUnrolled(entry, oldGen, payload);
    var built := ExecAll(entry, Build(oldGen, payload));
    LinkedExactly(built, links, oldGen + 1);
    var flipped := Exec(ExecAll(built, LinkAll(links, oldGen + 1)), Flip(oldGen + 1));
    CollectRemoves(flipped, oldGen);
    assert SameGeneration(flipped, ExecAll(flipped, Collect(oldGen)), oldGen + 1);
  }

  /** No index, property or edge of the generation is left. */
  ghost predicate Collected(db: Versioned, gen: nat) {
    && DocumentIndex(gen) !in db.indexes && EntityIndex(gen) !in db.indexes
    && (forall s :: s in db.vectors ==> s.gen != gen)
    && (forall s :: s in db.entityVectors ==> s.gen != gen)
    && (forall s :: s in db.similar ==> s.gen != gen)
  }

  lemma CollectRemoves(db: Versioned, gen: nat)
    ensures var h := ExecAll(db, Collect(gen));
            && Collected(h, gen) && h.token == db.token && h.documents == db.documents && h.entities == db.entities
            && (forall other :: other != gen ==> SameGeneration(db, h, other))
  {
    CollectUnrolled(db, gen);
  }

  lemma BuildSpares(db: Versioned, oldGen: nat, payload: map<Id, Vector>, gen: nat)
    requires gen != oldGen + 1
    ensures SameGeneration(db, ExecAll(db, Build(oldGen, payload)), gen)
  {
    BuildUnrolled(db, oldGen, payload);
    var set1 := Exec(db, SetVectors(payload, oldGen + 1));
    ExecSpares(db, SetVectors(payload, oldGen + 1), gen);
    var written := if payload == map[] then db else set1;
    ExecSpares(written, CreateIndex(DocumentIndex(oldGen + 1)), gen);
    var indexed := Exec(written, CreateIndex(DocumentIndex(oldGen + 1)));
    ExecSpares(indexed, CarryEntityVectors(oldGen, oldGen + 1), gen);
    ExecSpares(Exec(indexed, CarryEntityVectors(oldGen, oldGen + 1)), CreateIndex(EntityIndex(oldGen + 1)), gen);
  }

  lemma BuildWrites(db: Versioned, oldGen: nat, payload: map<Id, Vector>)
    ensures var h := ExecAll(db, Build(oldGen, payload));
            && h.token == db.token && h.documents == db.documents && h.entities == db.entities
            && (forall d :: d in payload && d in db.documents ==> Get(h.vectors, Slot(d, oldGen + 1)) == Some(payload[d]))
            && (forall d :: d !in payload || d !in db.documents ==> Get(h.vectors, Slot(d, oldGen + 1)) == Get(db.vectors, Slot(d, oldGen + 1)))
            && (forall e :: e in db.entities && Slot(e, oldGen) in db.entityVectors ==> Get(h.entityVectors, Slot(e, oldGen + 1)) == Get(db.entityVectors, Slot(e, oldGen)))
            && (forall e :: e !in db.entities || Slot(e, oldGen) !in db.entityVectors ==> Get(h.entityVectors, Slot(e, oldGen + 1)) == Get(db.entityVectors, Slot(e, oldGen + 1)))
            && DocumentIndex(oldGen + 1) in h.indexes && EntityIndex(oldGen + 1) in h.indexes
  {
    BuildUnrolled(db, oldGen, payload);
  }

  /** Every document of the payload that is still there has its new embedding, entity embeddings are
      carried over, both new indexes exist, and nothing of the old generation is left. */
  lemma LockedStatementsSwap(entry: Versioned, oldGen: nat, snapshot: set<Id>, payload: map<Id, Vector>, links: seq<Link>)
    ensures Swapped(entry, oldGen, snapshot, payload, ExecAll(entry, LockedStatements(oldGen, snapshot, payload, links)))
  {
    Staged(entry, oldGen, snapshot, payload, links);
    var built := ExecAll(entry, BeforeFlip(oldGen, snapshot, payload, links));
    if snapshot != {} {
      ExecAppend(entry, Build(oldGen, payload), LinkAll(links, oldGen + 1));
      BuildWrites(entry, oldGen, payload);
      LinksOnlyAdd(ExecAll(entry, Build(oldGen, payload)), links, oldGen + 1);
      forall gen | gen != oldGen + 1 ensures SameGeneration(entry, built, gen) {
        BuildSpares(entry, oldGen, payload, gen);
      }
    }
    var flipped := Exec(built, Flip(oldGen + 1));
    CollectRemoves(flipped, oldGen);
    var db := ExecAll(flipped, Collect(oldGen));
    assert SameGeneration(flipped, db, oldGen + 1);
    forall gen | gen != oldGen && gen != oldGen + 1 ensures SameGeneration(entry, db, gen) {
      assert SameGeneration(flipped, db, gen);
      assert SameGeneration(entry, built, gen);
      assert SameGeneration(entry, flipped, gen);
    }
  }
}
