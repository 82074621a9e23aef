/** `reembed_tenant` interleaved with everything else that writes under the tenant write lock: what
    holds in every reachable state, wherever a swap or an insert stops. */
module GenerationSwap {
  import opened Prelude
  import opened Metadata
  import opened Graph
  import opened Generation

  // ----- the machine -----

  /** The swapping worker. `entry` remembers the database at the moment the lock was taken. */
  datatype Swap =
    | Idle
    | TokenRead(oldGen: nat)
    | Snapshotted(oldGen: nat, snapshot: set<Id>)
    | Embedded(oldGen: nat, snapshot: set<Id>, payload: map<Id, Vector>)
    | Writing(oldGen: nat, snapshot: set<Id>, payload: map<Id, Vector>, links: seq<Link>, entry: Versioned, sent: nat)

  /** A point insert, from taking the lock to releasing it. */
  datatype Insert = Entered | TokenKnown(gen: nat) | Created(gen: nat, id: Id)

  datatype Holder = Nobody | Swapper | Inserter(at: Insert)

  datatype State = State(db: Versioned, swap: Swap, holder: Holder)

  /** `Stop` breaks the swap off and `Leave` ends an insert, whether by return or by exception; both release the lock. */
  datatype Event =
    | ReadToken | Snapshot | Embed(payload: map<Id, Vector>) | Lock(links: seq<Link>) | Send | Finish | Stop
    | Enter | Probe | Create(id: Id) | StoreVector(vector: Vector) | Leave
    | LinkPoint(doc: Id, found: set<Id>, gen: nat)
    | WriteEntity(id: Id, gen: nat, embedding: Option<Vector>)
    | DeleteDocument(id: Id)

  function Statements(w: Swap): seq<Statement>
    requires w.Writing?
  {
    LockedStatements(w.oldGen, w.snapshot, w.payload, w.links)
  }

  function FlipAt(w: Swap): nat
    requires w.Writing?
  {
    |BeforeFlip(w.oldGen, w.snapshot, w.payload, w.links)|
  }

  /** The links of a swap are the valid pairs: one per embedded document. */
  ghost predicate LinksOf(links: seq<Link>, payload: map<Id, Vector>) {
    && (forall l :: l in links ==> l.doc in payload)
    && (forall d :: d in payload ==> exists l :: l in links && l.doc == d)
  }

  ghost predicate Enabled(s: State, e: Event) {
    match e
    case ReadToken => s.swap.Idle?
    case Snapshot => s.swap.TokenRead?
    case Embed(payload) => s.swap.Snapshotted? && s.swap.snapshot != {} && payload.Keys <= s.swap.snapshot
    case Lock(links) =>
      && s.holder.Nobody?
      && ((s.swap.Snapshotted? && s.swap.snapshot == {} && links == []) || (s.swap.Embedded? && LinksOf(links, s.swap.payload)))
    case Send => s.swap.Writing? && s.swap.sent < |Statements(s.swap)|
    case Finish => s.swap.Writing? && s.swap.sent == |Statements(s.swap)|
    case Stop => !s.swap.Idle?
    case Enter => s.holder.Nobody?
    case Probe => s.holder == Inserter(Entered)
    case Create(id) => s.holder.Inserter? && s.holder.at.TokenKnown? && id !in s.db.documents
    case StoreVector(vector) => s.holder.Inserter? && s.holder.at.Created?
    case Leave => s.holder.Inserter?
    case LinkPoint(doc, found, gen) => s.holder.Nobody? && gen <= s.db.token && DocumentIndex(gen) in s.db.indexes
    case WriteEntity(id, gen, embedding) => s.holder.Nobody? && gen <= s.db.token
    case DeleteDocument(id) => s.holder.Nobody?
  }

  ghost function Next(s: State, e: Event): State
    requires Enabled(s, e)
  {
    match e
    case ReadToken => s.(swap := TokenRead(s.db.token))
    case Snapshot => s.(swap := Snapshotted(s.swap.oldGen, s.db.documents))
    case Embed(payload) => s.(swap := Embedded(s.swap.oldGen, s.swap.snapshot, payload))
    case Lock(links) =>
      var payload := if s.swap.Embedded? then s.swap.payload else map[];
      s.(swap := Writing(s.swap.oldGen, s.swap.snapshot, payload, links, s.db, 0), holder := Swapper)
    case Send => s.(db := Exec(s.db, Statements(s.swap)[s.swap.sent]), swap := s.swap.(sent := s.swap.sent + 1))
    case Finish => s.(swap := Idle, holder := Nobody)
    case Stop => s.(swap := Idle, holder := if s.swap.Writing? then Nobody else s.holder)
    case Enter => s.(holder := Inserter(Entered))
    case Probe => s.(holder := Inserter(TokenKnown(s.db.token)))
    case Create(id) => s.(db := s.db.(documents := s.db.documents + {id}), holder := Inserter(Created(s.holder.at.gen, id)))
    case StoreVector(vector) => s.(db := s.db.(vectors := s.db.vectors[Slot(s.holder.at.id, s.holder.at.gen) := vector]))
    case Leave => s.(holder := Nobody)
    case LinkPoint(doc, found, gen) => s.(db := Exec(s.db, LinkSimilar(doc, found, gen)))
    case WriteEntity(id, gen, embedding) =>
      s.(db := s.db.(entities := s.db.entities + {id},
                     entityVectors := if embedding.Some? then s.db.entityVectors[Slot(id, gen) := embedding.value] else s.db.entityVectors))
    case DeleteDocument(id) =>
      s.(db := s.db.(documents := s.db.documents - {id},
                     vectors := map x | x in s.db.vectors && x.node != id :: s.db.vectors[x],
                     similar := set x | x in s.db.similar && x.from != id && x.to != id))
  }

  // ----- what every reachable state satisfies -----

  ghost predicate Inv(s: State) {
    && Symmetric(s.db)
    && (s.swap.TokenRead? || s.swap.Snapshotted? || s.swap.Embedded? ==> s.swap.oldGen == s.db.token)
    && (s.swap.Embedded? ==> s.swap.snapshot != {} && s.swap.payload.Keys <= s.swap.snapshot)
    && (s.swap.Writing? <==> s.holder.Swapper?)
    && (s.swap.Writing? ==> Underway(s.db, s.swap))
    && (s.holder.Inserter? && !s.holder.at.Entered? ==> s.holder.at.gen == s.db.token)
    && (s.holder.Inserter? && s.holder.at.Created? ==> s.holder.at.id in s.db.documents)
  }

  /** Similarity edges come in both directions. */
  ghost predicate Symmetric(db: Versioned) {
    forall s :: s in db.similar ==> Similar(s.to, s.from, s.gen) in db.similar
  }

  /** The lock keeps everybody else out: the database is what the statements sent so far made of it. */
  ghost predicate Underway(db: Versioned, w: Swap)
    requires w.Writing?
  {
    && w.sent <= |Statements(w)|
    && w.entry.token == w.oldGen
    && w.payload.Keys <= w.snapshot
    && db == ExecAll(w.entry, Statements(w)[..w.sent])
  }

  lemma SentToken(db: Versioned, w: Swap)
    requires w.Writing? && Underway(db, w)
    ensures db.token == (if w.sent <= FlipAt(w) then w.oldGen else w.oldGen + 1)
    ensures db.documents == w.entry.documents && db.entities == w.entry.entities
  {
    PrefixSpares(w.entry, w.oldGen, w.snapshot, w.payload, w.links, w.sent);
  }

  lemma ExecSymmetric(db: Versioned, st: Statement)
    requires Symmetric(db)
    ensures Symmetric(Exec(db, st))
  {
  }

  lemma SendKeepsUnderway(db: Versioned, w: Swap)
    requires w.Writing? && Underway(db, w) && w.sent < |Statements(w)|
    ensures Underway(Exec(db, Statements(w)[w.sent]), w.(sent := w.sent + 1))
  {
    var all := Statements(w);
    assert all[..w.sent + 1][..w.sent] == all[..w.sent];
  }

  lemma StepKeepsInv(s: State, e: Event)
    requires Inv(s) && Enabled(s, e)
    ensures Inv(Next(s, e))
  {
    match e
    case Send =>
      SendKeepsUnderway(s.db, s.swap);
      ExecSymmetric(s.db, Statements(s.swap)[s.swap.sent]);
    case Lock(links) =>
      var n := Next(s, e);
      assert Statements(n.swap)[..0] == [];
    case LinkPoint(doc, found, gen) =>
      ExecSymmetric(s.db, LinkSimilar(doc, found, gen));
    case _ =>
  }

  // ----- nothing is stored about a node that is not there -----

  /** Vectors belong to nodes that exist, similarity edges join two different documents that exist. */
  ghost predicate Anchored(db: Versioned) {
    && (forall x :: x in db.vectors ==> x.node in db.documents)
    && (forall x :: x in db.entityVectors ==> x.node in db.entities)
    && (forall x :: x in db.similar ==> x.from != x.to && x.from in db.documents && x.to in db.documents)
  }

  lemma ExecKeepsAnchored(db: Versioned, st: Statement)
    requires Anchored(db)
    ensures Anchored(Exec(db, st))
  {
  }

  /** Whatever swaps, inserts, deletions and other writers do, wherever a swap or an insert stops. */
  lemma StepKeepsAnchored(s: State, e: Event)
    requires Inv(s) && Enabled(s, e) && Anchored(s.db)
    ensures Anchored(Next(s, e).db)
  {
    match e
    case Send => ExecKeepsAnchored(s.db, Statements(s.swap)[s.swap.sent]);
    case LinkPoint(doc, found, gen) => ExecKeepsAnchored(s.db, LinkSimilar(doc, found, gen));
    case _ =>
  }

  lemma {:induction false} RunKeepsAnchored(states: seq<State>, events: seq<Event>, i: nat)
    requires Run(states, events) && Inv(states[0]) && Anchored(states[0].db) && i < |states|
    ensures Anchored(states[i].db)
  {
    if i > 0 {
      RunKeepsAnchored(states, events, i - 1);
      RunKeepsInv(states, events, i - 1);
      StepKeepsAnchored(states[i - 1], events[i - 1]);
    }
  }

  /** A deleted document takes its vectors and its similarity edges of every generation along, and nothing else. */
  lemma DeletedDocument(s: State, id: Id, x: Slot, r: Similar)
    requires Inv(s) && Enabled(s, DeleteDocument(id)) && Anchored(s.db)
    ensures var db := Next(s, DeleteDocument(id)).db;
            && id !in db.documents
            && Get(db.vectors, x) == (if x.node in db.documents then Get(s.db.vectors, x) else None)
            && (r in db.similar <==> r in s.db.similar && r.from in db.documents && r.to in db.documents)
            && db == s.db.(documents := db.documents, vectors := db.vectors, similar := db.similar)
            && s.db.documents <= db.documents + {id}
  {
    StepKeepsAnchored(s, DeleteDocument(id));
  }

  // ----- the swap never touches the generation in service -----

  /** A swap statement leaves everything stored under the generation in service before it, and under
      the one in service after it, as it was. */
  lemma SwapSpares(s: State)
    requires Inv(s) && Enabled(s, Send)
    ensures var n := Next(s, Send);
            && SameGeneration(s.db, n.db, s.db.token) && SameGeneration(s.db, n.db, n.db.token)
            && n.db.documents == s.db.documents && n.db.entities == s.db.entities
            && (n.db.token != s.db.token ==> n.db.token == s.db.token + 1 && s.swap.sent == FlipAt(s.swap))
  {
    var w := s.swap;
    SentToken(s.db, w);
    StatementTargets(w.oldGen, w.snapshot, w.payload, w.links, w.sent);
    var st := Statements(w)[w.sent];
    ExecSpares(s.db, st, s.db.token);
    if st.Flip? {
      ExecSpares(s.db, st, w.oldGen + 1);
    }
  }

  /** The generation in service has both of its vector indexes. */
  ghost predicate Intact(db: Versioned) {
    DocumentIndex(db.token) in db.indexes && EntityIndex(db.token) in db.indexes
  }

  /** The step is the flip of a swap that found no documents, and no earlier, stopped swap left the
      indexes of the new generation behind. */
  ghost predicate FlipsToNothing(s: State, e: Event) {
    && e.Send? && s.swap.Writing? && s.swap.snapshot == {} && s.swap.sent == FlipAt(s.swap)
    && !(DocumentIndex(s.swap.oldGen + 1) in s.db.indexes && EntityIndex(s.swap.oldGen + 1) in s.db.indexes)
  }

  /** Every step keeps the generation in service intact, except exactly that flip. */
  lemma StepKeepsIntactIff(s: State, e: Event)
    requires Inv(s) && Enabled(s, e) && Intact(s.db)
    ensures Intact(Next(s, e).db) <==> !FlipsToNothing(s, e)
  {
    if e.Send? {
      SwapSpares(s);
      SentToken(s.db, s.swap);
      StatementTargets(s.swap.oldGen, s.swap.snapshot, s.swap.payload, s.swap.links, s.swap.sent);
      if s.swap.sent == FlipAt(s.swap) && s.swap.snapshot != {} {
        BuiltBeforeFlip(s.db, s.swap);
      }
    }
  }

  lemma BuiltBeforeFlip(db: Versioned, w: Swap)
    requires w.Writing? && Underway(db, w) && w.sent == FlipAt(w) && w.snapshot != {}
    ensures DocumentIndex(w.oldGen + 1) in db.indexes && EntityIndex(w.oldGen + 1) in db.indexes
  {
    var build, links := Build(w.oldGen, w.payload), LinkAll(w.links, w.oldGen + 1);
    assert Statements(w)[..w.sent] == build + links;
    ExecAppend(w.entry, build, links);
    BuildWrites(w.entry, w.oldGen, w.payload);
    LinksOnlyAdd(ExecAll(w.entry, build), w.links, w.oldGen + 1);
  }

  // ----- whole runs -----

  ghost predicate Run(states: seq<State>, events: seq<Event>) {
    && |states| == |events| + 1
    && (forall i :: 0 <= i < |events| ==> Enabled(states[i], events[i]) && states[i + 1] == Next(states[i], events[i]))
  }

  lemma {:induction false} RunKeepsInv(states: seq<State>, events: seq<Event>, i: nat)
    requires Run(states, events) && Inv(states[0]) && i < |states|
    ensures Inv(states[i])
  {
    if i > 0 {
      RunKeepsInv(states, events, i - 1);
      StepKeepsInv(states[i - 1], events[i - 1]);
    }
  }

  /** In a run from an intact generation every state is intact if and only if no swap flips to nothing. */
  lemma RunIntactIff(states: seq<State>, events: seq<Event>)
    requires Run(states, events) && Inv(states[0]) && Intact(states[0].db)
    ensures (forall i :: 0 <= i < |states| ==> Intact(states[i].db))
       <==> (forall i :: 0 <= i < |events| ==> !FlipsToNothing(states[i], events[i]))
  {
    if forall i :: 0 <= i < |events| ==> !FlipsToNothing(states[i], events[i]) {
      forall i | 0 <= i < |states| ensures Intact(states[i].db) {
        IntactUpTo(states, events, i);
      }
    }
    if forall i :: 0 <= i < |states| ==> Intact(states[i].db) {
      forall i | 0 <= i < |events| ensures !FlipsToNothing(states[i], events[i]) {
        RunKeepsInv(states, events, i);
        assert Intact(states[i].db) && Intact(states[i + 1].db);
        StepKeepsIntactIff(states[i], events[i]);
      }
    }
  }

  lemma {:induction false} IntactUpTo(states: seq<State>, events: seq<Event>, i: nat)
    requires Run(states, events) && Inv(states[0]) && Intact(states[0].db) && i < |states|
    requires forall k :: 0 <= k < |events| ==> !FlipsToNothing(states[k], events[k])
    ensures Intact(states[i].db)
  {
    if i > 0 {
      IntactUpTo(states, events, i - 1);
      RunKeepsInv(states, events, i - 1);
      StepKeepsIntactIff(states[i - 1], events[i - 1]);
    }
  }

  lemma StepToken(s: State, e: Event)
    requires Inv(s) && Enabled(s, e)
    ensures s.db.token <= Next(s, e).db.token <= s.db.token + 1
    ensures Next(s, e).db.token != s.db.token ==> e.Send? && s.swap.sent == FlipAt(s.swap)
  {
    if e.Send? {
      SwapSpares(s);
    }
  }

  /** The token only ever moves forward, one flip at a time. */
  lemma {:induction false} TokenMovesForward(states: seq<State>, events: seq<Event>, i: nat, j: nat)
    requires Run(states, events) && Inv(states[0]) && i <= j < |states|
    ensures states[i].db.token <= states[j].db.token <= states[i].db.token + (j - i)
  {
    if i < j {
      TokenMovesForward(states, events, i, j - 1);
      RunKeepsInv(states, events, j - 1);
      assert states[j - 1 + 1] == Next(states[j - 1], events[j - 1]);
      StepToken(states[j - 1], events[j - 1]);
    }
  }

  /** A tenant without documents: four steps after an intact idle state the swap has flipped to a
      generation that has no index at all. */
  lemma EmptySwapLosesIndexes()
    ensures var s0 := State(Versioned({}, {}, map[], map[], {DocumentIndex(1), EntityIndex(1)}, {}, 1), Idle, Nobody);
            var s1 := s0.(swap := TokenRead(1));
            var s2 := s0.(swap := Snapshotted(1, {}));
            var s3 := s0.(swap := Writing(1, {}, map[], [], s0.db, 0), holder := Swapper);
            var s4 := s3.(swap := Writing(1, {}, map[], [], s0.db, 1), db := s0.db.(token := 2));
            && Run([s0, s1, s2, s3, s4], [ReadToken, Snapshot, Lock([]), Send])
            && Inv(s0) && Intact(s0.db) && !Intact(s4.db)
  {
    var s0 := State(Versioned({}, {}, map[], map[], {DocumentIndex(1), EntityIndex(1)}, {}, 1), Idle, Nobody);
    var s3 := s0.(swap := Writing(1, {}, map[], [], s0.db, 0), holder := Swapper);
    assert Statements(s3.swap)[0] == Flip(2);
  }

  // ----- inserts and finished swaps -----

  /** A locked point insert stores its vector under the generation in service, and nowhere else. */
  lemma InsertStoresUnderToken(s: State, vector: Vector)
    requires Inv(s) && Enabled(s, StoreVector(vector))
    ensures var n := Next(s, StoreVector(vector));
            n.db == s.db.(vectors := s.db.vectors[Slot(s.holder.at.id, s.db.token) := vector]) && s.holder.at.id in n.db.documents
  {
  }

  /** When a swap finishes, every snapshot document that still exists and got a valid vector carries
      it under the new generation, and nothing of the old generation is left. */
  lemma FinishedSwap(s: State)
    requires Inv(s) && Enabled(s, Finish)
    ensures Swapped(s.swap.entry, s.swap.oldGen, s.swap.snapshot, s.swap.payload, s.db)
    ensures s.swap.entry.token == s.swap.oldGen && s.db.documents == s.swap.entry.documents
  {
    var w := s.swap;
    SentToken(s.db, w);
    assert Statements(w)[..w.sent] == Statements(w);
    LockedStatementsSwap(w.entry, w.oldGen, w.snapshot, w.payload, w.links);
  }

  // ----- vectors a stopped swap leaves behind -----

  /** The document has a vector under the generation after the one in service. */
  predicate VectorAhead(db: Versioned, d: Id) {
    Slot(d, db.token + 1) in db.vectors
  }

  /** No vector lies further ahead, and those there belong to stored documents. */
  ghost predicate OneAhead(db: Versioned) {
    forall x :: x in db.vectors ==> x.gen <= db.token || (x.gen == db.token + 1 && x.node in db.documents)
  }

  /** The step stores such a vector. */
  ghost predicate StoresAhead(s: State, e: Event, d: Id) {
    && e.Send? && Enabled(s, e) && Statements(s.swap)[s.swap.sent].SetVectors?
    && d in s.swap.payload && d in s.db.documents
  }

  lemma NextStatement(s: State)
    requires Inv(s) && Enabled(s, Send)
    ensures var st := Statements(s.swap)[s.swap.sent];
            && (st.SetVectors? ==> st.payload == s.swap.payload && st.gen == s.db.token + 1)
            && (st.Flip? ==> st.gen == s.db.token + 1)
            && (st.RemoveVectors? ==> st.gen < s.db.token)
  {
    var w := s.swap;
    SentToken(s.db, w);
    StatementTargets(w.oldGen, w.snapshot, w.payload, w.links, w.sent);
    if Statements(w)[w.sent].SetVectors? {
      assert Statements(w)[w.sent] == BeforeFlip(w.oldGen, w.snapshot, w.payload, w.links)[w.sent];
    }
  }

  lemma ExecVectors(db: Versioned, st: Statement, d: Id)
    requires OneAhead(db) && (st.SetVectors? || st.Flip? ==> st.gen == db.token + 1) && (st.RemoveVectors? ==> st.gen < db.token)
    ensures OneAhead(Exec(db, st))
    ensures VectorAhead(Exec(db, st), d) <==> !st.Flip? && (VectorAhead(db, d) || (st.SetVectors? && d in st.payload && d in db.documents))
  {
  }

  lemma StepVectors(s: State, e: Event, d: Id)
    requires Inv(s) && Enabled(s, e) && OneAhead(s.db)
    ensures var n := Next(s, e);
            && OneAhead(n.db)
            && (VectorAhead(n.db, d) <==> n.db.token == s.db.token && ((VectorAhead(s.db, d) && d in n.db.documents) || StoresAhead(s, e, d)))
  {
    match e
    case Send =>
      NextStatement(s);
      SwapSpares(s);
      ExecVectors(s.db, Statements(s.swap)[s.swap.sent], d);
    case StoreVector(_) =>
    case LinkPoint(doc, found, gen) =>
      ExecVectors(s.db, LinkSimilar(doc, found, gen), d);
    case DeleteDocument(_) =>
    case _ =>
  }

  /** Step `k` stored it, and up to state `i` the document stayed and no swap flipped. */
  ghost predicate LeftSince(states: seq<State>, events: seq<Event>, k: nat, i: nat, d: Id)
    requires i < |states| == |events| + 1
  {
    && k < i && StoresAhead(states[k], events[k], d)
    && forall m :: k <= m <= i ==> d in states[m].db.documents && states[m].db.token == states[k].db.token
  }

  ghost predicate Left(states: seq<State>, events: seq<Event>, i: nat, d: Id)
    requires i < |states| == |events| + 1
  {
    exists k: nat :: LeftSince(states, events, k, i, d)
  }

  /** In a run that starts with no vector ahead of the generation in service, a document has one if and
      only if a swap stored it, finished or not, with the document kept and no flip since. */
  lemma {:induction false} VectorAheadIff(states: seq<State>, events: seq<Event>, i: nat, d: Id)
    requires Run(states, events) && Inv(states[0]) && i < |states|
    requires forall x :: x in states[0].db.vectors ==> x.gen <= states[0].db.token
    ensures OneAhead(states[i].db)
    ensures VectorAhead(states[i].db, d) <==> Left(states, events, i, d)
  {
    if i > 0 {
      var last := i - 1;
      VectorAheadIff(states, events, last, d);
      RunKeepsInv(states, events, last);
      assert states[last + 1] == Next(states[last], events[last]);
      StepVectors(states[last], events[last], d);
      LeftPush(states, events, last, i, d);
    }
  }

  lemma LeftPush(states: seq<State>, events: seq<Event>, last: nat, next: nat, d: Id)
    requires Run(states, events) && next == last + 1 < |states|
    requires Inv(states[last]) && OneAhead(states[last].db)
    requires VectorAhead(states[last].db, d) <==> Left(states, events, last, d)
    ensures VectorAhead(states[next].db, d) <==> Left(states, events, next, d)
  {
    var s, n := states[last], states[next];
    assert n == Next(s, events[last]);
    StepVectors(s, events[last], d);
    if StoresAhead(s, events[last], d) {
      SwapSpares(s);
      NextStatement(s);
      assert LeftSince(states, events, last, next, d);
    } else {
      LeftKept(states, events, last, next, d);
    }
  }

  lemma LeftSincePush(states: seq<State>, events: seq<Event>, k: nat, last: nat, next: nat, d: Id)
    requires next == last + 1 < |states| == |events| + 1 && k < last
    ensures LeftSince(states, events, k, next, d)
       <==> LeftSince(states, events, k, last, d) && d in states[next].db.documents && states[next].db.token == states[last].db.token
  {
  }

  lemma LeftKept(states: seq<State>, events: seq<Event>, last: nat, next: nat, d: Id)
    requires next == last + 1 < |states| == |events| + 1 && !StoresAhead(states[last], events[last], d)
    ensures Left(states, events, next, d)
       <==> Left(states, events, last, d) && d in states[next].db.documents && states[next].db.token == states[last].db.token
  {
    forall k: nat | k < last
      ensures LeftSince(states, events, k, next, d)
         <==> LeftSince(states, events, k, last, d) && d in states[next].db.documents && states[next].db.token == states[last].db.token
    {
      LeftSincePush(states, events, k, last, next, d);
    }
  }

  lemma SkippedKeeps(s: State, d: Id)
    requires Inv(s) && Enabled(s, Finish) && d !in s.swap.payload
    ensures Slot(d, s.db.token) in s.db.vectors <==> VectorAhead(s.swap.entry, d)
  {
    FinishedSwap(s);
    assert Get(s.db.vectors, Slot(d, s.db.token)) == Get(s.swap.entry.vectors, Slot(d, s.db.token));
  }

  /** The step at which the swap under way in state `i` took the lock. */
  ghost predicate TookLock(events: seq<Event>, locked: nat, i: nat)
    requires i <= |events|
  {
    locked < i && events[locked].Lock? && forall m :: locked < m < i ==> !events[m].Lock?
  }

  /** The database a swap under way started from is that of the step that took the lock. */
  lemma {:induction false} EntryWasLocked(states: seq<State>, events: seq<Event>, i: nat) returns (locked: nat)
    requires Run(states, events) && !states[0].swap.Writing? && i < |states| && states[i].swap.Writing?
    ensures TookLock(events, locked, i) && states[locked].db == states[i].swap.entry
  {
    var last := i - 1;
    assert states[last + 1] == Next(states[last], events[last]);
    if states[last].swap.Writing? {
      locked := EntryWasLocked(states, events, last);
    } else {
      locked := last;
    }
  }

  /** So a finished swap leaves a vector it did not compute, for a document its payload skips, if and
      only if, when it took the lock, an earlier swap that never flipped had stored one. */
  lemma ForeignVectorIff(states: seq<State>, events: seq<Event>, i: nat, d: Id)
    requires Run(states, events) && Inv(states[0]) && !states[0].swap.Writing? && i < |states|
    requires forall x :: x in states[0].db.vectors ==> x.gen <= states[0].db.token
    requires Enabled(states[i], Finish) && d in states[i].db.documents && d !in states[i].swap.payload
    ensures Slot(d, states[i].db.token) in states[i].db.vectors <==>
            exists locked: nat :: TookLock(events, locked, i) && Left(states, events, locked, d)
  {
    var locked := EntryWasLocked(states, events, i);
    RunKeepsInv(states, events, i);
    SkippedKeeps(states[i], d);
    VectorAheadIff(states, events, locked, d);
    forall other: nat | TookLock(events, other, i) ensures other == locked {
    }
  }

  // ----- entities written under an older generation -----

  /** An entity write embeds under the generation the writing handler last saw, without asking again. Its
      vector is found under the generation in service if and only if that is the one. */
  lemma EntityVisibleIff(s: State, id: Id, gen: nat, vector: Vector)
    requires Enabled(s, WriteEntity(id, gen, Some(vector))) && Get(s.db.entityVectors, Slot(id, s.db.token)) != Some(vector)
    ensures var n := Next(s, WriteEntity(id, gen, Some(vector)));
            && Get(n.db.entityVectors, Slot(id, gen)) == Some(vector)
            && (Get(n.db.entityVectors, Slot(id, n.db.token)) == Some(vector) <==> gen == n.db.token)
  {
  }

  /** After any finished swap a handler that has not noticed it puts the vector under the collected
      generation; no later swap moves or removes it. */
  lemma StaleEntityWrite(s: State, id: Id, vector: Vector)
    requires Inv(s) && Enabled(s, Finish)
    ensures var gen, done := s.swap.oldGen, Next(s, Finish);
            && Collected(done.db, gen) && Enabled(done, WriteEntity(id, gen, Some(vector)))
            && var n := Next(done, WriteEntity(id, gen, Some(vector)));
               !Collected(n.db, gen) && Get(n.db.entityVectors, Slot(id, n.db.token)) == Get(done.db.entityVectors, Slot(id, n.db.token))
  {
    FinishedSwap(s);
    assert Slot(id, s.swap.oldGen) in Next(Next(s, Finish), WriteEntity(id, s.swap.oldGen, Some(vector))).db.entityVectors;
  }

  /** What an earlier generation holds when a swap takes the lock, it holds when the swap has finished. */
  lemma OlderStays(s: State, id: Id, gen: nat)
    requires Inv(s) && Enabled(s, Finish) && gen < s.swap.oldGen
    ensures Get(s.db.entityVectors, Slot(id, gen)) == Get(s.swap.entry.entityVectors, Slot(id, gen))
  {
    FinishedSwap(s);
    assert SameGeneration(s.swap.entry, s.db, gen);
  }
}
