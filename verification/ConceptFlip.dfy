/** The concept-generation flip: compare-and-swap on the marker persisted on a tenant's collections,
    the jobs that saves of the configuration start, and the collection of stale nodes. */
module ConceptFlip {
  import opened Prelude
  import opened Metadata

  /** The fingerprint of a concept configuration; never empty. */
  type Fingerprint = string
  type NodeId = nat
  type JobId = nat
  type Collection = nat

  const MAX_ATTEMPTS := 4

  /** An Entity node. `seen` remembers the generations flipped to since the node was created. */
  datatype Node = Node(id: Id, name: string, tag: Option<Fingerprint>, inactive: bool, mentioned: bool, seen: set<Fingerprint>)

  /** The latest saved generation. `served` remembers whether the marker has equalled it since that
      save, `job` which job the save started. */
  datatype Pending = Pending(gen: Fingerprint, served: bool, job: JobId)

  datatype Flip = Flip(expected: Option<Fingerprint>, to: Fingerprint)

  /** A save is a job too: it reads the marker and, unless that is its own generation, goes on to be
      pending and to recompute. */
  datatype Job =
    | Saving(gen: Fingerprint)
    | Ready(attempts: nat)
    | Looked(attempts: nat, target: Fingerprint)
    | Recomputing(attempts: nat, target: Fingerprint, active: Option<Fingerprint>)
    | Flipped(target: Fingerprint)
    | Popping(target: Fingerprint)
    | Finished | Failed | GaveUp

  /** `markers` is `concept_gen_active` of every collection. History: `marker` is the generation last
      flipped to (at first the one found), `flips` the committed flips. */
  datatype State = State(
    markers: map<Collection, Option<Fingerprint>>, nodes: map<NodeId, Node>,
    pending: Option<Pending>, jobs: map<JobId, Job>,
    first: Option<Fingerprint>, marker: Option<Fingerprint>, flips: seq<Flip>)

  // ----- the statements -----

  function GuardHolds(markers: map<Collection, Option<Fingerprint>>, expected: Option<Fingerprint>): bool {
    if expected.None? then forall c :: c in markers ==> markers[c].None?
    else exists c :: c in markers && markers[c] == expected
  }

  /** `MERGE (c:Collection) SET c.concept_gen_active`: every collection, or a new one if there is none. */
  function SetMarkers(markers: map<Collection, Option<Fingerprint>>, gen: Fingerprint): map<Collection, Option<Fingerprint>> {
    if markers == map[] then map[0 := Some(gen)] else map c | c in markers :: Some(gen)
  }

  function FlagNodes(nodes: map<NodeId, Node>, gen: Fingerprint): map<NodeId, Node> {
    map n | n in nodes ::
      nodes[n].(inactive := nodes[n].inactive || (nodes[n].tag.Some? && nodes[n].tag.value != gen), seen := nodes[n].seen + {gen})
  }

  function Collectable(n: Node): bool {
    n.inactive && !n.mentioned
  }

  function CollectNodes(nodes: map<NodeId, Node>): map<NodeId, Node> {
    map n | n in nodes && !Collectable(nodes[n]) :: nodes[n]
  }

  predicate HasId(nodes: map<NodeId, Node>, id: Id) {
    exists n :: n in nodes && nodes[n].id == id
  }

  predicate HasName(nodes: map<NodeId, Node>, name: string) {
    exists n :: n in nodes && nodes[n].name == name
  }

  predicate OneNamed(nodes: map<NodeId, Node>, name: string) {
    forall m, n :: m in nodes && n in nodes && nodes[m].name == name && nodes[n].name == name ==> m == n
  }

  /** The endpoint write of `_store_concept_relations`: adopt the node with the id, else give the id to
      the node with the name, else create a node; only a created node is tagged. */
  function StoreEndpoint(nodes: map<NodeId, Node>, created: NodeId, id: Id, name: string, gen: Option<Fingerprint>): map<NodeId, Node> {
    if HasId(nodes, id) then map n | n in nodes :: if nodes[n].id == id then nodes[n].(name := name) else nodes[n]
    else if HasName(nodes, name) then map n | n in nodes :: if nodes[n].name == name then nodes[n].(id := id) else nodes[n]
    else nodes[created := Node(id, name, gen, false, false, {})]
  }

  /** The entity MERGE of a source write: tag and flag are removed. */
  function NerMerge(nodes: map<NodeId, Node>, created: NodeId, id: Id, name: string, mentions: bool): map<NodeId, Node> {
    if HasId(nodes, id) then
      map n | n in nodes ::
        if nodes[n].id == id then nodes[n].(name := name, tag := None, inactive := false, mentioned := nodes[n].mentioned || mentions)
        else nodes[n]
    else nodes[created := Node(id, name, None, false, mentions, {})]
  }

  class Tenant {
    var markers: map<Collection, Option<Fingerprint>>
    var nodes: map<NodeId, Node>

    /** `_flip_concept_gen`: one transaction, all or nothing. */
    method FlipConceptGen(expected: Option<Fingerprint>, gen: Fingerprint) returns (flipped: bool)
      modifies this
      ensures flipped <==> GuardHolds(old(markers), expected)
      ensures flipped ==> markers == SetMarkers(old(markers), gen) && nodes == FlagNodes(old(nodes), gen)
      ensures flipped ==> forall c :: c in markers ==> markers[c] == Some(gen)
      ensures !flipped ==> markers == old(markers) && nodes == old(nodes)
    {
      if !GuardHolds(markers, expected) {
        return false;
      }
      nodes := FlagNodes(nodes, gen);
      markers := SetMarkers(markers, gen);
      return true;
    }

    /** Flags that are exact make it delete what became stale and was not mentioned since. */
    method GcStaleConceptNodes()
      modifies this`nodes
      ensures nodes.Keys <= old(nodes).Keys && forall n :: n in nodes ==> nodes[n] == old(nodes)[n]
      ensures forall n :: n in old(nodes) && (old(nodes)[n].mentioned || !old(nodes)[n].inactive) ==> n in nodes
      ensures forall n :: n in nodes && nodes[n].inactive ==> nodes[n].mentioned
      ensures forall n :: n in old(nodes) && FlagExact(old(nodes)[n]) ==> (n !in nodes <==> Stale(old(nodes)[n]))
      ensures nodes == CollectNodes(old(nodes)) && CollectNodes(nodes) == nodes
    {
      ghost var before := nodes;
      nodes := CollectNodes(nodes);
      forall n | n in before && FlagExact(before[n]) ensures n !in nodes <==> Stale(before[n]) {
      }
    }
  }

  // ----- saves, jobs and other writers, interleaved -----

  datatype Event =
    | BeginSave(gen: Fingerprint, job: JobId, from: Option<Collection>)
    | Save(job: JobId)
    | Look(job: JobId)
    | ReadMarker(job: JobId, from: Option<Collection>)
    | TryFlip(job: JobId)
    | Collect(job: JobId)
    | Pop(job: JobId)
    | Raise(job: JobId)
    | StoreConcept(created: NodeId, id: Id, name: string, tag: Option<Fingerprint>)
    | NerWrite(created: NodeId, id: Id, name: string, mentions: bool)
    | LoseMentions(node: NodeId)
    | DeleteNode(node: NodeId)
    | CreateCollection(added: Collection)

  predicate Ended(j: Job) {
    j.Finished? || j.Failed? || j.GaveUp?
  }

  /** The marker is read from one of the collections, if there is any. */
  predicate MayRead(s: State, c: Option<Collection>) {
    if s.markers == map[] then c.None? else c.Some? && c.value in s.markers
  }

  function MarkerRead(s: State, c: Option<Collection>): Option<Fingerprint>
    requires MayRead(s, c)
  {
    if c.None? then None else s.markers[c.value]
  }

  ghost predicate Enabled(s: State, e: Event) {
    match e
    case BeginSave(gen, job, c) => job !in s.jobs && MayRead(s, c)
    case Save(job) => job in s.jobs && s.jobs[job].Saving?
    case Look(job) => job in s.jobs && s.jobs[job].Ready?
    case ReadMarker(job, c) =>
      job in s.jobs && s.jobs[job].Looked? && MayRead(s, c)
    case TryFlip(job) => job in s.jobs && s.jobs[job].Recomputing?
    case Collect(job) => job in s.jobs && s.jobs[job].Flipped?
    case Pop(job) => job in s.jobs && s.jobs[job].Popping?
    case Raise(job) => job in s.jobs && (s.jobs[job].Recomputing? || s.jobs[job].Flipped? || s.jobs[job].Looked?)
    case StoreConcept(created, id, name, tag) => created !in s.nodes && (HasId(s.nodes, id) || OneNamed(s.nodes, name))
    case NerWrite(created, id, name, mentions) => created !in s.nodes
    case LoseMentions(node) => node in s.nodes
    case DeleteNode(node) => node in s.nodes
    case CreateCollection(c) => c !in s.markers
  }

  ghost function Next(s: State, e: Event): State
    requires Enabled(s, e)
  {
    match e
    case BeginSave(gen, job, c) =>
      s.(jobs := s.jobs[job := if MarkerRead(s, c) == Some(gen) then Finished else Saving(gen)])
    case Save(job) =>
      var gen := s.jobs[job].gen;
      s.(pending := Some(Pending(gen, s.marker == Some(gen), job)), jobs := s.jobs[job := Ready(0)])
    case Look(job) =>
      s.(jobs := s.jobs[job := if s.pending.None? then Finished else Looked(s.jobs[job].attempts + 1, s.pending.value.gen)])
    case ReadMarker(job, c) =>
      var j := s.jobs[job];
      var active := MarkerRead(s, c);
      s.(jobs := s.jobs[job := if active == Some(j.target) then Popping(j.target) else Recomputing(j.attempts, j.target, active)])
    case TryFlip(job) =>
      var j := s.jobs[job];
      if GuardHolds(s.markers, j.active) then
        s.(markers := SetMarkers(s.markers, j.target), nodes := FlagNodes(s.nodes, j.target),
           jobs := s.jobs[job := Flipped(j.target)],
           pending := if s.pending.Some? && s.pending.value.gen == j.target then Some(s.pending.value.(served := true)) else s.pending,
           marker := Some(j.target), flips := s.flips + [Flip(j.active, j.target)])
      else
        s.(jobs := s.jobs[job := if j.attempts < MAX_ATTEMPTS then Ready(j.attempts) else GaveUp])
    case Collect(job) => s.(nodes := CollectNodes(s.nodes), jobs := s.jobs[job := Popping(s.jobs[job].target)])
    case Pop(job) =>
      s.(pending := if s.pending.Some? && s.pending.value.gen == s.jobs[job].target then None else s.pending,
         jobs := s.jobs[job := Finished])
    case Raise(job) => s.(jobs := s.jobs[job := Failed])
    case StoreConcept(created, id, name, tag) => s.(nodes := StoreEndpoint(s.nodes, created, id, name, tag))
    case NerWrite(created, id, name, mentions) => s.(nodes := NerMerge(s.nodes, created, id, name, mentions))
    case LoseMentions(node) => s.(nodes := s.nodes[node := s.nodes[node].(mentioned := false)])
    case DeleteNode(node) => s.(nodes := s.nodes - {node})
    case CreateCollection(c) => s.(markers := s.markers[c := None])
  }

  ghost predicate Run(states: seq<State>, events: seq<Event>) {
    && |states| == |events| + 1
    && (forall i :: 0 <= i < |events| ==> Enabled(states[i], events[i]) && states[i + 1] == Next(states[i], events[i]))
  }

  // ----- flips form a chain -----

  /** The collections that carry a marker carry the same one. */
  ghost predicate OneMarker(s: State) {
    && (forall c :: c in s.markers ==> s.markers[c].None? || s.markers[c] == s.marker)
    && (s.marker.Some? ==> exists c :: c in s.markers && s.markers[c] == s.marker)
  }

  /** `first` is the marker before the flips, `last` the one after them. */
  ghost predicate Chain(first: Option<Fingerprint>, flips: seq<Flip>, last: Option<Fingerprint>) {
    && (forall i :: 0 < i < |flips| ==> flips[i].expected == Some(flips[i - 1].to))
    && (flips == [] ==> last == first)
    && (flips != [] ==> flips[0].expected == first && last == Some(flips[|flips| - 1].to))
  }

  ghost predicate Chained(s: State) {
    Chain(s.first, s.flips, s.marker)
  }

  lemma GuardMeansMarker(s: State, expected: Option<Fingerprint>)
    requires OneMarker(s)
    ensures GuardHolds(s.markers, expected) <==> s.marker == expected
  {
  }

  /** In every interleaving of saves and jobs each committed flip expected exactly the marker the
      previous one left. */
  lemma StepKeepsChain(s: State, e: Event)
    requires OneMarker(s) && Chained(s) && Enabled(s, e)
    ensures OneMarker(Next(s, e)) && Chained(Next(s, e))
    ensures s.flips <= Next(s, e).flips && Next(s, e).first == s.first
  {
    match e
    case TryFlip(job) =>
      var n := Next(s, e);
      GuardMeansMarker(s, s.jobs[job].active);
      if n.marker != s.marker || n.flips != s.flips {
        assert exists c :: c in n.markers && n.markers[c] == n.marker by {
          if s.markers == map[] {
            assert 0 in n.markers;
          } else {
            var c :| c in s.markers;
            assert c in n.markers;
          }
        }
      }
    case CreateCollection(_) =>
      var n := Next(s, e);
      if s.marker.Some? {
        var c :| c in s.markers && s.markers[c] == s.marker;
        assert c in n.markers && n.markers[c] == n.marker;
      }
    case _ =>
  }

  lemma {:induction false} RunKeepsChain(states: seq<State>, events: seq<Event>, i: nat)
    requires Run(states, events) && OneMarker(states[0]) && Chained(states[0]) && i < |states|
    ensures OneMarker(states[i]) && Chained(states[i])
  {
    if i > 0 {
      RunKeepsChain(states, events, i - 1);
      StepKeepsChain(states[i - 1], events[i - 1]);
    }
  }

  // ----- what collection deletes -----

  /** A flag means the node is tagged and a flip to another generation committed since it was created. */
  ghost predicate FlagExact(n: Node) {
    n.inactive <==> n.tag.Some? && exists g :: g in n.seen && g != n.tag.value
  }

  ghost predicate FlagsExact(s: State) {
    forall n :: n in s.nodes ==> FlagExact(s.nodes[n])
  }

  lemma StepKeepsFlagsExact(s: State, e: Event)
    requires FlagsExact(s) && Enabled(s, e)
    ensures FlagsExact(Next(s, e))
  {
    var h := Next(s, e);
    forall n | n in h.nodes ensures FlagExact(h.nodes[n]) {
      if n in s.nodes {
        assert FlagExact(s.nodes[n]);
        if e.TryFlip? && h.flips != s.flips {
          var gen := s.jobs[e.job].target;
          assert h.nodes[n].seen == s.nodes[n].seen + {gen};
          assert gen in h.nodes[n].seen;
        }
      }
    }
  }

  lemma {:induction false} RunKeepsFlagsExact(states: seq<State>, events: seq<Event>, i: nat)
    requires Run(states, events) && FlagsExact(states[0]) && i < |states|
    ensures FlagsExact(states[i])
  {
    if i > 0 {
      RunKeepsFlagsExact(states, events, i - 1);
      StepKeepsFlagsExact(states[i - 1], events[i - 1]);
    }
  }

  /** Tagged, unmentioned, and already there when a flip to another generation committed. */
  ghost predicate Stale(n: Node) {
    n.tag.Some? && !n.mentioned && exists g :: g in n.seen && g != n.tag.value
  }

  /** Collection deletes exactly the unmentioned nodes that are tagged and were already there when a
      flip to another generation committed; never an untagged or a mentioned one. */
  lemma CollectsExactly(s: State, job: JobId, n: NodeId)
    requires FlagsExact(s) && Enabled(s, Collect(job)) && n in s.nodes
    ensures n !in Next(s, Collect(job)).nodes <==> Stale(s.nodes[n])
    ensures n in Next(s, Collect(job)).nodes ==> Next(s, Collect(job)).nodes[n] == s.nodes[n]
  {
    assert FlagExact(s.nodes[n]);
  }

  // ----- when a collection deletes a current node -----

  /** The step is a flip that commits, to another generation than `gen`. */
  ghost predicate FlipsAway(s: State, e: Event, gen: Fingerprint) {
    Commits(s, e) && s.jobs[e.job].target != gen
  }

  /** From state `from` to state `to` the node stays and keeps the tag. */
  ghost predicate Kept(states: seq<State>, n: NodeId, from: nat, to: nat, gen: Fingerprint)
    requires to < |states|
  {
    forall k :: from <= k <= to ==> n in states[k].nodes && states[k].nodes[n].tag == Some(gen)
  }

  /** A flip away from the tag of the node at step `flip`, and at step `gc` a collection under that tag
      again; meanwhile the node was neither deleted nor merged by a source write, and it is unmentioned. */
  ghost predicate Overtaken(states: seq<State>, events: seq<Event>, n: NodeId, flip: nat, gc: nat) {
    && |states| == |events| + 1 && flip < gc < |events| && events[gc].Collect? && states[gc].marker.Some?
    && FlipsAway(states[flip], events[flip], states[gc].marker.value)
    && Kept(states, n, flip, gc, states[gc].marker.value)
    && !states[gc].nodes[n].mentioned
  }

  /** What a reader sees: untagged nodes and those tagged with the marker. */
  ghost predicate Visible(s: State, n: NodeId) {
    n in s.nodes && (s.nodes[n].tag.None? || s.nodes[n].tag == s.marker)
  }

  ghost predicate Unflagged(s: State) {
    forall n :: n in s.nodes ==> !s.nodes[n].inactive
  }

  lemma FlagStep(s: State, e: Event, n: NodeId)
    requires Enabled(s, e) && n in Next(s, e).nodes && Next(s, e).nodes[n].inactive
    ensures n in s.nodes && s.nodes[n].tag == Next(s, e).nodes[n].tag
    ensures s.nodes[n].inactive || (s.nodes[n].tag.Some? && FlipsAway(s, e, s.nodes[n].tag.value))
  {
  }

  lemma FlagStays(s: State, e: Event, n: NodeId, gen: Fingerprint)
    requires Enabled(s, e) && n in s.nodes && s.nodes[n].tag == Some(gen)
    requires n in Next(s, e).nodes && Next(s, e).nodes[n].tag == Some(gen)
    requires s.nodes[n].inactive || FlipsAway(s, e, gen)
    ensures Next(s, e).nodes[n].inactive
  {
  }

  /** A flagged node saw a flip away from its tag, and has kept it since. */
  lemma {:induction false} FlaggedSince(states: seq<State>, events: seq<Event>, n: NodeId, i: nat) returns (flip: nat)
    requires Run(states, events) && Unflagged(states[0]) && i < |states| && n in states[i].nodes && states[i].nodes[n].inactive
    ensures flip < i && states[i].nodes[n].tag.Some?
    ensures FlipsAway(states[flip], events[flip], states[i].nodes[n].tag.value) && Kept(states, n, flip, i, states[i].nodes[n].tag.value)
  {
    var last := i - 1;
    assert states[last + 1] == Next(states[last], events[last]);
    FlagStep(states[last], events[last], n);
    if states[last].nodes[n].inactive {
      flip := FlaggedSince(states, events, n, last);
    } else {
      flip := last;
    }
    KeptPush(states, n, flip, last, states[i].nodes[n].tag.value);
  }

  lemma KeptPush(states: seq<State>, n: NodeId, from: nat, to: nat, gen: Fingerprint)
    requires to + 1 < |states| && from <= to && n in states[to].nodes && n in states[to + 1].nodes
    requires states[to].nodes[n].tag == states[to + 1].nodes[n].tag == Some(gen)
    requires from == to || Kept(states, n, from, to, gen)
    ensures Kept(states, n, from, to + 1, gen)
  {
  }

  lemma {:induction false} KeptFlagged(states: seq<State>, events: seq<Event>, n: NodeId, flip: nat, i: nat, gen: Fingerprint)
    requires Run(states, events) && flip < i < |states| && FlipsAway(states[flip], events[flip], gen) && Kept(states, n, flip, i, gen)
    ensures states[i].nodes[n].inactive
  {
    assert states[i - 1 + 1] == Next(states[i - 1], events[i - 1]);
    if flip < i - 1 {
      KeptFlagged(states, events, n, flip, i - 1, gen);
    }
    FlagStays(states[i - 1], events[i - 1], n, gen);
  }

  lemma SparedIff(states: seq<State>, events: seq<Event>, n: NodeId, gc: nat)
    requires Run(states, events) && Unflagged(states[0]) && gc < |events| && events[gc].Collect? && Visible(states[gc], n)
    ensures n in states[gc + 1].nodes <==> forall flip :: !Overtaken(states, events, n, flip, gc)
  {
    var s := states[gc];
    assert states[gc + 1] == Next(s, events[gc]);
    if flip :| Overtaken(states, events, n, flip, gc) {
      KeptFlagged(states, events, n, flip, gc, s.marker.value);
    }
    if n !in states[gc + 1].nodes {
      var flip := FlaggedSince(states, events, n, gc);
      assert Overtaken(states, events, n, flip, gc);
    }
  }

  /** In a run that starts without flagged nodes every collection spares every visible node, if and only
      if no unmentioned node kept its tag from a flip away from it to a collection under it. */
  lemma CollectionSparesVisibleIff(states: seq<State>, events: seq<Event>)
    requires Run(states, events) && Unflagged(states[0])
    ensures (forall gc, n :: 0 <= gc < |events| && events[gc].Collect? && Visible(states[gc], n) ==> n in states[gc + 1].nodes)
       <==> (forall n, flip: nat, gc: nat :: !Overtaken(states, events, n, flip, gc))
  {
    forall gc, n | 0 <= gc < |events| && events[gc].Collect? && Visible(states[gc], n)
      ensures n in states[gc + 1].nodes <==> forall flip :: !Overtaken(states, events, n, flip, gc)
    {
      SparedIff(states, events, n, gc);
    }
    forall n, flip: nat, gc: nat | Overtaken(states, events, n, flip, gc) ensures Visible(states[gc], n) {
    }
  }

  lemma {:induction false} FlippedBack(states: seq<State>, events: seq<Event>, from: nat, to: nat, gen: Fingerprint) returns (back: nat)
    requires Run(states, events) && from < to < |states| && states[from].marker != Some(gen) && states[to].marker == Some(gen)
    ensures from <= back < to && FlipsTo(states, events, back, gen)
  {
    var last := to - 1;
    assert states[last + 1] == Next(states[last], events[last]);
    if states[last].marker == Some(gen) {
      back := FlippedBack(states, events, from, last, gen);
    } else {
      back := last;
    }
  }

  ghost predicate FlipsTo(states: seq<State>, events: seq<Event>, i: nat, gen: Fingerprint)
    requires Run(states, events) && i < |events|
  {
    Commits(states[i], events[i]) && states[i].jobs[events[i].job].target == gen
  }

  /** So a second flip, back to the tag, comes in between. */
  lemma OvertakenFlipsBack(states: seq<State>, events: seq<Event>, n: NodeId, flip: nat, gc: nat)
    requires Run(states, events) && Overtaken(states, events, n, flip, gc)
    ensures exists back :: flip < back < gc && FlipsTo(states, events, back, states[gc].marker.value)
  {
    assert states[flip + 1] == Next(states[flip], events[flip]);
    if flip + 1 < gc {
      var back := FlippedBack(states, events, flip + 1, gc, states[gc].marker.value);
    }
  }

  // ----- pending saves -----

  ghost function SavedGen(s: State, e: Event): Fingerprint
    requires e.Save? && Enabled(s, e)
  {
    s.jobs[e.job].gen
  }

  ghost predicate MarkerReached(states: seq<State>, after: nat, to: nat, gen: Fingerprint)
    requires to < |states|
  {
    exists m :: after < m <= to && states[m].marker == Some(gen)
  }

  /** The save made at step `i` is pending in all states up to `k`. */
  ghost predicate StaysPending(states: seq<State>, events: seq<Event>, i: nat, k: nat)
    requires |states| == |events| + 1 && i < k < |states| && events[i].Save?
  {
    forall m :: i < m <= k ==> states[m].pending.Some? && states[m].pending.value.job == events[i].job
  }

  /** While the save made at step `i` stays pending, it counts as served if and only if the marker
      has equalled it in some state since. */
  lemma {:induction false} ServedMeans(states: seq<State>, events: seq<Event>, i: nat, k: nat)
    requires Run(states, events) && i < k < |states| && events[i].Save? && StaysPending(states, events, i, k)
    ensures states[k].pending.value.gen == SavedGen(states[i], events[i])
    ensures states[k].pending.value.served <==> MarkerReached(states, i, k, SavedGen(states[i], events[i]))
  {
    var gen := SavedGen(states[i], events[i]);
    if k == i + 1 {
      assert states[i + 1] == Next(states[i], events[i]);
      assert states[k].marker == states[i].marker;
      if states[k].pending.value.served {
        assert states[k].marker == Some(gen);
      }
    } else {
      ServedMeans(states, events, i, k - 1);
      SavedJobStays(states, events, i + 1, k - 1, events[i].job);
      PendingStays(states, events, i, k);
      ReachedStep(states, i, k, gen);
    }
  }

  lemma PendingStays(states: seq<State>, events: seq<Event>, i: nat, k: nat)
    requires Run(states, events) && i < k - 1 < k < |states|
    requires states[k - 1].pending.Some? && PendingJobReady(states[k - 1])
    requires states[k].pending.Some? && states[k].pending.value.job == states[k - 1].pending.value.job
    ensures var gen := states[k - 1].pending.value.gen;
            && states[k].pending.value.gen == gen
            && (states[k].pending.value.served <==> states[k - 1].pending.value.served || (states[k].marker == Some(gen) && states[k].flips != states[k - 1].flips))
            && (states[k].flips == states[k - 1].flips ==> states[k].marker == states[k - 1].marker)
  {
    assert states[k - 1 + 1] == Next(states[k - 1], events[k - 1]);
    ServedStep(states[k - 1], events[k - 1]);
  }

  ghost predicate PendingJobReady(s: State) {
    s.pending.Some? ==> s.pending.value.job in s.jobs && !s.jobs[s.pending.value.job].Saving?
  }

  lemma ReachedStep(states: seq<State>, i: nat, k: nat, gen: Fingerprint)
    requires i < k - 1 < k < |states|
    ensures MarkerReached(states, i, k, gen) <==> MarkerReached(states, i, k - 1, gen) || states[k].marker == Some(gen)
    ensures states[k - 1].marker == Some(gen) ==> MarkerReached(states, i, k - 1, gen)
  {
  }

  lemma {:induction false} SavedJobStays(states: seq<State>, events: seq<Event>, from: nat, to: nat, job: JobId)
    requires Run(states, events) && from <= to < |states| && job in states[from].jobs && !states[from].jobs[job].Saving?
    ensures job in states[to].jobs && !states[to].jobs[job].Saving?
  {
    if from < to {
      var last := to - 1;
      SavedJobStays(states, events, from, last, job);
      assert states[last + 1] == Next(states[last], events[last]);
      JobStays(states[last], events[last], job);
    }
  }

  lemma JobStays(s: State, e: Event, job: JobId)
    requires Enabled(s, e) && job in s.jobs && !s.jobs[job].Saving?
    ensures job in Next(s, e).jobs && !Next(s, e).jobs[job].Saving?
  {
  }

  lemma ServedStep(s: State, e: Event)
    requires Enabled(s, e) && s.pending.Some? && PendingJobReady(s)
    requires Next(s, e).pending.Some? && Next(s, e).pending.value.job == s.pending.value.job
    ensures var n := Next(s, e);
            && n.pending.value.gen == s.pending.value.gen
            && (n.pending.value.served <==> s.pending.value.served || (n.flips != s.flips && n.marker == Some(s.pending.value.gen)))
            && (n.flips == s.flips ==> n.marker == s.marker)
  {
  }

  /** The job has flipped to this generation, or found the marker to be it, and will pop it. */
  ghost predicate Past(s: State, job: JobId, gen: Fingerprint) {
    job in s.jobs && (s.jobs[job].Flipped? || s.jobs[job].Popping?) && s.jobs[job].target == gen
  }

  lemma PastStep(s: State, e: Event, job: JobId, gen: Fingerprint)
    requires Enabled(s, e) && OneMarker(s) && Past(Next(s, e), job, gen)
    ensures Past(s, job, gen) || Next(s, e).marker == Some(gen)
  {
  }

  lemma {:induction false} PastSince(states: seq<State>, events: seq<Event>, i: nat, m: nat, job: JobId, gen: Fingerprint)
    requires Run(states, events) && OneMarker(states[0]) && Chained(states[0]) && i <= m < |states| && Past(states[m], job, gen)
    ensures Past(states[i], job, gen) || MarkerReached(states, i, m, gen)
  {
    if i < m {
      var last := m - 1;
      RunKeepsChain(states, events, last);
      assert states[last + 1] == Next(states[last], events[last]);
      PastStep(states[last], events[last], job, gen);
      if Past(states[last], job, gen) {
        PastSince(states, events, i, last, job, gen);
      }
    }
  }

  /** A pending save that is removed was served, meaning that the marker has equalled it since; or the
      job that removes it had flipped to the same configuration before the save. */
  lemma RemovedOnlyWhenServed(states: seq<State>, events: seq<Event>, i: nat, p: nat)
    requires Run(states, events) && OneMarker(states[0]) && Chained(states[0])
    requires i < p < |events| && events[i].Save? && StaysPending(states, events, i, p) && states[p + 1].pending.None?
    ensures events[p].Pop?
    ensures MarkerReached(states, i, p, SavedGen(states[i], events[i])) || Past(states[i], events[p].job, SavedGen(states[i], events[i]))
  {
    assert states[p + 1] == Next(states[p], events[p]);
    ServedMeans(states, events, i, p);
    PastSince(states, events, i, p, events[p].job, SavedGen(states[i], events[i]));
  }

  // ----- the job of a pending save -----

  /** The job a save started is still at work on it, or ended with an error or out of attempts. */
  ghost predicate LatestAttended(s: State) {
    s.pending.Some? ==>
      && s.pending.value.job in s.jobs
      && var j := s.jobs[s.pending.value.job];
         !j.Finished? && !j.Saving? && (!Ended(j) && !j.Ready? ==> j.target == s.pending.value.gen)
  }

  lemma StepKeepsLatestAttended(s: State, e: Event)
    requires LatestAttended(s) && Enabled(s, e)
    ensures LatestAttended(Next(s, e))
  {
  }

  /** A saved generation stays pending only while its job runs, or after that job raised or gave up. */
  lemma {:induction false} PendingIsAttended(states: seq<State>, events: seq<Event>, i: nat)
    requires Run(states, events) && LatestAttended(states[0]) && i < |states|
    ensures LatestAttended(states[i])
  {
    if i > 0 {
      PendingIsAttended(states, events, i - 1);
      assert states[i - 1 + 1] == Next(states[i - 1], events[i - 1]);
      StepKeepsLatestAttended(states[i - 1], events[i - 1]);
    }
  }

  // ----- whether the latest save wins -----

  /** Nothing is running, nothing failed, nothing gave up. */
  ghost predicate Quiet(s: State) {
    forall j :: j in s.jobs ==> s.jobs[j].Finished?
  }

  ghost predicate NoSave(events: seq<Event>, i: nat, k: nat)
    requires k <= |events|
  {
    forall m :: i < m < k ==> !events[m].Save?
  }

  ghost predicate Commits(s: State, e: Event) {
    e.TryFlip? && Enabled(s, e) && GuardHolds(s.markers, s.jobs[e.job].active)
  }

  ghost predicate NoFlip(states: seq<State>, events: seq<Event>, i: nat, k: nat)
    requires k <= |events| < |states|
  {
    forall f :: i < f < k ==> !Commits(states[f], events[f])
  }

  ghost predicate LastFlip(states: seq<State>, events: seq<Event>, i: nat, k: nat, f: nat)
    requires k <= |events| < |states|
  {
    i < f < k && Commits(states[f], events[f]) && NoFlip(states, events, f, k)
  }

  /** The job looked at the pending save after step `i`. */
  ghost predicate LookedIn(events: seq<Event>, i: nat, k: nat, job: JobId)
    requires k <= |events|
  {
    exists l :: i < l < k && events[l] == Look(job)
  }

  /** The job is at work on this generation. */
  ghost predicate WorksOn(s: State, job: JobId, gen: Fingerprint) {
    job in s.jobs && (s.jobs[job].Looked? || s.jobs[job].Recomputing?) && s.jobs[job].target == gen
  }

  lemma {:induction false} MarkerStands(states: seq<State>, events: seq<Event>, i: nat, k: nat)
    requires Run(states, events) && i < k < |states| && NoFlip(states, events, i, k)
    ensures states[k].marker == states[i + 1].marker
  {
    if i + 1 < k {
      MarkerStands(states, events, i, k - 1);
      assert states[k - 1 + 1] == Next(states[k - 1], events[k - 1]);
    }
  }

  lemma {:induction false} FindLastFlip(states: seq<State>, events: seq<Event>, i: nat, k: nat) returns (f: nat)
    requires Run(states, events) && i < k < |states| && !NoFlip(states, events, i, k)
    ensures LastFlip(states, events, i, k, f)
  {
    if Commits(states[k - 1], events[k - 1]) {
      f := k - 1;
    } else {
      f := FindLastFlip(states, events, i, k - 1);
    }
  }

  lemma {:induction false} PendingSince(states: seq<State>, events: seq<Event>, i: nat, m: nat)
    requires Run(states, events) && i < m < |states| && NoSave(events, i, m)
    ensures states[m].pending.Some? ==>
              && states[i + 1].pending.Some? && states[m].pending.value.gen == states[i + 1].pending.value.gen
              && states[m].pending.value.job == states[i + 1].pending.value.job
  {
    if i + 1 < m {
      PendingSince(states, events, i, m - 1);
      assert states[m - 1 + 1] == Next(states[m - 1], events[m - 1]);
    }
  }

  lemma WorkStep(s: State, e: Event, job: JobId, gen: Fingerprint)
    requires Enabled(s, e) && WorksOn(Next(s, e), job, gen)
    ensures if e == Look(job) then s.pending.Some? && s.pending.value.gen == gen else WorksOn(s, job, gen)
  {
  }

  /** What a job works on is what was pending after step `i`, if it has looked since; otherwise it was
      at work on it already. */
  lemma {:induction false} WorksSince(states: seq<State>, events: seq<Event>, i: nat, m: nat, job: JobId, gen: Fingerprint)
    requires Run(states, events) && i < m < |states| && NoSave(events, i, m) && events[i] != Look(job) && WorksOn(states[m], job, gen)
    ensures if LookedIn(events, i, m, job) then states[i + 1].pending.Some? && states[i + 1].pending.value.gen == gen
            else WorksOn(states[i], job, gen)
  {
    var last := m - 1;
    assert states[last + 1] == Next(states[last], events[last]);
    WorkStep(states[last], events[last], job, gen);
    if i < last {
      if events[last] == Look(job) {
        PendingSince(states, events, i, last);
      } else {
        WorksSince(states, events, i, last, job, gen);
        assert LookedIn(events, i, m, job) <==> LookedIn(events, i, last, job);
      }
    }
  }

  /** The marker a last flip leaves. */
  lemma FlipLeaves(states: seq<State>, events: seq<Event>, i: nat, k: nat, f: nat, gen: Fingerprint)
    requires Run(states, events) && i < k < |states| && NoSave(events, i, k) && (events[i].Save? || events[i].BeginSave?)
    requires LastFlip(states, events, i, k, f)
    ensures states[k].marker == Some(gen) <==>
            if LookedIn(events, i, f, events[f].job) then states[i + 1].pending.Some? && states[i + 1].pending.value.gen == gen
            else WorksOn(states[i], events[f].job, gen)
  {
    var job := events[f].job;
    var target := states[f].jobs[job].target;
    assert states[f + 1] == Next(states[f], events[f]);
    MarkerStands(states, events, f, k);
    WorksSince(states, events, i, f, job, target);
  }

  /** A save that is no longer pending was removed by a step in between. */
  lemma {:induction false} FindRemoval(states: seq<State>, events: seq<Event>, i: nat, k: nat) returns (p: nat)
    requires Run(states, events) && i < k < |states| && events[i].Save? && NoSave(events, i, k) && states[k].pending.None?
    ensures i < p < k && StaysPending(states, events, i, p) && states[p + 1].pending.None?
  {
    assert states[i + 1] == Next(states[i], events[i]);
    if states[k - 1].pending.None? {
      p := FindRemoval(states, events, i, k - 1);
    } else {
      p := k - 1;
      AlwaysPending(states, events, i, p);
    }
  }

  lemma {:induction false} AlwaysPending(states: seq<State>, events: seq<Event>, i: nat, p: nat)
    requires Run(states, events) && i < p < |states| && events[i].Save? && NoSave(events, i, p) && states[p].pending.Some?
    ensures StaysPending(states, events, i, p)
  {
    assert states[i + 1] == Next(states[i], events[i]);
    PendingSince(states, events, i, p);
    if i + 1 < p {
      assert states[p - 1 + 1] == Next(states[p - 1], events[p - 1]);
      AlwaysPending(states, events, i, p - 1);
    }
  }

  /** Without a flip after the save everything can only come to rest if the marker is the saved
      generation, or some job was past it when the save came. */
  lemma RestsWithoutFlip(states: seq<State>, events: seq<Event>, i: nat, k: nat)
    requires Run(states, events) && OneMarker(states[0]) && Chained(states[0]) && LatestAttended(states[0])
    requires i < k < |states| && events[i].Save? && NoSave(events, i, k) && Quiet(states[k]) && NoFlip(states, events, i, k)
    ensures var gen := SavedGen(states[i], events[i]);
            && states[k].marker == states[i].marker
            && (states[k].marker == Some(gen) || exists j :: Past(states[i], j, gen))
  {
    var gen := SavedGen(states[i], events[i]);
    assert states[i + 1] == Next(states[i], events[i]);
    MarkerStands(states, events, i, k);
    PendingIsAttended(states, events, k);
    var p := FindRemoval(states, events, i, k);
    RemovedOnlyWhenServed(states, events, i, p);
    if MarkerReached(states, i, p, gen) {
      var m :| i < m <= p && states[m].marker == Some(gen);
      MarkerStands(states, events, i, m);
    }
  }

  /** If a flip commits after the save, the job of the last such flip looked after the save, or was at work
      on the same configuration when it came. If none does, the marker was that configuration, or no
      job was past it when the save came. */
  ghost predicate LatestWins(states: seq<State>, events: seq<Event>, i: nat, k: nat)
    requires Run(states, events) && i < k < |states| && events[i].Save?
  {
    var gen := SavedGen(states[i], events[i]);
    && (NoFlip(states, events, i, k) ==> states[i].marker == Some(gen) || forall j :: !Past(states[i], j, gen))
    && (forall f: nat :: LastFlip(states, events, i, k, f) ==> LookedIn(events, i, f, events[f].job) || WorksOn(states[i], events[f].job, gen))
  }

  /** Once everything is quiet the marker is the configuration saved last if and only if `LatestWins`. */
  lemma LatestSaveWinsIff(states: seq<State>, events: seq<Event>, i: nat, k: nat)
    requires Run(states, events) && OneMarker(states[0]) && Chained(states[0]) && LatestAttended(states[0])
    requires i < k < |states| && events[i].Save? && NoSave(events, i, k) && Quiet(states[k])
    ensures states[k].marker == Some(SavedGen(states[i], events[i])) <==> LatestWins(states, events, i, k)
  {
    var gen := SavedGen(states[i], events[i]);
    assert states[i + 1] == Next(states[i], events[i]);
    if NoFlip(states, events, i, k) {
      RestsWithoutFlip(states, events, i, k);
      assert forall f: nat :: !LastFlip(states, events, i, k, f);
    } else {
      var last := FindLastFlip(states, events, i, k);
      FlipLeaves(states, events, i, k, last, gen);
      forall f: nat | LastFlip(states, events, i, k, f) ensures f == last {
      }
    }
  }

  /** So for a configuration no job is busy with: if and only if the last flip after the save, if there
      is one, is by a job that looked after it. */
  lemma FreshSaveWinsIff(states: seq<State>, events: seq<Event>, i: nat, k: nat)
    requires Run(states, events) && OneMarker(states[0]) && Chained(states[0]) && LatestAttended(states[0])
    requires i < k < |states| && events[i].Save? && NoSave(events, i, k) && Quiet(states[k])
    requires forall j :: !WorksOn(states[i], j, SavedGen(states[i], events[i])) && !Past(states[i], j, SavedGen(states[i], events[i]))
    ensures states[k].marker == Some(SavedGen(states[i], events[i]))
       <==> forall f: nat :: LastFlip(states, events, i, k, f) ==> LookedIn(events, i, f, events[f].job)
  {
    LatestSaveWinsIff(states, events, i, k);
  }

  /** A save that finds the marker equal to its configuration returns and leaves an older pending save in
      place. Later the marker is still that configuration if and only if the last flip since, if there is
      one, is by a job that looked and found it pending, or was at work on it already. */
  lemma UnchangedSaveWinsIff(states: seq<State>, events: seq<Event>, i: nat, k: nat)
    requires Run(states, events) && OneMarker(states[0]) && Chained(states[0])
    requires i < k < |states| && events[i].BeginSave? && NoSave(events, i, k)
    requires MarkerRead(states[i], events[i].from) == Some(events[i].gen)
    ensures states[i + 1].pending == states[i].pending
    ensures states[k].marker == Some(events[i].gen) <==>
            forall f: nat :: LastFlip(states, events, i, k, f) ==>
              if LookedIn(events, i, f, events[f].job) then states[i].pending.Some? && states[i].pending.value.gen == events[i].gen
              else WorksOn(states[i], events[f].job, events[i].gen)
  {
    assert states[i + 1] == Next(states[i], events[i]);
    RunKeepsChain(states, events, i);
    if NoFlip(states, events, i, k) {
      MarkerStands(states, events, i, k);
      assert forall f: nat :: !LastFlip(states, events, i, k, f);
    } else {
      var last := FindLastFlip(states, events, i, k);
      FlipLeaves(states, events, i, k, last, events[i].gen);
      forall f: nat | LastFlip(states, events, i, k, f) ensures f == last {
      }
    }
  }

  // ----- what the other writers do to a node -----

  /** After a source write of an entity every node with its id is named anew, without tag and flag; if there was
      none, a new one is. Nothing else changes. */
  lemma NerWriteMeans(s: State, created: NodeId, id: Id, name: string, mentions: bool)
    requires Enabled(s, NerWrite(created, id, name, mentions))
    ensures var n := Next(s, NerWrite(created, id, name, mentions)).nodes;
            && (exists k :: k in n && n[k].id == id)
            && (forall k :: k in n && n[k].id == id ==> n[k].name == name && n[k].tag.None? && !n[k].inactive && (mentions ==> n[k].mentioned))
            && (forall k :: k in s.nodes && s.nodes[k].id != id ==> k in n && n[k] == s.nodes[k])
            && (forall k :: k in s.nodes && s.nodes[k].id == id ==> k in n && n[k].id == id && (s.nodes[k].mentioned ==> n[k].mentioned))
            && (forall k :: k in n && k !in s.nodes ==> k == created && forall j :: j in s.nodes ==> s.nodes[j].id != id)
  {
    var n := Next(s, NerWrite(created, id, name, mentions)).nodes;
    if HasId(s.nodes, id) {
      var k :| k in s.nodes && s.nodes[k].id == id;
      assert k in n && n[k].id == id;
    } else {
      assert created in n && n[created].id == id;
    }
  }

  /** After a concept is stored its id and its name meet in one node. A node that had the id or, failing that,
      the name keeps its tag and its flag; only a new node is tagged. */
  lemma StoreConceptMeans(s: State, created: NodeId, id: Id, name: string, tag: Option<Fingerprint>)
    requires Enabled(s, StoreConcept(created, id, name, tag))
    ensures var n := Next(s, StoreConcept(created, id, name, tag)).nodes;
            && (exists k :: k in n && n[k].id == id && n[k].name == name)
            && (forall k :: k in s.nodes ==> k in n && n[k].tag == s.nodes[k].tag && n[k].inactive == s.nodes[k].inactive)
            && (forall k :: k in s.nodes && s.nodes[k].id != id && s.nodes[k].name != name ==> n[k] == s.nodes[k])
            && (forall k :: k in s.nodes && HasId(s.nodes, id) ==> n[k].id == s.nodes[k].id)
            && (forall k :: k in n && k !in s.nodes ==> k == created && n[k].tag == tag && !HasId(s.nodes, id) && !HasName(s.nodes, name))
  {
    var n := Next(s, StoreConcept(created, id, name, tag)).nodes;
    if HasId(s.nodes, id) {
      var k :| k in s.nodes && s.nodes[k].id == id;
      assert k in n && n[k].id == id && n[k].name == name;
    } else if HasName(s.nodes, name) {
      var k :| k in s.nodes && s.nodes[k].name == name;
      assert k in n && n[k].id == id && n[k].name == name;
    } else {
      assert created in n && n[created].id == id && n[created].name == name;
    }
  }

  // ----- when a job gives up -----

  /** How often the job has looked before state `i`. */
  ghost function Looks(events: seq<Event>, job: JobId, i: nat): nat
    requires i <= |events|
  {
    if i == 0 then 0 else Looks(events, job, i - 1) + if events[i - 1] == Look(job) then 1 else 0
  }

  ghost predicate AttemptsCounted(j: Job, looks: nat) {
    match j
    case Saving(_) => looks == 0
    case Ready(attempts) => attempts == looks < 4
    case Looked(attempts, _) => attempts == looks <= 4
    case Recomputing(attempts, _, _) => attempts == looks <= 4
    case GaveUp => looks == 4
    case _ => true
  }

  lemma StepCounts(s: State, e: Event, job: JobId, looks: nat)
    requires Enabled(s, e) && job in Next(s, e).jobs
    requires if job in s.jobs then AttemptsCounted(s.jobs[job], looks) else looks == 0
    ensures AttemptsCounted(Next(s, e).jobs[job], looks + if e == Look(job) then 1 else 0)
  {
  }

  /** A job looks at most four times, and gives up only after a fourth flip of its own has lost. */
  lemma {:induction false} GivesUpAfterFour(states: seq<State>, events: seq<Event>, job: JobId, i: nat)
    requires Run(states, events) && states[0].jobs == map[] && i < |states|
    ensures if job in states[i].jobs then AttemptsCounted(states[i].jobs[job], Looks(events, job, i)) else Looks(events, job, i) == 0
  {
    if i > 0 {
      var last := i - 1;
      GivesUpAfterFour(states, events, job, last);
      assert states[last + 1] == Next(states[last], events[last]);
      JobRemains(states[last], events[last], job);
      if job in states[i].jobs {
        StepCounts(states[last], events[last], job, Looks(events, job, last));
      }
    }
  }

  lemma JobRemains(s: State, e: Event, job: JobId)
    requires Enabled(s, e)
    ensures job in s.jobs ==> job in Next(s, e).jobs
    ensures e == Look(job) ==> job in s.jobs
  {
  }
}
