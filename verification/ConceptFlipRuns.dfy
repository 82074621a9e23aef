/** Runs of the concept flip in which something is lost. `a` and `b` are any two different configurations. */
module ConceptFlipRuns {
  import opened Prelude
  import opened Metadata
  import opened ConceptFlip

  function One(x: Job): map<JobId, Job> { map[1 := x] }

  function Two(x: Job, y: Job): map<JobId, Job> { map[1 := x, 2 := y] }

  function Three(x: Job, y: Job, z: Job): map<JobId, Job> { map[1 := x, 2 := y, 3 := z] }

  lemma JobUpdates()
    ensures forall x: Job, w: Job {:trigger One(x)[1 := w]} :: One(x)[1 := w] == One(w)
    ensures forall x: Job, w: Job {:trigger One(x)[2 := w]} :: One(x)[2 := w] == Two(x, w)
    ensures forall x: Job, y: Job, w: Job {:trigger Two(x, y)[1 := w]} :: Two(x, y)[1 := w] == Two(w, y)
    ensures forall x: Job, y: Job, w: Job {:trigger Two(x, y)[2 := w]} :: Two(x, y)[2 := w] == Two(x, w)
    ensures forall x: Job, y: Job, w: Job {:trigger Two(x, y)[3 := w]} :: Two(x, y)[3 := w] == Three(x, y, w)
    ensures forall x: Job, y: Job, z: Job, w: Job {:trigger Three(x, y, z)[1 := w]} :: Three(x, y, z)[1 := w] == Three(w, y, z)
    ensures forall x: Job, y: Job, z: Job, w: Job {:trigger Three(x, y, z)[2 := w]} :: Three(x, y, z)[2 := w] == Three(x, w, z)
    ensures forall x: Job, y: Job, z: Job, w: Job {:trigger Three(x, y, z)[3 := w]} :: Three(x, y, z)[3 := w] == Three(x, y, w)
  {
  }

  /** A tenant with one collection. */
  function Marked(gen: Fingerprint): map<Collection, Option<Fingerprint>> { map[0 := Some(gen)] }

  lemma MarkedOnce(gen: Fingerprint, next: Fingerprint)
    ensures SetMarkers(map[], gen) == Marked(gen) && SetMarkers(Marked(gen), next) == Marked(next)
    ensures 0 in Marked(gen) && Marked(gen)[0] == Some(gen) && Marked(gen) != map[] && GuardHolds(Marked(gen), Some(gen))
  {
    assert 0 in Marked(gen);
  }

  // ----- states of a tenant with at most two committed flips -----

  function Unset(nodes: map<NodeId, Node>, pending: Option<Pending>, jobs: map<JobId, Job>): State {
    State(map[], nodes, pending, jobs, None, None, [])
  }

  function Once(x: Fingerprint, nodes: map<NodeId, Node>, pending: Option<Pending>, jobs: map<JobId, Job>): State {
    State(Marked(x), nodes, pending, jobs, None, Some(x), [Flip(None, x)])
  }

  function Twice(x: Fingerprint, y: Fingerprint, nodes: map<NodeId, Node>, pending: Option<Pending>, jobs: map<JobId, Job>): State {
    State(Marked(y), nodes, pending, jobs, None, Some(y), [Flip(None, x), Flip(Some(x), y)])
  }

  // ----- the flip to `b` overtakes the flip to `a` -----

  /** Save `a`, an ingested concept tagged with it, save `b` overtaking, then the flip to `a` after all. */
  function OvertakenEvent(a: Fingerprint, b: Fingerprint, k: nat): Event {
    match k
    case 0 => BeginSave(a, 1, None)
    case 1 => Save(1)
    case 2 => StoreConcept(10, "x", "x", Some(a))
    case 3 => Look(1)
    case 4 => BeginSave(b, 2, None)
    case 5 => Save(2)
    case 6 => Look(2)
    case 7 => ReadMarker(2, None)
    case 8 => TryFlip(2)
    case 9 => ReadMarker(1, Some(0))
    case 10 => TryFlip(1)
    case 11 => Collect(2)
    case 12 => Pop(2)
    case 13 => Collect(1)
    case _ => Pop(1)
  }

  function Tagged(tag: Fingerprint, inactive: bool, seen: set<Fingerprint>): map<NodeId, Node> {
    map[10 := Node("x", "x", Some(tag), inactive, false, seen)]
  }

  function OvertakenState(a: Fingerprint, b: Fingerprint, k: nat): State {
    match k
    case 0 => Unset(map[], None, map[])
    case 1 => Unset(map[], None, One(Saving(a)))
    case 2 => Unset(map[], Some(Pending(a, false, 1)), One(Ready(0)))
    case 3 => Unset(Tagged(a, false, {}), Some(Pending(a, false, 1)), One(Ready(0)))
    case 4 => Unset(Tagged(a, false, {}), Some(Pending(a, false, 1)), One(Looked(1, a)))
    case 5 => Unset(Tagged(a, false, {}), Some(Pending(a, false, 1)), Two(Looked(1, a), Saving(b)))
    case 6 => Unset(Tagged(a, false, {}), Some(Pending(b, false, 2)), Two(Looked(1, a), Ready(0)))
    case 7 => Unset(Tagged(a, false, {}), Some(Pending(b, false, 2)), Two(Looked(1, a), Looked(1, b)))
    case 8 => Unset(Tagged(a, false, {}), Some(Pending(b, false, 2)), Two(Looked(1, a), Recomputing(1, b, None)))
    case 9 => Once(b, Tagged(a, true, {b}), Some(Pending(b, true, 2)), Two(Looked(1, a), Flipped(b)))
    case 10 => Once(b, Tagged(a, true, {b}), Some(Pending(b, true, 2)), Two(Recomputing(1, a, Some(b)), Flipped(b)))
    case 11 => Twice(b, a, Tagged(a, true, {b, a}), Some(Pending(b, true, 2)), Two(Flipped(a), Flipped(b)))
    case 12 => Twice(b, a, map[], Some(Pending(b, true, 2)), Two(Flipped(a), Popping(b)))
    case 13 => Twice(b, a, map[], None, Two(Flipped(a), Finished))
    case 14 => Twice(b, a, map[], None, Two(Popping(a), Finished))
    case _ => Twice(b, a, map[], None, Two(Finished, Finished))
  }

  lemma TaggedFlips(a: Fingerprint, seen: set<Fingerprint>, inactive: bool, gen: Fingerprint, after: set<Fingerprint>)
    requires after == seen + {gen}
    ensures FlagNodes(Tagged(a, inactive, seen), gen) == Tagged(a, inactive || gen != a, after)
  {
  }

  ghost predicate OvertakenStep(a: Fingerprint, b: Fingerprint, k: nat) {
    var s, e := OvertakenState(a, b, k), OvertakenEvent(a, b, k);
    Enabled(s, e) && Next(s, e) == OvertakenState(a, b, k + 1)
  }

  lemma OvertakenSaves(a: Fingerprint, b: Fingerprint)
    requires a != b
    ensures forall k :: 0 <= k < 4 ==> OvertakenStep(a, b, k)
  {
    JobUpdates();
    assert OvertakenStep(a, b, 0) && OvertakenStep(a, b, 1);
    assert OvertakenStep(a, b, 2) && OvertakenStep(a, b, 3);
  }

  lemma OvertakenLooks(a: Fingerprint, b: Fingerprint)
    requires a != b
    ensures forall k :: 4 <= k < 8 ==> OvertakenStep(a, b, k)
  {
    JobUpdates();
    assert OvertakenStep(a, b, 4) && OvertakenStep(a, b, 5);
    assert OvertakenStep(a, b, 6) && OvertakenStep(a, b, 7);
  }

  lemma FlipToB(a: Fingerprint, b: Fingerprint)
    requires a != b
    ensures OvertakenStep(a, b, 8)
  {
    JobUpdates();
    var s, n := OvertakenState(a, b, 8), OvertakenState(a, b, 9);
    MarkedOnce(b, a);
    TaggedFlips(a, {}, false, b, {b});
    assert SetMarkers(s.markers, b) == n.markers;
    assert s.flips + [Flip(None, b)] == n.flips;
    assert s.jobs[2 := Flipped(b)] == n.jobs;
    assert FlagNodes(s.nodes, b) == n.nodes;
  }

  lemma FlipToA(a: Fingerprint, b: Fingerprint)
    requires a != b
    ensures OvertakenStep(a, b, 10)
  {
    JobUpdates();
    var s, n := OvertakenState(a, b, 10), OvertakenState(a, b, 11);
    MarkedOnce(b, a);
    TaggedFlips(a, {b}, true, a, {b, a});
    assert SetMarkers(s.markers, a) == n.markers;
    assert s.flips + [Flip(Some(b), a)] == n.flips;
    assert s.jobs[1 := Flipped(a)] == n.jobs;
    assert FlagNodes(s.nodes, a) == n.nodes;
  }

  lemma ReadB(a: Fingerprint, b: Fingerprint)
    requires a != b
    ensures OvertakenStep(a, b, 9)
  {
    JobUpdates();
    MarkedOnce(b, a);
  }

  lemma OvertakenCollects(a: Fingerprint, b: Fingerprint)
    requires a != b
    ensures OvertakenStep(a, b, 11) && OvertakenStep(a, b, 12)
  {
    JobUpdates();
    assert CollectNodes(OvertakenState(a, b, 11).nodes) == map[];
  }

  lemma OvertakenEnds(a: Fingerprint, b: Fingerprint)
    requires a != b
    ensures OvertakenStep(a, b, 13) && OvertakenStep(a, b, 14)
  {
    JobUpdates();
    NoNodes(a);
  }

  lemma OvertakenSteps(a: Fingerprint, b: Fingerprint, k: nat)
    requires a != b && k < 15
    ensures OvertakenStep(a, b, k)
  {
    OvertakenSaves(a, b);
    OvertakenLooks(a, b);
    FlipToB(a, b);
    ReadB(a, b);
    FlipToA(a, b);
    OvertakenCollects(a, b);
    OvertakenEnds(a, b);
  }

  ghost predicate Fine(s: State) {
    OneMarker(s) && Chained(s) && FlagsExact(s) && LatestAttended(s)
  }

  /** The two saves are different, yet the first collection deletes a node tagged with the marker. */
  lemma CurrentTagCollected(a: Fingerprint, b: Fingerprint)
    requires a != b
    ensures Fine(OvertakenState(a, b, 0)) && forall k :: 0 <= k < 12 ==> OvertakenStep(a, b, k)
    ensures forall j, k :: 0 <= j < k < 12 && OvertakenEvent(a, b, j).BeginSave? && OvertakenEvent(a, b, k).BeginSave? ==>
              OvertakenEvent(a, b, j).gen != OvertakenEvent(a, b, k).gen
    ensures var last := OvertakenState(a, b, 11);
            OvertakenEvent(a, b, 11).Collect? && 10 in last.nodes && last.nodes[10].tag == last.marker && 10 !in OvertakenState(a, b, 12).nodes
  {
    forall k | 0 <= k < 12 ensures OvertakenStep(a, b, k) {
      OvertakenSteps(a, b, k);
    }
  }

  // ----- runs in which the latest save loses -----

  /** The run above to its end: `b` was saved last, everything has finished, and the marker is `a`. */
  lemma OvertakenSaveLoses(a: Fingerprint, b: Fingerprint)
    requires a != b
    ensures Fine(OvertakenState(a, b, 0)) && forall k :: 0 <= k < 15 ==> OvertakenStep(a, b, k)
    ensures OvertakenEvent(a, b, 5).Save? && SavedGen(OvertakenState(a, b, 5), OvertakenEvent(a, b, 5)) == b
    ensures forall k :: 5 < k < 15 ==> !OvertakenEvent(a, b, k).Save? && !OvertakenEvent(a, b, k).BeginSave?
    ensures Quiet(OvertakenState(a, b, 15)) && OvertakenState(a, b, 15).pending.None? && OvertakenState(a, b, 15).marker == Some(a)
  {
    forall k | 0 <= k < 15 ensures OvertakenStep(a, b, k) {
      OvertakenSteps(a, b, k);
    }
  }

  /** Save `a` and flip to it, save `b` and flip to it, save `a` again: the first job pops the new save. */
  function RevertedEvent(a: Fingerprint, b: Fingerprint, k: nat): Event {
    match k
    case 0 => BeginSave(a, 1, None)
    case 1 => Save(1)
    case 2 => Look(1)
    case 3 => ReadMarker(1, None)
    case 4 => TryFlip(1)
    case 5 => BeginSave(b, 2, Some(0))
    case 6 => Save(2)
    case 7 => Look(2)
    case 8 => ReadMarker(2, Some(0))
    case 9 => TryFlip(2)
    case 10 => BeginSave(a, 3, Some(0))
    case 11 => Save(3)
    case 12 => Collect(1)
    case 13 => Pop(1)
    case 14 => Look(3)
    case 15 => Collect(2)
    case _ => Pop(2)
  }

  function RevertedState(a: Fingerprint, b: Fingerprint, k: nat): State {
    match k
    case 0 => Unset(map[], None, map[])
    case 1 => Unset(map[], None, One(Saving(a)))
    case 2 => Unset(map[], Some(Pending(a, false, 1)), One(Ready(0)))
    case 3 => Unset(map[], Some(Pending(a, false, 1)), One(Looked(1, a)))
    case 4 => Unset(map[], Some(Pending(a, false, 1)), One(Recomputing(1, a, None)))
    case 5 => Once(a, map[], Some(Pending(a, true, 1)), One(Flipped(a)))
    case 6 => Once(a, map[], Some(Pending(a, true, 1)), Two(Flipped(a), Saving(b)))
    case 7 => Once(a, map[], Some(Pending(b, false, 2)), Two(Flipped(a), Ready(0)))
    case 8 => Once(a, map[], Some(Pending(b, false, 2)), Two(Flipped(a), Looked(1, b)))
    case 9 => Once(a, map[], Some(Pending(b, false, 2)), Two(Flipped(a), Recomputing(1, b, Some(a))))
    case 10 => Twice(a, b, map[], Some(Pending(b, true, 2)), Two(Flipped(a), Flipped(b)))
    case 11 => Twice(a, b, map[], Some(Pending(b, true, 2)), Three(Flipped(a), Flipped(b), Saving(a)))
    case 12 => Twice(a, b, map[], Some(Pending(a, false, 3)), Three(Flipped(a), Flipped(b), Ready(0)))
    case 13 => Twice(a, b, map[], Some(Pending(a, false, 3)), Three(Popping(a), Flipped(b), Ready(0)))
    case 14 => Twice(a, b, map[], None, Three(Finished, Flipped(b), Ready(0)))
    case 15 => Twice(a, b, map[], None, Three(Finished, Flipped(b), Finished))
    case 16 => Twice(a, b, map[], None, Three(Finished, Popping(b), Finished))
    case _ => Twice(a, b, map[], None, Three(Finished, Finished, Finished))
  }

  ghost predicate RevertedStep(a: Fingerprint, b: Fingerprint, k: nat) {
    var s, e := RevertedState(a, b, k), RevertedEvent(a, b, k);
    Enabled(s, e) && Next(s, e) == RevertedState(a, b, k + 1)
  }

  lemma NoNodes(gen: Fingerprint)
    ensures FlagNodes(map[], gen) == map[] && CollectNodes(map[]) == map[]
  {
  }

  lemma RevertedFirst(a: Fingerprint, b: Fingerprint)
    requires a != b
    ensures forall k :: 0 <= k < 5 ==> RevertedStep(a, b, k)
  {
    JobUpdates();
    MarkedOnce(a, b);
    NoNodes(a);
    assert RevertedStep(a, b, 0) && RevertedStep(a, b, 1) && RevertedStep(a, b, 2);
    assert RevertedStep(a, b, 3) && RevertedStep(a, b, 4);
  }

  lemma RevertedSecond(a: Fingerprint, b: Fingerprint)
    requires a != b
    ensures forall k :: 5 <= k < 8 ==> RevertedStep(a, b, k)
  {
    JobUpdates();
    MarkedOnce(a, b);
    assert RevertedStep(a, b, 5) && RevertedStep(a, b, 6) && RevertedStep(a, b, 7);
  }

  lemma RevertedFlip(a: Fingerprint, b: Fingerprint)
    requires a != b
    ensures RevertedStep(a, b, 8) && RevertedStep(a, b, 9)
  {
    JobUpdates();
    NoNodes(b);
    MarkedOnce(a, b);
    assert RevertedState(a, b, 9).flips + [Flip(Some(a), b)] == RevertedState(a, b, 10).flips;
  }

  lemma RevertedThird(a: Fingerprint, b: Fingerprint)
    requires a != b
    ensures RevertedStep(a, b, 10) && RevertedStep(a, b, 11)
  {
    JobUpdates();
    MarkedOnce(b, a);
  }

  lemma RevertedPop(a: Fingerprint, b: Fingerprint)
    requires a != b
    ensures forall k :: 12 <= k < 15 ==> RevertedStep(a, b, k)
  {
    JobUpdates();
    NoNodes(a);
    assert RevertedStep(a, b, 12);
    assert RevertedStep(a, b, 13);
    assert RevertedStep(a, b, 14);
  }

  lemma RevertedEnds(a: Fingerprint, b: Fingerprint)
    requires a != b
    ensures RevertedStep(a, b, 15) && RevertedStep(a, b, 16)
  {
    JobUpdates();
    NoNodes(a);
  }

  lemma RevertedSteps(a: Fingerprint, b: Fingerprint, k: nat)
    requires a != b && k < 17
    ensures RevertedStep(a, b, k)
  {
    RevertedFirst(a, b);
    RevertedSecond(a, b);
    RevertedFlip(a, b);
    RevertedThird(a, b);
    RevertedPop(a, b);
    RevertedEnds(a, b);
  }

  /** Everything has finished and the marker is `b`, although `a` was saved last; its save was removed
      before the marker ever equalled it. */
  lemma RevertedSaveLoses(a: Fingerprint, b: Fingerprint)
    requires a != b
    ensures Fine(RevertedState(a, b, 0)) && forall k :: 0 <= k < 17 ==> RevertedStep(a, b, k)
    ensures RevertedEvent(a, b, 11).Save? && SavedGen(RevertedState(a, b, 11), RevertedEvent(a, b, 11)) == a
    ensures RevertedState(a, b, 13).pending == Some(Pending(a, false, 3)) && RevertedState(a, b, 14).pending.None?
    ensures forall k :: 11 < k < 17 ==> !RevertedEvent(a, b, k).Save? && !RevertedEvent(a, b, k).BeginSave?
    ensures Quiet(RevertedState(a, b, 17)) && RevertedState(a, b, 17).marker == Some(b)
  {
    forall k | 0 <= k < 17 ensures RevertedStep(a, b, k) {
      RevertedSteps(a, b, k);
    }
  }

  /** The marker is `a`; save `b`, then `a` again before the job of `b` has looked. */
  function UnchangedEvent(a: Fingerprint, b: Fingerprint, k: nat): Event {
    match k
    case 0 => BeginSave(b, 1, Some(0))
    case 1 => Save(1)
    case 2 => BeginSave(a, 2, Some(0))
    case 3 => Look(1)
    case 4 => ReadMarker(1, Some(0))
    case 5 => TryFlip(1)
    case 6 => Collect(1)
    case _ => Pop(1)
  }

  function UnchangedState(a: Fingerprint, b: Fingerprint, k: nat): State {
    match k
    case 0 => State(Marked(a), map[], None, map[], Some(a), Some(a), [])
    case 1 => State(Marked(a), map[], None, One(Saving(b)), Some(a), Some(a), [])
    case 2 => State(Marked(a), map[], Some(Pending(b, false, 1)), One(Ready(0)), Some(a), Some(a), [])
    case 3 => State(Marked(a), map[], Some(Pending(b, false, 1)), Two(Ready(0), Finished), Some(a), Some(a), [])
    case 4 => State(Marked(a), map[], Some(Pending(b, false, 1)), Two(Looked(1, b), Finished), Some(a), Some(a), [])
    case 5 => State(Marked(a), map[], Some(Pending(b, false, 1)), Two(Recomputing(1, b, Some(a)), Finished), Some(a), Some(a), [])
    case 6 => State(Marked(b), map[], Some(Pending(b, true, 1)), Two(Flipped(b), Finished), Some(a), Some(b), [Flip(Some(a), b)])
    case 7 => State(Marked(b), map[], Some(Pending(b, true, 1)), Two(Popping(b), Finished), Some(a), Some(b), [Flip(Some(a), b)])
    case _ => State(Marked(b), map[], None, Two(Finished, Finished), Some(a), Some(b), [Flip(Some(a), b)])
  }

  ghost predicate UnchangedStep(a: Fingerprint, b: Fingerprint, k: nat) {
    var s, e := UnchangedState(a, b, k), UnchangedEvent(a, b, k);
    Enabled(s, e) && Next(s, e) == UnchangedState(a, b, k + 1)
  }

  lemma UnchangedSaves(a: Fingerprint, b: Fingerprint)
    requires a != b
    ensures forall k :: 0 <= k < 5 ==> UnchangedStep(a, b, k)
  {
    JobUpdates();
    MarkedOnce(a, b);
    assert UnchangedStep(a, b, 0) && UnchangedStep(a, b, 1) && UnchangedStep(a, b, 2);
    assert UnchangedStep(a, b, 3) && UnchangedStep(a, b, 4);
  }

  lemma UnchangedFlips(a: Fingerprint, b: Fingerprint)
    requires a != b
    ensures forall k :: 5 <= k < 8 ==> UnchangedStep(a, b, k)
  {
    JobUpdates();
    NoNodes(b);
    MarkedOnce(a, b);
    assert UnchangedStep(a, b, 5) && UnchangedStep(a, b, 6) && UnchangedStep(a, b, 7);
  }

  /** The second save returned early, so the first one is carried out and the marker ends as `b`. */
  lemma UnchangedSaveLoses(a: Fingerprint, b: Fingerprint)
    requires a != b
    ensures Fine(UnchangedState(a, b, 0)) && forall k :: 0 <= k < 8 ==> UnchangedStep(a, b, k)
    ensures UnchangedEvent(a, b, 2) == BeginSave(a, 2, Some(0)) && MarkerRead(UnchangedState(a, b, 2), Some(0)) == Some(a)
    ensures Quiet(UnchangedState(a, b, 8)) && UnchangedState(a, b, 8).pending.None? && UnchangedState(a, b, 8).marker == Some(b)
  {
    UnchangedSaves(a, b);
    UnchangedFlips(a, b);
    assert 0 in UnchangedState(a, b, 0).markers;
  }
}
