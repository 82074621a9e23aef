/** Background extraction: the flat and the per-source lists of tasks, draining one source, and where
    the result of every task ends up. */
module PendingTasks {
  import opened Prelude
  import opened Graph

  type TaskId = nat
  type DrainId = nat

  datatype Kind = Extraction | Similarity

  /** `Returned(None)`: the extraction found no entity, or this is a similarity task. */
  datatype Outcome = Returned(batch: Option<Plan>) | Raised

  // ----- what a drain makes of the gathered results -----

  function Gathered(outcomes: seq<Outcome>): Plan {
    if outcomes == [] then Plan([], [], []) else
      var head, last := Gathered(outcomes[..|outcomes| - 1]), outcomes[|outcomes| - 1];
      if last.Returned? && last.batch.Some? then Joint(head, last.batch.value) else head
  }

  predicate HasProduct(p: Plan) {
    p.entities != [] || p.relations != []
  }

  ghost predicate Included(b: Plan, p: Plan) {
    && (forall x :: x in b.entities ==> x in p.entities)
    && (forall x :: x in b.mentions ==> x in p.mentions)
    && (forall x :: x in b.relations ==> x in p.relations)
  }

  /** Nothing a task returned is left out of the gathered batch, and nothing else is in it. */
  lemma {:induction false} GatheredIncludes(outcomes: seq<Outcome>)
    ensures forall o :: o in outcomes && o.Returned? && o.batch.Some? ==> Included(o.batch.value, Gathered(outcomes))
    ensures forall e :: e in Gathered(outcomes).entities ==> exists o :: o in outcomes && o.Returned? && o.batch.Some? && e in o.batch.value.entities
  {
    if outcomes != [] {
      var head, last := outcomes[..|outcomes| - 1], outcomes[|outcomes| - 1];
      assert outcomes == head + [last];
      GatheredIncludes(head);
      forall e | e in Gathered(outcomes).entities
        ensures exists o :: o in outcomes && o.Returned? && o.batch.Some? && e in o.batch.value.entities
      {
        if e in Gathered(head).entities {
          var o :| o in head && o.Returned? && o.batch.Some? && e in o.batch.value.entities;
          assert o in outcomes;
        } else {
          assert last in outcomes;
        }
      }
    }
  }

  /** The loop of `_drain_source_tasks_counted` over the gathered results, and what it reports:
      `written` is handed to the one source write. */
  method DrainResults(kinds: seq<Kind>, outcomes: seq<Outcome>) returns (counts: Option<(nat, nat)>, written: Option<Plan>)
    requires |kinds| == |outcomes|
    ensures var batch := Gathered(outcomes); written == if batch.entities != [] || batch.relations != [] then Some(batch) else None
    ensures counts.Some? <==> written.Some? && forall i :: 0 <= i < |kinds| && kinds[i] == Extraction ==> outcomes[i].Returned?
    ensures counts.Some? ==> counts.value == (|written.value.entities|, |written.value.relations|)
  {
    var batch := Plan([], [], []);
    var failed := 0;
    for n := 0 to |outcomes|
      invariant batch == Gathered(outcomes[..n])
      invariant failed > 0 <==> exists i :: 0 <= i < n && kinds[i] == Extraction && outcomes[i].Raised?
    {
      assert outcomes[..n + 1][..n] == outcomes[..n];
      match outcomes[n]
      case Raised =>
        if kinds[n] != Similarity {
          failed := failed + 1;
        }
      case Returned(r) =>
        if r.Some? {
          batch := Joint(batch, r.value);
        }
    }
    assert outcomes[..|outcomes|] == outcomes;
    if batch.entities == [] && batch.relations == [] {
      return None, None;
    }
    return if failed > 0 then None else Some((|batch.entities|, |batch.relations|)), Some(batch);
  }

  // ----- the bookkeeping -----

  /** `place` remembers where a task's result is. A task without a source is only ever flat.
      `Handed` means passed to a source write; if that write raises, the batch is lost with it. */
  datatype Place = Unsourced | Tracked | Draining(drain: DrainId) | Handed(drain: DrainId) | Consumed(drain: DrainId) | Dropped | Closed | Abandoned(drain: DrainId)

  datatype Task = Task(source: string, kind: Kind, outcome: Option<Outcome>, place: Place)

  datatype State = State(
    tasks: map<TaskId, Task>, flat: seq<TaskId>, bySource: map<string, seq<TaskId>>,
    drains: map<DrainId, seq<TaskId>>, writes: map<DrainId, seq<TaskId>>, ended: set<DrainId>)

  /** `Abandon` is a drain whose caller is cancelled while it waits. */
  datatype Event =
    | Spawn(task: TaskId, source: string, kind: Kind)
    | Finish(task: TaskId, outcome: Outcome)
    | PruneFlat
    | BeginDrain(source: string, drain: DrainId)
    | EndDrain(drain: DrainId)
    | Abandon(drain: DrainId)
    | Drop(source: string)
    | Close

  predicate Done(s: State, t: TaskId) {
    t in s.tasks && s.tasks[t].outcome.Some?
  }

  predicate AllDone(s: State, ts: seq<TaskId>) {
    forall i :: 0 <= i < |ts| ==> Done(s, ts[i])
  }

  predicate Enabled(s: State, e: Event) {
    match e
    case Spawn(task, _, _) => task !in s.tasks
    case Finish(task, _) => task in s.tasks && s.tasks[task].outcome.None?
    case PruneFlat => true
    case BeginDrain(source, drain) => drain !in s.drains && drain !in s.ended
    case EndDrain(drain) => drain in s.drains && AllDone(s, s.drains[drain])
    case Abandon(drain) => drain in s.drains
    case Drop(_) => true
    case Close => true
  }

  function Move(tasks: map<TaskId, Task>, moved: seq<TaskId>, place: Place): map<TaskId, Task> {
    map t | t in tasks :: if t in moved then tasks[t].(place := place) else tasks[t]
  }

  function TasksOf(m: map<string, seq<TaskId>>, source: string): seq<TaskId> {
    if source in m then m[source] else []
  }

  function OutcomesOf(s: State, ts: seq<TaskId>): seq<Outcome>
    requires AllDone(s, ts)
  {
    seq(|ts|, i requires 0 <= i < |ts| => s.tasks[ts[i]].outcome.value)
  }

  function Next(s: State, e: Event): State
    requires Enabled(s, e)
  {
    match e
    case Spawn(task, source, kind) =>
      s.(tasks := s.tasks[task := Task(source, kind, None, if source == "" then Unsourced else Tracked)],
         flat := s.flat + [task],
         bySource := if source == "" then s.bySource else s.bySource[source := TasksOf(s.bySource, source) + [task]])
    case Finish(task, outcome) => s.(tasks := s.tasks[task := s.tasks[task].(outcome := Some(outcome))])
    case PruneFlat => s.(flat := Filter(s.flat, t => !Done(s, t)))
    case BeginDrain(source, drain) =>
      var ts := TasksOf(s.bySource, source);
      if ts == [] then s.(bySource := s.bySource - {source}, ended := s.ended + {drain})
      else State(Move(s.tasks, ts, Draining(drain)), Filter(s.flat, t => t !in ts), s.bySource - {source},
                 s.drains[drain := ts], s.writes, s.ended)
    case EndDrain(drain) =>
      var ts := s.drains[drain];
      if HasProduct(Gathered(OutcomesOf(s, ts))) then
        s.(tasks := Move(s.tasks, ts, Handed(drain)), drains := s.drains - {drain}, writes := s.writes[drain := ts], ended := s.ended + {drain})
      else
        s.(tasks := Move(s.tasks, ts, Consumed(drain)), drains := s.drains - {drain}, ended := s.ended + {drain})
    case Abandon(drain) =>
      s.(tasks := Move(s.tasks, s.drains[drain], Abandoned(drain)), drains := s.drains - {drain}, ended := s.ended + {drain})
    case Drop(source) =>
      s.(tasks := Move(s.tasks, TasksOf(s.bySource, source), Dropped), bySource := s.bySource - {source})
    case Close =>
      s.(tasks := map t | t in s.tasks ::
           s.tasks[t].(outcome := if t in s.flat && s.tasks[t].outcome.None? then Some(Raised) else s.tasks[t].outcome,
                       place := if s.tasks[t].place.Tracked? then Closed else s.tasks[t].place),
         flat := [], bySource := map[])
  }

  // ----- the handler's two fields -----

  class Handler {
    var pendingEntityTasks: seq<TaskId>
    var pendingSourceTasks: map<string, seq<TaskId>>

    constructor ()
      ensures Matches(State(map[], [], map[], map[], map[], {}))
    {
      pendingEntityTasks, pendingSourceTasks := [], map[];
    }

    /** The fields are those of the state. */
    ghost predicate Matches(s: State)
      reads this
    {
      pendingEntityTasks == s.flat && pendingSourceTasks == s.bySource
    }

    /** The end of `add_point_to_tenant`: one list append, and `_track_source_task`. */
    method TrackSourceTask(task: TaskId, source: string, ghost kind: Kind, ghost s: State)
      requires Matches(s) && task !in s.tasks
      modifies this
      ensures Matches(Next(s, Spawn(task, source, kind)))
      ensures pendingEntityTasks == old(pendingEntityTasks) + [task]
      ensures source == "" ==> pendingSourceTasks == old(pendingSourceTasks)
      ensures source != "" ==>
                pendingSourceTasks == old(pendingSourceTasks)[source := (if source in old(pendingSourceTasks) then old(pendingSourceTasks)[source] else []) + [task]]
    {
      pendingEntityTasks := pendingEntityTasks + [task];
      if source != "" {
        var tracked := if source in pendingSourceTasks then pendingSourceTasks[source] else [];
        pendingSourceTasks := pendingSourceTasks[source := tracked + [task]];
      }
    }

    /** Only the flat list is pruned of finished tasks. */
    method PruneFinished(done: TaskId -> bool, ghost s: State)
      requires Matches(s) && forall t :: done(t) <==> Done(s, t)
      modifies this`pendingEntityTasks
      ensures Matches(Next(s, PruneFlat))
      ensures pendingEntityTasks == Filter(old(pendingEntityTasks), t => !done(t))
    {
      FilterSame(pendingEntityTasks, t => !done(t), t => !Done(s, t));
      pendingEntityTasks := Filter(pendingEntityTasks, t => !done(t));
    }

    method DropSourceTasks(source: string, ghost s: State)
      requires Matches(s) && "" !in s.bySource
      modifies this`pendingSourceTasks
      ensures Matches(Next(s, Drop(source)))
      ensures source != "" ==> pendingSourceTasks == old(pendingSourceTasks) - {source}
    {
      if source != "" {
        pendingSourceTasks := pendingSourceTasks - {source};
      }
    }

    /** The start of `_drain_source_tasks_counted`: the tasks it will gather. */
    method PopSourceTasks(source: string, ghost drain: DrainId, ghost s: State) returns (tasks: seq<TaskId>)
      requires Matches(s) && Enabled(s, BeginDrain(source, drain))
      modifies this
      ensures Matches(Next(s, BeginDrain(source, drain)))
      ensures tasks == if source in old(pendingSourceTasks) then old(pendingSourceTasks)[source] else []
      ensures pendingSourceTasks == old(pendingSourceTasks) - {source}
      ensures pendingEntityTasks == Filter(old(pendingEntityTasks), t => t !in tasks)
    {
      tasks := if source in pendingSourceTasks then pendingSourceTasks[source] else [];
      pendingSourceTasks := pendingSourceTasks - {source};
      if tasks != [] {
        FilterSame(pendingEntityTasks, t => t !in tasks, t => t !in TasksOf(s.bySource, source));
        pendingEntityTasks := Filter(pendingEntityTasks, t => t !in tasks);
      } else {
        FilterAll(pendingEntityTasks, t => t !in tasks);
      }
    }

    /** `close`, once the running tasks of the flat list are cancelled. */
    method ForgetTasks(ghost s: State)
      requires Matches(s)
      modifies this
      ensures Matches(Next(s, Close))
      ensures pendingEntityTasks == [] && pendingSourceTasks == map[]
    {
      pendingEntityTasks := [];
      pendingSourceTasks := map[];
    }
  }

  // ----- conservation -----

  /** The list holds exactly these tasks, each once. */
  ghost predicate Holds(s: State, ts: seq<TaskId>, source: Option<string>, place: Place) {
    && Distinct(ts)
    && (forall t :: t in ts <==> t in s.tasks && s.tasks[t].place == place && (source.Some? ==> s.tasks[t].source == source.value))
  }

  ghost predicate SourcesHold(s: State) {
    && (forall source :: source != "" ==> Holds(s, TasksOf(s.bySource, source), Some(source), Tracked))
    && "" !in s.bySource
  }

  ghost predicate DrainsHold(s: State) {
    && (forall d :: d in s.drains ==> Holds(s, s.drains[d], None, Draining(d)) && d !in s.ended)
    && (forall d :: d in s.writes ==> Holds(s, s.writes[d], None, Handed(d)) && d in s.ended)
  }

  ghost predicate Explained(s: State, t: Task) {
    && (t.place.Unsourced? <==> t.source == "")
    && (t.place.Draining? ==> t.place.drain in s.drains)
    && (t.place.Handed? ==> t.place.drain in s.writes && t.outcome.Some?)
    && (t.place.Consumed? ==> t.outcome.Some? && !Productive(t))
    && (t.place.Consumed? || t.place.Abandoned? ==> t.place.drain in s.ended)
  }

  /** A finished extraction with something to write. */
  predicate Productive(t: Task) {
    t.outcome.Some? && t.outcome.value.Returned? && t.outcome.value.batch.Some? && HasProduct(t.outcome.value.batch.value)
  }

  ghost predicate Inv(s: State) {
    && SourcesHold(s) && DrainsHold(s)
    && (forall t :: t in s.tasks ==> Explained(s, s.tasks[t]))
  }

  lemma {:induction false} NothingGathered(outcomes: seq<Outcome>)
    requires !HasProduct(Gathered(outcomes))
    ensures forall o :: o in outcomes && o.Returned? && o.batch.Some? ==> !HasProduct(o.batch.value)
  {
    GatheredIncludes(outcomes);
    forall o | o in outcomes && o.Returned? && o.batch.Some? ensures !HasProduct(o.batch.value) {
      IncludedProduct(o.batch.value, Gathered(outcomes));
    }
  }

  lemma IncludedProduct(b: Plan, p: Plan)
    requires Included(b, p)
    ensures HasProduct(b) ==> HasProduct(p)
  {
    assert b.entities != [] ==> b.entities[0] in b.entities;
    assert b.relations != [] ==> b.relations[0] in b.relations;
  }

  /** Moving all tasks of one place to another leaves every list of a third place right. */
  lemma MoveElsewhere(s: State, n: State, moved: seq<TaskId>, to: Place, ts: seq<TaskId>, source: Option<string>, place: Place)
    requires n.tasks == Move(s.tasks, moved, to) && Holds(s, ts, source, place) && place != to
    requires forall t :: t in moved ==> t !in ts
    ensures Holds(n, ts, source, place)
  {
  }

  lemma SamePlaces(s: State, n: State, ts: seq<TaskId>, source: Option<string>, place: Place)
    requires n.tasks.Keys == s.tasks.Keys && Holds(s, ts, source, place)
    requires forall t :: t in s.tasks ==> n.tasks[t].place == s.tasks[t].place && n.tasks[t].source == s.tasks[t].source
    ensures Holds(n, ts, source, place)
  {
  }

  lemma SpawnKeepsInv(s: State, e: Event)
    requires Inv(s) && Enabled(s, e) && e.Spawn?
    ensures Inv(Next(s, e))
  {
    var n := Next(s, e);
    forall source | source != "" ensures Holds(n, TasksOf(n.bySource, source), Some(source), Tracked) {
      assert Holds(s, TasksOf(s.bySource, source), Some(source), Tracked);
    }
    SpawnKeepsDrains(s, n, e.task);
    forall t | t in n.tasks ensures Explained(n, n.tasks[t]) {
      if t != e.task {
        assert Explained(s, s.tasks[t]);
      }
    }
  }

  lemma SpawnKeepsDrains(s: State, n: State, task: TaskId)
    requires DrainsHold(s) && n.drains == s.drains && n.writes == s.writes && n.ended == s.ended
    requires task in n.tasks && n.tasks == s.tasks[task := n.tasks[task]] && task !in s.tasks
    requires !n.tasks[task].place.Draining? && !n.tasks[task].place.Handed?
    ensures DrainsHold(n)
  {
    forall d | d in n.drains ensures Holds(n, n.drains[d], None, Draining(d)) {
      assert Holds(s, s.drains[d], None, Draining(d));
    }
    forall d | d in n.writes ensures Holds(n, n.writes[d], None, Handed(d)) {
      assert Holds(s, s.writes[d], None, Handed(d));
    }
  }

  lemma BeginDrainMoves(s: State, n: State, source: string, drain: DrainId, ts: seq<TaskId>)
    requires SourcesHold(s) && DrainsHold(s) && source != "" && ts == TasksOf(s.bySource, source) && drain !in s.drains
    requires n.tasks == Move(s.tasks, ts, Draining(drain)) && n.bySource == s.bySource - {source}
    requires n.drains == s.drains[drain := ts] && n.writes == s.writes && n.ended == s.ended && drain !in s.ended
    requires forall t :: t in s.tasks ==> s.tasks[t].place != Draining(drain)
    ensures SourcesHold(n) && DrainsHold(n)
  {
    var place := Draining(drain);
    assert Holds(s, ts, Some(source), Tracked);
    forall other | other != "" ensures Holds(n, TasksOf(n.bySource, other), Some(other), Tracked) {
      if other != source {
        assert Holds(s, TasksOf(s.bySource, other), Some(other), Tracked);
        MoveElsewhere(s, n, ts, place, TasksOf(s.bySource, other), Some(other), Tracked);
      }
    }
    forall d | d in n.drains ensures Holds(n, n.drains[d], None, Draining(d)) {
      if d != drain {
        assert Holds(s, s.drains[d], None, Draining(d));
        MoveElsewhere(s, n, ts, place, s.drains[d], None, Draining(d));
      }
    }
    forall d | d in n.writes ensures Holds(n, n.writes[d], None, Handed(d)) {
      assert Holds(s, s.writes[d], None, Handed(d));
      MoveElsewhere(s, n, ts, place, s.writes[d], None, Handed(d));
    }
  }

  lemma BeginDrainKeepsInv(s: State, e: Event)
    requires Inv(s) && Enabled(s, e) && e.BeginDrain? && TasksOf(s.bySource, e.source) != []
    ensures Inv(Next(s, e))
  {
    var n := Next(s, e);
    var ts := TasksOf(s.bySource, e.source);
    forall t | t in s.tasks ensures s.tasks[t].place != Draining(e.drain) {
      assert Explained(s, s.tasks[t]);
    }
    BeginDrainMoves(s, n, e.source, e.drain, ts);
    assert Holds(s, ts, Some(e.source), Tracked);
    BeginDrainExplains(s, n, e.source, e.drain, ts);
  }

  lemma BeginDrainExplains(s: State, n: State, source: string, drain: DrainId, ts: seq<TaskId>)
    requires Inv(s) && source != "" && drain !in s.drains && forall t :: t in ts ==> t in s.tasks && s.tasks[t].source == source
    requires n.tasks == Move(s.tasks, ts, Draining(drain)) && n.drains == s.drains[drain := ts] && n.writes == s.writes && n.ended == s.ended
    ensures forall t :: t in n.tasks ==> Explained(n, n.tasks[t])
  {
    forall t | t in n.tasks ensures Explained(n, n.tasks[t]) {
      assert Explained(s, s.tasks[t]);
    }
  }

  lemma DropKeepsInv(s: State, e: Event)
    requires Inv(s) && Enabled(s, e) && e.Drop?
    ensures Inv(Next(s, e))
  {
    var n := Next(s, e);
    var ts := TasksOf(s.bySource, e.source);
    if e.source != "" {
      assert Holds(s, ts, Some(e.source), Tracked);
    }
    forall source | source != "" ensures Holds(n, TasksOf(n.bySource, source), Some(source), Tracked) {
      if source != e.source {
        assert Holds(s, TasksOf(s.bySource, source), Some(source), Tracked);
        MoveElsewhere(s, n, ts, Dropped, TasksOf(s.bySource, source), Some(source), Tracked);
      }
    }
    MovedDrains(s, n, ts, Dropped);
    forall t | t in n.tasks ensures Explained(n, n.tasks[t]) {
      assert Explained(s, s.tasks[t]);
    }
  }

  lemma MovedDrains(s: State, n: State, ts: seq<TaskId>, to: Place)
    requires DrainsHold(s) && n.drains == s.drains && n.writes == s.writes && n.ended == s.ended
    requires n.tasks == Move(s.tasks, ts, to) && !to.Draining? && !to.Handed?
    requires forall t :: t in ts ==> t in s.tasks && s.tasks[t].place.Tracked?
    ensures DrainsHold(n)
  {
    forall d | d in n.drains ensures Holds(n, n.drains[d], None, Draining(d)) {
      assert Holds(s, s.drains[d], None, Draining(d));
      MoveElsewhere(s, n, ts, to, s.drains[d], None, Draining(d));
    }
    forall d | d in n.writes ensures Holds(n, n.writes[d], None, Handed(d)) {
      assert Holds(s, s.writes[d], None, Handed(d));
      MoveElsewhere(s, n, ts, to, s.writes[d], None, Handed(d));
    }
  }

  lemma AbandonKeepsInv(s: State, e: Event)
    requires Inv(s) && Enabled(s, e) && e.Abandon?
    ensures Inv(Next(s, e))
  {
    var n := Next(s, e);
    var ts, to := s.drains[e.drain], Abandoned(e.drain);
    assert Holds(s, ts, None, Draining(e.drain));
    forall source | source != "" ensures Holds(n, TasksOf(n.bySource, source), Some(source), Tracked) {
      assert Holds(s, TasksOf(s.bySource, source), Some(source), Tracked);
      MoveElsewhere(s, n, ts, to, TasksOf(s.bySource, source), Some(source), Tracked);
    }
    forall d | d in n.drains ensures Holds(n, n.drains[d], None, Draining(d)) {
      assert Holds(s, s.drains[d], None, Draining(d));
      MoveElsewhere(s, n, ts, to, s.drains[d], None, Draining(d));
    }
    forall d | d in n.writes ensures Holds(n, n.writes[d], None, Handed(d)) {
      assert Holds(s, s.writes[d], None, Handed(d));
      MoveElsewhere(s, n, ts, to, s.writes[d], None, Handed(d));
    }
    forall t | t in n.tasks ensures Explained(n, n.tasks[t]) {
      assert Explained(s, s.tasks[t]);
    }
  }

  lemma CloseKeepsInv(s: State, e: Event)
    requires Inv(s) && Enabled(s, e) && e.Close?
    ensures Inv(Next(s, e))
  {
    var n := Next(s, e);
    CloseKeepsDrains(s, n);
    forall t | t in n.tasks ensures Explained(n, n.tasks[t]) {
      assert Explained(s, s.tasks[t]);
    }
  }

  /** Only tracked tasks change place. */
  lemma CloseKeepsDrains(s: State, n: State)
    requires DrainsHold(s) && n.drains == s.drains && n.writes == s.writes && n.ended == s.ended && n.tasks.Keys == s.tasks.Keys
    requires forall t :: t in s.tasks ==>
               n.tasks[t].source == s.tasks[t].source && n.tasks[t].place == if s.tasks[t].place.Tracked? then Closed else s.tasks[t].place
    ensures DrainsHold(n)
  {
    forall d | d in n.drains ensures Holds(n, n.drains[d], None, Draining(d)) {
      assert Holds(s, s.drains[d], None, Draining(d));
    }
    forall d | d in n.writes ensures Holds(n, n.writes[d], None, Handed(d)) {
      assert Holds(s, s.writes[d], None, Handed(d));
    }
  }

  lemma QuietKeepsInv(s: State, e: Event)
    requires Inv(s) && Enabled(s, e)
    requires e.Finish? || e.PruneFlat? || (e.BeginDrain? && TasksOf(s.bySource, e.source) == [])
    ensures Inv(Next(s, e))
  {
    var n := Next(s, e);
    forall source | source != "" ensures Holds(n, TasksOf(n.bySource, source), Some(source), Tracked) {
      assert Holds(s, TasksOf(s.bySource, source), Some(source), Tracked);
      SamePlaces(s, n, TasksOf(s.bySource, source), Some(source), Tracked);
    }
    QuietKeepsDrains(s, n);
    forall t | t in n.tasks ensures Explained(n, n.tasks[t]) {
      assert Explained(s, s.tasks[t]);
    }
  }

  lemma QuietKeepsDrains(s: State, n: State)
    requires DrainsHold(s) && n.drains == s.drains && n.writes == s.writes && s.ended <= n.ended && n.tasks.Keys == s.tasks.Keys
    requires forall t :: t in s.tasks ==> n.tasks[t].place == s.tasks[t].place && n.tasks[t].source == s.tasks[t].source
    requires forall d :: d in n.ended && d !in s.ended ==> d !in s.drains
    ensures DrainsHold(n)
  {
    forall d | d in n.drains ensures Holds(n, n.drains[d], None, Draining(d)) {
      SamePlaces(s, n, s.drains[d], None, Draining(d));
    }
    forall d | d in n.writes ensures Holds(n, n.writes[d], None, Handed(d)) {
      SamePlaces(s, n, s.writes[d], None, Handed(d));
    }
  }

  /** The drained tasks move on, handed over if there is a product. */
  lemma EndDrainMoves(s: State, n: State, drain: DrainId, ts: seq<TaskId>, to: Place)
    requires SourcesHold(s) && DrainsHold(s) && drain in s.drains && ts == s.drains[drain] && drain !in s.writes
    requires n.tasks == Move(s.tasks, ts, to) && n.bySource == s.bySource && n.drains == s.drains - {drain} && n.ended == s.ended + {drain}
    requires (to == Handed(drain) && n.writes == s.writes[drain := ts]) || (to == Consumed(drain) && n.writes == s.writes)
    requires forall t :: t in s.tasks ==> s.tasks[t].place != Handed(drain)
    ensures SourcesHold(n) && DrainsHold(n)
  {
    assert Holds(s, ts, None, Draining(drain));
    forall source | source != "" ensures Holds(n, TasksOf(n.bySource, source), Some(source), Tracked) {
      assert Holds(s, TasksOf(s.bySource, source), Some(source), Tracked);
      MoveElsewhere(s, n, ts, to, TasksOf(s.bySource, source), Some(source), Tracked);
    }
    forall d | d in n.drains ensures Holds(n, n.drains[d], None, Draining(d)) {
      assert Holds(s, s.drains[d], None, Draining(d));
      MoveElsewhere(s, n, ts, to, s.drains[d], None, Draining(d));
    }
    forall d | d in n.writes ensures Holds(n, n.writes[d], None, Handed(d)) {
      if d != drain {
        assert Holds(s, s.writes[d], None, Handed(d));
        MoveElsewhere(s, n, ts, to, s.writes[d], None, Handed(d));
      }
    }
  }

  lemma EndDrainExplains(s: State, n: State, drain: DrainId, ts: seq<TaskId>)
    requires Inv(s) && drain in s.drains && ts == s.drains[drain] && AllDone(s, ts)
    requires n.drains == s.drains - {drain} && n.ended == s.ended + {drain}
    requires var handed := HasProduct(Gathered(OutcomesOf(s, ts)));
             && n.tasks == Move(s.tasks, ts, if handed then Handed(drain) else Consumed(drain))
             && n.writes == if handed then s.writes[drain := ts] else s.writes
    ensures forall t :: t in n.tasks ==> Explained(n, n.tasks[t])
  {
    assert Holds(s, ts, None, Draining(drain));
    var outcomes := OutcomesOf(s, ts);
    if !HasProduct(Gathered(outcomes)) {
      NothingGathered(outcomes);
    }
    forall t | t in n.tasks ensures Explained(n, n.tasks[t]) {
      assert Explained(s, s.tasks[t]);
      if t in ts {
        var i :| 0 <= i < |ts| && ts[i] == t;
        assert Done(s, ts[i]) && outcomes[i] in outcomes;
      }
    }
  }

  lemma EndDrainKeepsInv(s: State, e: Event)
    requires Inv(s) && Enabled(s, e) && e.EndDrain?
    ensures Inv(Next(s, e))
  {
    var ts := s.drains[e.drain];
    var to := if HasProduct(Gathered(OutcomesOf(s, ts))) then Handed(e.drain) else Consumed(e.drain);
    forall t | t in s.tasks ensures s.tasks[t].place != Handed(e.drain) {
      assert Explained(s, s.tasks[t]);
    }
    EndDrainMoves(s, Next(s, e), e.drain, ts, to);
    EndDrainExplains(s, Next(s, e), e.drain, ts);
  }

  lemma StepKeepsInv(s: State, e: Event)
    requires Inv(s) && Enabled(s, e)
    ensures Inv(Next(s, e))
  {
    match e
    case Spawn(_, _, _) => SpawnKeepsInv(s, e);
    case BeginDrain(source, _) =>
      if TasksOf(s.bySource, source) == [] {
        QuietKeepsInv(s, e);
      } else {
        BeginDrainKeepsInv(s, e);
      }
    case EndDrain(_) => EndDrainKeepsInv(s, e);
    case Abandon(_) => AbandonKeepsInv(s, e);
    case Drop(_) => DropKeepsInv(s, e);
    case Close => CloseKeepsInv(s, e);
    case _ => QuietKeepsInv(s, e);
  }

  ghost predicate Run(states: seq<State>, events: seq<Event>) {
    && |states| == |events| + 1
    && (forall i :: 0 <= i < |events| ==> Enabled(states[i], events[i]) && states[i + 1] == Next(states[i], events[i]))
  }

  lemma {:induction false} RunKeepsInv(states: seq<State>, events: seq<Event>, i: nat)
    requires Run(states, events) && Inv(states[0]) && i < |states|
    ensures Inv(states[i])
  {
    if i > 0 {
      RunKeepsInv(states, events, i - 1);
      StepKeepsInv(states[i - 1], events[i - 1]);
    }
  }

  /** The lists a result is in are those its place says, and no other. */
  ghost predicate Conserved(s: State, t: TaskId)
    requires t in s.tasks
  {
    var task := s.tasks[t];
    && (task.place.Tracked? <==> task.source in s.bySource && t in s.bySource[task.source])
    && (forall d :: d in s.drains ==> (t in s.drains[d] <==> task.place == Draining(d)))
    && (forall d :: d in s.writes ==> (t in s.writes[d] <==> task.place == Handed(d)))
    && (task.place.Draining? ==> task.place.drain in s.drains) && (task.place.Handed? ==> task.place.drain in s.writes)
    && !task.place.Consumed?
    && (task.place.Unsourced? <==> task.source == "")
  }

  /** In every reachable state a finished extraction with a product is still tracked under its source,
      or gathered by exactly one drain in progress, or was handed to exactly one source write, or was
      discarded by a drop or a close, or by the cancellation of its drain; or it had no source. */
  lemma Conservation(s: State, t: TaskId)
    requires Inv(s) && t in s.tasks && Productive(s.tasks[t])
    ensures Conserved(s, t)
  {
    var task := s.tasks[t];
    assert Explained(s, task);
    if task.source != "" {
      assert Holds(s, TasksOf(s.bySource, task.source), Some(task.source), Tracked);
    }
    forall d | d in s.drains ensures t in s.drains[d] <==> task.place == Draining(d) {
      assert Holds(s, s.drains[d], None, Draining(d));
    }
    forall d | d in s.writes ensures t in s.writes[d] <==> task.place == Handed(d) {
      assert Holds(s, s.writes[d], None, Handed(d));
    }
  }

  lemma RunConserves(states: seq<State>, events: seq<Event>, i: nat, t: TaskId)
    requires Run(states, events) && Inv(states[0]) && i < |states|
    requires t in states[i].tasks && Productive(states[i].tasks[t])
    ensures Conserved(states[i], t)
  {
    RunKeepsInv(states, events, i);
    Conservation(states[i], t);
  }

  /** Where a result can go next. */
  predicate MayMove(from: Place, to: Place) {
    || from == to
    || (from.Tracked? && (to.Draining? || to.Dropped? || to.Closed?))
    || (from.Draining? && (to == Handed(from.drain) || to == Consumed(from.drain) || to == Abandoned(from.drain)))
  }

  lemma StepMoves(s: State, e: Event, t: TaskId)
    requires Inv(s) && Enabled(s, e) && t in s.tasks
    ensures t in Next(s, e).tasks && Next(s, e).tasks[t].source == s.tasks[t].source
    ensures MayMove(s.tasks[t].place, Next(s, e).tasks[t].place)
    ensures s.tasks[t].outcome.Some? ==> Next(s, e).tasks[t].outcome == s.tasks[t].outcome
  {
    match e
    case BeginDrain(source, drain) =>
      if source != "" {
        assert Holds(s, TasksOf(s.bySource, source), Some(source), Tracked);
      }
    case EndDrain(drain) =>
      assert Holds(s, s.drains[drain], None, Draining(drain));
    case Abandon(drain) =>
      assert Holds(s, s.drains[drain], None, Draining(drain));
    case Drop(source) =>
      if source != "" {
        assert Holds(s, TasksOf(s.bySource, source), Some(source), Tracked);
      }
    case _ =>
  }

  /** A result is handed over at most once, and never comes back; without a source it never is. */
  lemma {:induction false} HandedOnce(states: seq<State>, events: seq<Event>, t: TaskId, i: nat, j: nat)
    requires Run(states, events) && Inv(states[0]) && i <= j < |states| && t in states[i].tasks
    ensures t in states[j].tasks && states[j].tasks[t].source == states[i].tasks[t].source
    ensures !states[i].tasks[t].place.Tracked? && !states[i].tasks[t].place.Draining? ==> states[j].tasks[t].place == states[i].tasks[t].place
  {
    if i < j {
      HandedOnce(states, events, t, i, j - 1);
      RunKeepsInv(states, events, j - 1);
      StepMoves(states[j - 1], events[j - 1], t);
    }
  }

  /** The counts a drain reports (see `DrainResults`) mean that every extraction task of its batch
      succeeded and that everything they returned is in the one write of the drain. */
  lemma DrainReports(s: State, drain: DrainId)
    requires Inv(s) && Enabled(s, EndDrain(drain))
    ensures var ts := s.drains[drain];
            var outcomes := OutcomesOf(s, ts);
            var n := Next(s, EndDrain(drain));
            && (HasProduct(Gathered(outcomes)) <==> drain in n.writes)
            && (drain in n.writes ==> n.writes[drain] == ts)
            && (forall i :: 0 <= i < |ts| && Productive(s.tasks[ts[i]]) ==>
                  drain in n.writes && n.tasks[ts[i]].place == Handed(drain) && Included(s.tasks[ts[i]].outcome.value.batch.value, Gathered(outcomes)))
  {
    var ts := s.drains[drain];
    var outcomes := OutcomesOf(s, ts);
    GatheredIncludes(outcomes);
    forall i | 0 <= i < |ts| && Productive(s.tasks[ts[i]])
      ensures HasProduct(Gathered(outcomes)) && Included(s.tasks[ts[i]].outcome.value.batch.value, Gathered(outcomes))
    {
      assert outcomes[i] in outcomes;
      IncludedProduct(outcomes[i].batch.value, Gathered(outcomes));
    }
    assert drain !in s.writes;
  }

  // ----- a source that is purged -----

  /** After a drop of its source a result that was still tracked stays discarded for ever, and one that
      is ever handed to a write was in that drain, or handed over, when the drop came. */
  lemma DroppedStays(states: seq<State>, events: seq<Event>, i: nat, j: nat, t: TaskId)
    requires Run(states, events) && Inv(states[0]) && i < j < |states| && events[i].Drop?
    requires t in states[i].tasks && states[i].tasks[t].source == events[i].source != ""
    ensures t in states[j].tasks
    ensures states[i].tasks[t].place.Tracked? ==> states[j].tasks[t].place == Dropped
    ensures var place := states[j].tasks[t].place;
            place.Handed? ==> states[i].tasks[t].place == Draining(place.drain) || states[i].tasks[t].place == place
  {
    RunKeepsInv(states, events, i);
    var s, n := states[i], states[i + 1];
    assert n == Next(s, events[i]);
    assert Holds(s, TasksOf(s.bySource, events[i].source), Some(events[i].source), Tracked);
    StepMoves(s, events[i], t);
    PlacesAfter(states, events, i + 1, j, t);
  }

  lemma {:induction false} PlacesAfter(states: seq<State>, events: seq<Event>, i: nat, j: nat, t: TaskId)
    requires Run(states, events) && Inv(states[0]) && i <= j < |states| && t in states[i].tasks
    ensures t in states[j].tasks
    ensures var from, to := states[i].tasks[t].place, states[j].tasks[t].place;
            && (from.Draining? ==> to == from || to == Handed(from.drain) || to == Consumed(from.drain) || to == Abandoned(from.drain))
            && (!from.Tracked? && !from.Draining? ==> to == from)
  {
    if i < j {
      PlacesAfter(states, events, i, j - 1, t);
      RunKeepsInv(states, events, j - 1);
      assert states[j - 1 + 1] == Next(states[j - 1], events[j - 1]);
      StepMoves(states[j - 1], events[j - 1], t);
    }
  }

  /** Such a drain is not stopped by the drop: what it holds is handed to its write when it ends. */
  lemma DrainSurvivesDrop(states: seq<State>, events: seq<Event>, i: nat, k: nat, t: TaskId)
    requires Run(states, events) && Inv(states[0]) && i <= k < |events|
    requires t in states[i].tasks && states[i].tasks[t].place.Draining? && events[k] == EndDrain(states[i].tasks[t].place.drain)
    ensures t in states[k].tasks && (Productive(states[k].tasks[t]) ==> states[k + 1].tasks[t].place == Handed(events[k].drain))
  {
    var drain, s := events[k].drain, states[k];
    PlacesAfter(states, events, i, k, t);
    RunKeepsInv(states, events, k);
    assert Explained(s, s.tasks[t]);
    assert Holds(s, s.drains[drain], None, Draining(drain));
    assert states[k + 1] == Next(s, events[k]);
    DrainReports(s, drain);
  }

  // ----- the gathered batch, exactly -----

  /** The batches the tasks returned, in order. */
  function Batches(outcomes: seq<Outcome>): seq<Plan> {
    if outcomes == [] then [] else
      var last := outcomes[|outcomes| - 1];
      Batches(outcomes[..|outcomes| - 1]) + (if last.Returned? && last.batch.Some? then [last.batch.value] else [])
  }

  function EntitiesOf(bs: seq<Plan>): (r: seq<seq<EntityItem>>)
    ensures |r| == |bs| && forall i :: 0 <= i < |bs| ==> r[i] == bs[i].entities
  {
    seq(|bs|, i requires 0 <= i < |bs| => bs[i].entities)
  }

  function MentionsOf(bs: seq<Plan>): (r: seq<seq<MentionItem>>)
    ensures |r| == |bs| && forall i :: 0 <= i < |bs| ==> r[i] == bs[i].mentions
  {
    seq(|bs|, i requires 0 <= i < |bs| => bs[i].mentions)
  }

  function RelationsOf(bs: seq<Plan>): (r: seq<seq<RelationItem>>)
    ensures |r| == |bs| && forall i :: 0 <= i < |bs| ==> r[i] == bs[i].relations
  {
    seq(|bs|, i requires 0 <= i < |bs| => bs[i].relations)
  }

  /** One batch after the other. */
  function Joined(bs: seq<Plan>): Plan {
    Plan(Concat(EntitiesOf(bs)), Concat(MentionsOf(bs)), Concat(RelationsOf(bs)))
  }

  lemma JoinedPush(bs: seq<Plan>, b: Plan)
    ensures Joined(bs + [b]) == Joint(Joined(bs), b)
  {
    assert EntitiesOf(bs + [b])[..|bs|] == EntitiesOf(bs);
    assert MentionsOf(bs + [b])[..|bs|] == MentionsOf(bs);
    assert RelationsOf(bs + [b])[..|bs|] == RelationsOf(bs);
  }

  /** What is written is the batches the tasks returned, one after the other, each once. */
  lemma {:induction false} GatheredIsAll(outcomes: seq<Outcome>)
    ensures Gathered(outcomes) == Joined(Batches(outcomes))
  {
    if outcomes != [] {
      var last := outcomes[|outcomes| - 1];
      GatheredIsAll(outcomes[..|outcomes| - 1]);
      if last.Returned? && last.batch.Some? {
        JoinedPush(Batches(outcomes[..|outcomes| - 1]), last.batch.value);
      } else {
        assert Batches(outcomes) == Batches(outcomes[..|outcomes| - 1]);
      }
    } else {
      assert EntitiesOf([]) == [] && MentionsOf([]) == [] && RelationsOf([]) == [];
    }
  }

  // ----- what a close cancels -----

  /** The flat list holds exactly those of the running tasks that no drain has taken. */
  ghost predicate FlatExact(s: State) {
    forall t :: t in s.tasks && s.tasks[t].outcome.None? ==> (t in s.flat <==> !InDrain(s.tasks[t]))
  }

  predicate InDrain(t: Task) {
    t.place.Draining? || t.place.Abandoned?
  }

  lemma StepKeepsFlat(s: State, e: Event)
    requires Inv(s) && FlatExact(s) && Enabled(s, e)
    ensures FlatExact(Next(s, e))
  {
    var n := Next(s, e);
    forall t | t in n.tasks && n.tasks[t].outcome.None? ensures t in n.flat <==> !InDrain(n.tasks[t]) {
      if t in s.tasks {
        StepMoves(s, e, t);
        if e.EndDrain? || e.Abandon? {
          assert Holds(s, s.drains[e.drain], None, Draining(e.drain));
        }
      }
    }
  }

  lemma {:induction false} RunKeepsFlat(states: seq<State>, events: seq<Event>, i: nat)
    requires Run(states, events) && Inv(states[0]) && FlatExact(states[0]) && i < |states|
    ensures FlatExact(states[i])
  {
    if i > 0 {
      RunKeepsFlat(states, events, i - 1);
      RunKeepsInv(states, events, i - 1);
      assert states[i - 1 + 1] == Next(states[i - 1], events[i - 1]);
      StepKeepsFlat(states[i - 1], events[i - 1]);
    }
  }

  /** A close ends every task that still runs, except exactly those that a drain has taken out of the flat list. */
  lemma CloseCancels(s: State, t: TaskId)
    requires FlatExact(s) && t in s.tasks && s.tasks[t].outcome.None?
    ensures Next(s, Close).tasks[t].outcome == if InDrain(s.tasks[t]) then None else Some(Raised)
  {
  }
}
