/** The tenant write lock: ownership per tenant, re-entrancy through a context variable child tasks
    inherit. One lock per tenant, and a held lock does not expire. */
module TenantLock {
  import opened Prelude

  type TaskId = nat
  type Tenant = string

  /** An `async with` a task is inside of: it acquired the lock and saved the context's previous held
      set, or it found the tenant in the held set and acquired nothing. */
  datatype Frame = Outer(tenant: Tenant, saved: set<Tenant>) | Reentrant(tenant: Tenant)

  /** `inherited` remembers the held set a task started with. */
  datatype Task = Task(held: set<Tenant>, frames: seq<Frame>, inherited: set<Tenant>)

  datatype State = State(tasks: map<TaskId, Task>, owner: map<Tenant, TaskId>)

  datatype Event =
    | Enter(task: TaskId, tenant: Tenant)
    | Timeout(task: TaskId, tenant: Tenant)
    | Exit(task: TaskId)
    | Spawn(task: TaskId, child: TaskId, detached: bool)
    | Write(task: TaskId, tenant: Tenant)
    | End(task: TaskId)

  /** Its code is inside a method locked for the tenant, so it may write. */
  predicate Inside(t: Task, tenant: Tenant) {
    exists i :: 0 <= i < |t.frames| && t.frames[i].tenant == tenant
  }

  /** A task that must acquire a lock somebody owns can only wait, or time out and raise. */
  predicate Enabled(s: State, e: Event) {
    && e.task in s.tasks
    && match e
       case Enter(task, tenant) => tenant in s.tasks[task].held || tenant !in s.owner
       case Timeout(task, tenant) => tenant !in s.tasks[task].held && tenant in s.owner
       case Exit(task) => s.tasks[task].frames != []
       case Spawn(_, child, _) => child !in s.tasks
       case Write(task, tenant) => Inside(s.tasks[task], tenant)
       case End(task) => s.tasks[task].frames == []
  }

  function Next(s: State, e: Event): State
    requires Enabled(s, e)
  {
    var t := s.tasks[e.task];
    match e
    case Enter(task, tenant) =>
      if tenant in t.held then
        s.(tasks := s.tasks[task := t.(frames := t.frames + [Reentrant(tenant)])])
      else
        State(s.tasks[task := t.(held := t.held + {tenant}, frames := t.frames + [Outer(tenant, t.held)])], s.owner[tenant := task])
    case Timeout(_, _) => s
    case Exit(task) =>
      var top, below := t.frames[|t.frames| - 1], t.frames[..|t.frames| - 1];
      if top.Reentrant? then
        s.(tasks := s.tasks[task := t.(frames := below)])
      else
        State(s.tasks[task := t.(held := top.saved, frames := below)], s.owner - {top.tenant})
    case Spawn(_, child, detached) =>
      var held := if detached then {} else t.held;
      s.(tasks := s.tasks[child := Task(held, [], held)])
    case Write(_, _) => s
    case End(task) => s.(tasks := s.tasks - {task})
  }

  // ----- the lock as the code runs it -----

  datatype LockTimeout = TenantWriteLockTimeout

  class WriteLocks {
    var tasks: map<TaskId, Task>
    var owner: map<Tenant, TaskId>

    constructor (main: TaskId)
      ensures View() == State(map[main := Task({}, [], {})], map[])
    {
      tasks, owner := map[main := Task({}, [], {})], map[];
    }

    ghost function View(): State
      reads this
    {
      State(tasks, owner)
    }

    /** Entering `acquire_tenant_write_lock`; the wait for an owned lock ends in the timeout. */
    method Acquire(task: TaskId, tenant: Tenant) returns (r: Result<(), LockTimeout>)
      requires task in tasks
      modifies this
      ensures r.Ok? <==> old(Enabled(View(), Enter(task, tenant)))
      ensures r.Ok? ==> View() == Next(old(View()), Enter(task, tenant))
      ensures r.Err? ==> old(Enabled(View(), Timeout(task, tenant))) && View() == old(View())
    {
      var held := tasks[task].held;
      if tenant in held {
        tasks := tasks[task := tasks[task].(frames := tasks[task].frames + [Reentrant(tenant)])];
        return Ok(());
      }
      if tenant in owner {
        return Err(TenantWriteLockTimeout);
      }
      owner := owner[tenant := task];
      tasks := tasks[task := tasks[task].(held := held + {tenant}, frames := tasks[task].frames + [Outer(tenant, held)])];
      return Ok(());
    }

    /** Leaving the innermost `async with`, by return or by exception. */
    method Release(task: TaskId)
      requires task in tasks && tasks[task].frames != []
      modifies this
      ensures View() == Next(old(View()), Exit(task))
    {
      var t := tasks[task];
      var top := t.frames[|t.frames| - 1];
      t := t.(frames := t.frames[..|t.frames| - 1]);
      if top.Outer? {
        t := t.(held := top.saved);
        owner := owner - {top.tenant};
      }
      tasks := tasks[task := t];
    }

    /** `asyncio.create_task`, with the coroutine wrapped by `detached_write_task` or not. */
    method CreateTask(parent: TaskId, child: TaskId, detached: bool)
      requires parent in tasks && child !in tasks
      modifies this`tasks
      ensures View() == Next(old(View()), Spawn(parent, child, detached))
    {
      var context := tasks[parent].held;
      if detached {
        context := {};
      }
      tasks := tasks[child := Task(context, [], context)];
    }
  }

  // ----- what every reachable state satisfies -----

  ghost function Acquired(frames: seq<Frame>): set<Tenant> {
    set i | 0 <= i < |frames| && frames[i].Outer? :: frames[i].tenant
  }

  /** The stack of a task explains its held set. */
  ghost predicate Stacked(t: Task) {
    && t.held == t.inherited + Acquired(t.frames)
    && (forall i :: 0 <= i < |t.frames| ==> FrameFits(t, i))
  }

  ghost predicate FrameFits(t: Task, i: nat)
    requires i < |t.frames|
  {
    var before := t.inherited + Acquired(t.frames[..i]);
    if t.frames[i].Outer? then t.frames[i].saved == before && t.frames[i].tenant !in before
    else t.frames[i].tenant in before
  }

  ghost predicate Inv(s: State) {
    && (forall t :: t in s.tasks ==> Stacked(s.tasks[t]))
    && (forall x :: x in s.owner ==> s.owner[x] in s.tasks && x in Acquired(s.tasks[s.owner[x]].frames))
    && (forall t, x :: t in s.tasks && x in Acquired(s.tasks[t].frames) ==> x in s.owner && s.owner[x] == t)
  }

  lemma AcquiredPush(frames: seq<Frame>, f: Frame)
    ensures Acquired(frames + [f]) == Acquired(frames) + (if f.Outer? then {f.tenant} else {})
  {
    var all := frames + [f];
    assert forall i :: 0 <= i < |frames| ==> all[i] == frames[i];
    assert all[|frames|] == f;
    forall x | x in Acquired(frames) + (if f.Outer? then {f.tenant} else {}) ensures x in Acquired(all) {
      if x in Acquired(frames) {
        var i :| 0 <= i < |frames| && frames[i].Outer? && frames[i].tenant == x;
        assert all[i].Outer? && all[i].tenant == x;
      }
    }
  }

  lemma StackedPush(t: Task, f: Frame, held: set<Tenant>)
    requires Stacked(t)
    requires if f.Outer? then f.saved == t.held && f.tenant !in t.held && held == t.held + {f.tenant} else f.tenant in t.held && held == t.held
    ensures Stacked(t.(frames := t.frames + [f], held := held))
  {
    var n := t.(frames := t.frames + [f], held := held);
    AcquiredPush(t.frames, f);
    forall i | 0 <= i < |n.frames| ensures FrameFits(n, i) {
      if i < |t.frames| {
        assert n.frames[..i] == t.frames[..i];
        assert FrameFits(t, i);
      } else {
        assert n.frames[..i] == t.frames;
      }
    }
  }

  lemma StackedPop(t: Task)
    requires Stacked(t) && t.frames != []
    ensures var top, below := t.frames[|t.frames| - 1], t.frames[..|t.frames| - 1];
            && Stacked(t.(frames := below, held := if top.Outer? then top.saved else t.held))
            && Acquired(t.frames) == Acquired(below) + (if top.Outer? then {top.tenant} else {})
            && (top.Outer? ==> top.tenant !in Acquired(below))
  {
    var top, below := t.frames[|t.frames| - 1], t.frames[..|t.frames| - 1];
    assert t.frames == below + [top];
    AcquiredPush(below, top);
    assert FrameFits(t, |below|);
    var n := t.(frames := below, held := if top.Outer? then top.saved else t.held);
    forall i | 0 <= i < |below| ensures FrameFits(n, i) {
      assert below[..i] == t.frames[..i];
      assert FrameFits(t, i);
    }
  }

  lemma SameOwnership(s: State, task: TaskId, t: Task)
    requires Inv(s) && Stacked(t)
    requires Acquired(t.frames) == if task in s.tasks then Acquired(s.tasks[task].frames) else {}
    ensures Inv(s.(tasks := s.tasks[task := t]))
  {
  }

  lemma NewOwner(s: State, task: TaskId, t: Task, tenant: Tenant)
    requires Inv(s) && Stacked(t) && task in s.tasks && tenant !in s.owner
    requires Acquired(t.frames) == Acquired(s.tasks[task].frames) + {tenant}
    ensures Inv(State(s.tasks[task := t], s.owner[tenant := task]))
  {
    var n := State(s.tasks[task := t], s.owner[tenant := task]);
    forall u, x | u in n.tasks && x in Acquired(n.tasks[u].frames) ensures x in n.owner && n.owner[x] == u {
      if u != task || x != tenant {
        assert u in s.tasks && x in Acquired(s.tasks[u].frames);
      }
    }
  }

  lemma NoLongerOwner(s: State, task: TaskId, t: Task, tenant: Tenant)
    requires Inv(s) && Stacked(t) && task in s.tasks && tenant in Acquired(s.tasks[task].frames)
    requires Acquired(t.frames) == Acquired(s.tasks[task].frames) - {tenant}
    ensures Inv(State(s.tasks[task := t], s.owner - {tenant}))
  {
    var n := State(s.tasks[task := t], s.owner - {tenant});
    forall u, x | u in n.tasks && x in Acquired(n.tasks[u].frames) ensures x in n.owner && n.owner[x] == u {
      if u == task {
        assert x in Acquired(s.tasks[task].frames) && s.owner[x] == task;
      } else {
        assert x in Acquired(s.tasks[u].frames) && s.owner[x] == u;
      }
    }
  }

  lemma StepKeepsInv(s: State, e: Event)
    requires Inv(s) && Enabled(s, e)
    ensures Inv(Next(s, e))
  {
    var t := s.tasks[e.task];
    var n := Next(s, e);
    match e
    case Enter(task, tenant) =>
      if tenant in t.held {
        StackedPush(t, Reentrant(tenant), t.held);
        AcquiredPush(t.frames, Reentrant(tenant));
        SameOwnership(s, task, n.tasks[task]);
      } else {
        StackedPush(t, Outer(tenant, t.held), t.held + {tenant});
        AcquiredPush(t.frames, Outer(tenant, t.held));
        NewOwner(s, task, n.tasks[task], tenant);
      }
    case Exit(task) =>
      StackedPop(t);
      var top := t.frames[|t.frames| - 1];
      if top.Outer? {
        NoLongerOwner(s, task, n.tasks[task], top.tenant);
      } else {
        SameOwnership(s, task, n.tasks[task]);
      }
    case Spawn(_, child, detached) =>
      SameOwnership(s, child, n.tasks[child]);
    case End(task) =>
      assert Acquired(t.frames) == {};
    case _ =>
  }

  ghost predicate Run(states: seq<State>, events: seq<Event>) {
    && |states| == |events| + 1
    && (forall i :: 0 <= i < |events| ==> Enabled(states[i], events[i]) && states[i + 1] == Next(states[i], events[i]))
  }

  lemma {:induction false} RunKeepsInv(states: seq<State>, events: seq<Event>, i: nat)
    requires Run(states, events) && Inv(states[0]) && i < |states|
    ensures Inv(states[i])
  {
    if i > 0 {
      RunKeepsInv(states, events, i - 1);
      StepKeepsInv(states[i - 1], events[i - 1]);
    }
  }

  // ----- mutual exclusion -----

  /** Every task inside a locked method owns the lock of its tenant. */
  ghost predicate WritersOwn(s: State) {
    forall t, x :: t in s.tasks && Inside(s.tasks[t], x) ==> x in s.owner && s.owner[x] == t
  }

  /** A task enters a tenant it only knows from the context it inherited: `tenant in held`, but the
      lock is its parent's. */
  ghost predicate EntersInherited(s: State, e: Event) {
    e.Enter? && e.task in s.tasks && e.tenant in s.tasks[e.task].inherited
  }

  /** Only ever inside what it acquired itself. */
  ghost predicate OwnFrames(t: Task) {
    forall i :: 0 <= i < |t.frames| ==> t.frames[i].tenant in Acquired(t.frames)
  }

  lemma OwnFramesStep(s: State, e: Event)
    requires Inv(s) && Enabled(s, e) && !EntersInherited(s, e)
    requires forall t :: t in s.tasks ==> OwnFrames(s.tasks[t])
    ensures forall t :: t in Next(s, e).tasks ==> OwnFrames(Next(s, e).tasks[t])
  {
    var t := s.tasks[e.task];
    if e.Enter? {
      AcquiredPush(t.frames, if e.tenant in t.held then Reentrant(e.tenant) else Outer(e.tenant, t.held));
    }
    if e.Exit? {
      PopKeepsOwn(t);
    }
  }

  lemma PopKeepsOwn(t: Task)
    requires Stacked(t) && OwnFrames(t) && t.frames != []
    ensures OwnFrames(t.(frames := t.frames[..|t.frames| - 1]))
  {
    var n := t.(frames := t.frames[..|t.frames| - 1]);
    StackedPop(t);
    forall i | 0 <= i < |n.frames| ensures n.frames[i].tenant in Acquired(n.frames) {
      FrameBelow(t, i);
    }
  }

  /** A frame whose tenant was not inherited stands on an acquisition at or below it. */
  lemma FrameBelow(t: Task, i: nat)
    requires Stacked(t) && OwnFrames(t) && i < |t.frames| - 1
    ensures t.frames[i].tenant in Acquired(t.frames[..|t.frames| - 1])
  {
    var top := |t.frames| - 1;
    var below := t.frames[..top];
    StackedPop(t);
    assert FrameFits(t, i) && FrameFits(t, top);
    if t.frames[i].Outer? {
      assert below[i] == t.frames[i];
    } else if t.frames[i].tenant !in Acquired(below) {
      assert t.frames[top].Outer? && t.frames[top].tenant == t.frames[i].tenant;
      AcquiredPrefix(t.frames, i, top);
      assert false;
    }
  }

  lemma AcquiredPrefix(frames: seq<Frame>, i: nat, j: nat)
    requires i <= j <= |frames|
    ensures Acquired(frames[..i]) <= Acquired(frames[..j])
  {
    forall x | x in Acquired(frames[..i]) ensures x in Acquired(frames[..j]) {
      var k :| 0 <= k < i && frames[..i][k].Outer? && frames[..i][k].tenant == x;
      assert frames[..j][k] == frames[..i][k];
    }
  }

  lemma OwnFramesOwn(s: State)
    requires Inv(s)
    requires forall t :: t in s.tasks ==> OwnFrames(s.tasks[t])
    ensures WritersOwn(s)
  {
    forall t, x | t in s.tasks && Inside(s.tasks[t], x) ensures x in s.owner && s.owner[x] == t {
      var i :| 0 <= i < |s.tasks[t].frames| && s.tasks[t].frames[i].tenant == x;
    }
  }

  lemma {:induction false} RunOwnFrames(states: seq<State>, events: seq<Event>, i: nat)
    requires Run(states, events) && Inv(states[0]) && i < |states|
    requires forall t :: t in states[0].tasks ==> OwnFrames(states[0].tasks[t])
    requires forall k :: 0 <= k < |events| ==> !EntersInherited(states[k], events[k])
    ensures forall t :: t in states[i].tasks ==> OwnFrames(states[i].tasks[t])
  {
    if i > 0 {
      RunOwnFrames(states, events, i - 1);
      RunKeepsInv(states, events, i - 1);
      OwnFramesStep(states[i - 1], events[i - 1]);
    }
  }

  lemma InheritedEntryUnowned(s: State, e: Event)
    requires Inv(s) && Enabled(s, e) && EntersInherited(s, e)
    ensures !WritersOwn(Next(s, e))
  {
    var t := s.tasks[e.task];
    var n := Next(s, e);
    StepKeepsInv(s, e);
    assert n.tasks[e.task].frames[|t.frames|] == Reentrant(e.tenant);
    assert Inside(n.tasks[e.task], e.tenant);
    AcquiredPush(t.frames, Reentrant(e.tenant));
    forall i | 0 <= i < |t.frames| && t.frames[i].Outer? ensures t.frames[i].tenant != e.tenant {
      assert FrameFits(t, i);
    }
    assert e.tenant !in Acquired(n.tasks[e.task].frames);
    assert !(e.tenant in n.owner && n.owner[e.tenant] == e.task);
  }

  /** From a state where no task is inside a locked method: every writer owns its tenant's lock in
      every state of the run if and only if no task enters a tenant it merely inherited, that is, if
      every child that writes under an inherited tenant was spawned detached. */
  lemma WritersOwnIff(states: seq<State>, events: seq<Event>)
    requires Run(states, events) && Inv(states[0])
    requires forall t :: t in states[0].tasks ==> states[0].tasks[t].frames == []
    ensures (forall i :: 0 <= i < |states| ==> WritersOwn(states[i]))
       <==> (forall i :: 0 <= i < |events| ==> !EntersInherited(states[i], events[i]))
  {
    if forall i :: 0 <= i < |events| ==> !EntersInherited(states[i], events[i]) {
      forall i | 0 <= i < |states| ensures WritersOwn(states[i]) {
        RunOwnFrames(states, events, i);
        RunKeepsInv(states, events, i);
        OwnFramesOwn(states[i]);
      }
    }
    if forall i :: 0 <= i < |states| ==> WritersOwn(states[i]) {
      forall i | 0 <= i < |events| ensures !EntersInherited(states[i], events[i]) {
        RunKeepsInv(states, events, i);
        assert WritersOwn(states[i + 1]);
        if EntersInherited(states[i], events[i]) {
          InheritedEntryUnowned(states[i], events[i]);
        }
      }
    }
  }

  /** Then a write happens only in a task that owns the lock, */
  lemma WriterOwnsLock(s: State, task: TaskId, tenant: Tenant)
    requires WritersOwn(s) && Enabled(s, Write(task, tenant))
    ensures tenant in s.owner && s.owner[tenant] == task
  {
    assert task in s.tasks && Inside(s.tasks[task], tenant);
  }

  /** so no two tasks can write for one tenant in the same state. */
  lemma OneWriterAtATime(s: State, a: TaskId, b: TaskId, tenant: Tenant)
    requires WritersOwn(s) && Enabled(s, Write(a, tenant)) && Enabled(s, Write(b, tenant))
    ensures a == b
  {
    WriterOwnsLock(s, a, tenant);
    WriterOwnsLock(s, b, tenant);
  }

  /** A plain child of a lock holder: its parent releases, another task acquires, */
  function PlainSpawnEvent(k: nat): Event {
    match k
    case 0 => Enter(0, "t")
    case 1 => Spawn(0, 2, false)
    case 2 => Exit(0)
    case 3 => Enter(1, "t")
    case _ => Enter(2, "t")
  }

  function PlainSpawnState(k: nat): State {
    var idle, holder, child := Task({}, [], {}), Task({"t"}, [Outer("t", {})], {}), Task({"t"}, [], {"t"});
    match k
    case 0 => State(map[0 := idle, 1 := idle], map[])
    case 1 => State(map[0 := holder, 1 := idle], map["t" := 0])
    case 2 => State(map[0 := holder, 1 := idle, 2 := child], map["t" := 0])
    case 3 => State(map[0 := idle, 1 := idle, 2 := child], map[])
    case 4 => State(map[0 := idle, 1 := holder, 2 := child], map["t" := 1])
    case _ => State(map[0 := idle, 1 := holder, 2 := child.(frames := [Reentrant("t")])], map["t" := 1])
  }

  lemma PlainSpawnStep(k: nat)
    requires k < 5
    ensures Enabled(PlainSpawnState(k), PlainSpawnEvent(k))
    ensures Next(PlainSpawnState(k), PlainSpawnEvent(k)) == PlainSpawnState(k + 1)
  {
    var none: set<Tenant> := {};
    assert none + {"t"} == {"t"};
    assert [] + [Outer("t", {})] == [Outer("t", {})] && [Outer("t", {})][..0] == [] && [] + [Reentrant("t")] == [Reentrant("t")];
    var s, e, next := PlainSpawnState(k), PlainSpawnEvent(k), PlainSpawnState(k + 1);
    if k == 0 {
      assert Next(s, e).tasks == next.tasks && Next(s, e).owner == next.owner;
    } else if k == 1 {
      assert Next(s, e).tasks == next.tasks && Next(s, e).owner == next.owner;
    } else if k == 2 {
      assert Next(s, e).tasks == next.tasks && Next(s, e).owner == next.owner;
    } else if k == 3 {
      assert Next(s, e).tasks == next.tasks && Next(s, e).owner == next.owner;
    } else {
      assert Next(s, e).tasks == next.tasks && Next(s, e).owner == next.owner;
    }
  }

  /** and both write. */
  lemma PlainSpawnBreaksExclusion()
    ensures Inv(PlainSpawnState(0))
    ensures forall k :: 0 <= k < 5 ==>
              && Enabled(PlainSpawnState(k), PlainSpawnEvent(k))
              && Next(PlainSpawnState(k), PlainSpawnEvent(k)) == PlainSpawnState(k + 1)
    ensures Enabled(PlainSpawnState(5), Write(1, "t")) && Enabled(PlainSpawnState(5), Write(2, "t"))
  {
    forall k | 0 <= k < 5
      ensures Enabled(PlainSpawnState(k), PlainSpawnEvent(k))
      ensures Next(PlainSpawnState(k), PlainSpawnEvent(k)) == PlainSpawnState(k + 1)
    {
      PlainSpawnStep(k);
    }
    assert PlainSpawnState(5).tasks[1].frames[0].tenant == "t";
    assert PlainSpawnState(5).tasks[2].frames[0].tenant == "t";
  }

  // ----- re-entry and release -----

  /** A task never waits for a lock it owns. */
  lemma ReentryNeverBlocks(s: State, task: TaskId, tenant: Tenant)
    requires Inv(s) && task in s.tasks && tenant in s.owner && s.owner[tenant] == task
    ensures Enabled(s, Enter(task, tenant)) && !Enabled(s, Timeout(task, tenant))
    ensures Next(s, Enter(task, tenant)).owner == s.owner
  {
    assert tenant in Acquired(s.tasks[task].frames);
  }

  /** A detached child holds nothing and has to wait for its parent's lock. */
  lemma DetachedChildWaits(s: State, task: TaskId, child: TaskId, tenant: Tenant)
    requires Inv(s) && task in s.tasks && child !in s.tasks && tenant in s.owner
    ensures !Enabled(Next(s, Spawn(task, child, true)), Enter(child, tenant))
  {
  }

  /** Between two states of a run, this one never leaves a frame it was already in. */
  ghost predicate NeverBelow(states: seq<State>, task: TaskId, i: nat, j: nat)
    requires i <= j < |states| && task in states[i].tasks
  {
    forall k :: i <= k <= j ==> task in states[k].tasks && |states[i].tasks[task].frames| <= |states[k].tasks[task].frames|
  }

  lemma {:induction false} FramesBelowStay(states: seq<State>, events: seq<Event>, task: TaskId, i: nat, j: nat)
    requires Run(states, events) && i <= j < |states| && task in states[i].tasks && NeverBelow(states, task, i, j)
    ensures states[i].tasks[task].frames <= states[j].tasks[task].frames
    ensures states[i].tasks[task].inherited == states[j].tasks[task].inherited
  {
    if i < j {
      FramesBelowStay(states, events, task, i, j - 1);
      var e := events[j - 1];
      assert task in states[j - 1].tasks && task in states[j].tasks;
      assert |states[i].tasks[task].frames| <= |states[j].tasks[task].frames|;
    }
  }

  /** Whatever a task and its children did in between, nested enters, exits by exception, timeouts
      and spawns: back at the same nesting depth it has the held set it had and owns what it owned;
      in particular a lock is given back exactly at its outermost exit. */
  lemma BalancedRunRestores(states: seq<State>, events: seq<Event>, task: TaskId, i: nat, j: nat)
    requires Run(states, events) && Inv(states[0]) && i <= j < |states|
    requires task in states[i].tasks && NeverBelow(states, task, i, j)
    requires |states[j].tasks[task].frames| == |states[i].tasks[task].frames|
    ensures states[j].tasks[task] == states[i].tasks[task]
    ensures forall x :: (x in states[i].owner && states[i].owner[x] == task) <==> (x in states[j].owner && states[j].owner[x] == task)
  {
    FramesBelowStay(states, events, task, i, j);
    RunKeepsInv(states, events, i);
    RunKeepsInv(states, events, j);
    assert Stacked(states[i].tasks[task]) && Stacked(states[j].tasks[task]);
  }
}
