/** The readers' side of the swap: probe the token, run under that generation through the compiled
    query cache, probe again, re-run once. */
module Readers {
  import opened Prelude
  import opened Generation
  import Swap = GenerationSwap

  /** The token a probe at each tick would find. */
  type Schedule = nat -> nat

  ghost predicate Forward(token: Schedule) {
    forall s, t :: 0 <= s <= t ==> token(s) <= token(t)
  }

  ghost predicate Constant(token: Schedule, from: nat, to: nat, gen: nat) {
    forall t :: from <= t <= to ==> token(t) == gen
  }

  lemma SameAtBothEnds(token: Schedule, from: nat, to: nat)
    requires Forward(token) && from <= to && token(from) == token(to)
    ensures Constant(token, from, to, token(from))
  {
  }

  /** A compiled query: the names of its generation are inlined. */
  datatype Query = Query(key: string, gen: nat)

  /** The vector index a query of that key searches, if it searches one at all. */
  function IndexOf(q: Query): Option<Index> {
    if q.key in {"find_similar", "recall_by_vector", "search_in_tenant"} then Some(DocumentIndex(q.gen))
    else if q.key == "recall_entity_by_vector" then Some(EntityIndex(q.gen))
    else None
  }

  datatype Ran = Ran(query: Query, at: nat)

  /** What the concurrent inner calls of one run do, in the order the event loop lets them, each after
      some ticks: probe the token, adopt the probed generation, compile a query for the handler's
      generation, execute it. */
  datatype Action = Probe(call: nat) | Adopt(call: nat) | Compile(call: nat, key: string) | Execute(call: nat)

  datatype Event = Event(ticks: nat, action: Action)

  /** Whether the vector index the query names, if any, exists at that tick; it raises if not. */
  type Liveness = (Query, nat) -> bool

  datatype Failure = GenerationChangedAgain | QueryFailed(query: Query, at: nat)

  /** The run finished, between two ticks, entirely under one generation. */
  ghost predicate UnderOneGeneration(token: Schedule, ran: seq<Ran>, from: nat, to: nat, gen: nat) {
    && Constant(token, from, to, gen)
    && (forall r :: r in ran ==> r.query.gen == gen && from <= r.at <= to)
  }

  // ----- one run -----

  /** A run so far: the handler's generation and clock, what each call probed and compiled. */
  datatype Play = Play(generation: nat, clock: nat, probed: map<nat, nat>, compiled: map<nat, Query>, ran: seq<Ran>, failed: Option<Failure>)

  function Start(generation: nat, clock: nat): Play {
    Play(generation, clock, map[], map[], [], None)
  }

  /** An exception ends the run. */
  function PlayOne(token: Schedule, alive: Liveness, p: Play, e: Event): Play {
    if p.failed.Some? then p else
      var n := p.(clock := p.clock + e.ticks);
      match e.action
      case Probe(call) => n.(probed := n.probed[call := token(n.clock)])
      case Adopt(call) => if call in n.probed then n.(generation := n.probed[call]) else n
      case Compile(call, key) => n.(compiled := n.compiled[call := Query(key, n.generation)])
      case Execute(call) =>
        if call !in n.compiled then n
        else if alive(n.compiled[call], n.clock) then n.(ran := n.ran + [Ran(n.compiled[call], n.clock)])
        else n.(failed := Some(QueryFailed(n.compiled[call], n.clock)))
  }

  function PlayAll(token: Schedule, alive: Liveness, p: Play, script: seq<Event>): Play {
    if script == [] then p else PlayOne(token, alive, PlayAll(token, alive, p, script[..|script| - 1]), script[|script| - 1])
  }

  lemma PlayPush(token: Schedule, alive: Liveness, p: Play, script: seq<Event>, i: nat)
    requires i < |script|
    ensures PlayAll(token, alive, p, script[..i + 1]) == PlayOne(token, alive, PlayAll(token, alive, p, script[..i]), script[i])
  {
    assert script[..i + 1][..i] == script[..i];
  }

  /** In a run without a query error every execution of a compiled query met its index and is on record,
      under the generation it was compiled for. */
  lemma {:induction false} ExecutedRan(token: Schedule, alive: Liveness, p: Play, script: seq<Event>, i: nat)
    requires i < |script| && script[i].action.Execute? && PlayAll(token, alive, p, script).failed.None?
    ensures var before, call := PlayAll(token, alive, p, script[..i]), script[i].action.call;
            call in before.compiled ==>
              var query, at := before.compiled[call], before.clock + script[i].ticks;
              alive(query, at) && Ran(query, at) in PlayAll(token, alive, p, script).ran
  {
    var last := |script| - 1;
    var head := PlayAll(token, alive, p, script[..last]);
    if i < last {
      RanStays(token, alive, head, script[last]);
      ExecutedRan(token, alive, p, script[..last], i);
      assert script[..last][..i] == script[..i];
    } else if script[i].action.call in head.compiled {
      RunsNow(token, alive, head, script[last]);
    }
  }

  lemma RanStays(token: Schedule, alive: Liveness, p: Play, e: Event)
    requires PlayOne(token, alive, p, e).failed.None?
    ensures p.failed.None? && forall r :: r in p.ran ==> r in PlayOne(token, alive, p, e).ran
  {
  }

  lemma RunsNow(token: Schedule, alive: Liveness, p: Play, e: Event)
    requires PlayOne(token, alive, p, e).failed.None? && e.action.Execute? && e.action.call in p.compiled
    ensures alive(p.compiled[e.action.call], p.clock + e.ticks)
    ensures Ran(p.compiled[e.action.call], p.clock + e.ticks) in PlayOne(token, alive, p, e).ran
  {
  }

  lemma {:induction false} FailedStays(token: Schedule, alive: Liveness, p: Play, script: seq<Event>, n: nat)
    requires n <= |script| && PlayAll(token, alive, p, script[..n]).failed.Some?
    ensures PlayAll(token, alive, p, script) == PlayAll(token, alive, p, script[..n])
  {
    if n == |script| {
      assert script[..n] == script;
    } else {
      assert script[..|script| - 1][..n] == script[..n];
      FailedStays(token, alive, p, script[..|script| - 1], n);
    }
  }

  lemma FailedAt(token: Schedule, alive: Liveness, p: Play, script: seq<Event>, i: nat)
    requires i < |script| && PlayOne(token, alive, PlayAll(token, alive, p, script[..i]), script[i]).failed.Some?
    ensures PlayAll(token, alive, p, script) == PlayOne(token, alive, PlayAll(token, alive, p, script[..i]), script[i])
  {
    PlayPush(token, alive, p, script, i);
    FailedStays(token, alive, p, script, i + 1);
  }

  /** Everything the run has taken in belongs to the generation. */
  ghost predicate AllOf(p: Play, gen: nat) {
    && p.generation == gen
    && (forall c :: c in p.probed ==> p.probed[c] == gen)
    && (forall c :: c in p.compiled ==> p.compiled[c].gen == gen)
    && (forall r :: r in p.ran ==> r.query.gen == gen)
    && (p.failed.Some? && p.failed.value.QueryFailed? ==> p.failed.value.query.gen == gen)
  }

  ghost predicate Timed(p: Play, alive: Liveness, from: nat) {
    && from <= p.clock
    && (forall r :: r in p.ran ==> from <= r.at <= p.clock && alive(r.query, r.at))
    && (p.failed.Some? ==> p.failed.value.QueryFailed? && p.failed.value.at == p.clock && !alive(p.failed.value.query, p.clock))
  }

  lemma StepKeepsTimed(token: Schedule, alive: Liveness, p: Play, e: Event, from: nat)
    requires Timed(p, alive, from)
    ensures Timed(PlayOne(token, alive, p, e), alive, from)
  {
  }

  lemma StepKeepsAllOf(token: Schedule, alive: Liveness, p: Play, e: Event, gen: nat)
    requires AllOf(p, gen) && token(PlayOne(token, alive, p, e).clock) == gen
    ensures AllOf(PlayOne(token, alive, p, e), gen)
  {
  }

  /** While the token stands still at the handler's generation, so does everything in the run. */
  lemma {:induction false} PlayKeeps(token: Schedule, alive: Liveness, gen: nat, from: nat, script: seq<Event>)
    ensures var p := PlayAll(token, alive, Start(gen, from), script);
            Timed(p, alive, from) && (Constant(token, from, p.clock, gen) ==> AllOf(p, gen))
  {
    if script != [] {
      var head := script[..|script| - 1];
      PlayKeeps(token, alive, gen, from, head);
      var h := PlayAll(token, alive, Start(gen, from), head);
      var p := PlayOne(token, alive, h, script[|script| - 1]);
      StepKeepsTimed(token, alive, h, script[|script| - 1], from);
      if Constant(token, from, p.clock, gen) {
        assert Constant(token, from, h.clock, gen) && token(p.clock) == gen;
        StepKeepsAllOf(token, alive, h, script[|script| - 1], gen);
      }
    }
  }

  /** No query compiled for the generation in service ever raises. */
  ghost predicate InServiceAlive(token: Schedule, alive: Liveness) {
    forall q: Query, t: nat :: q.gen == token(t) ==> alive(q, t)
  }

  /** A query can only raise if the token moved after the run began. */
  lemma FailureMeansMoved(token: Schedule, alive: Liveness, gen: nat, from: nat, script: seq<Event>)
    requires Forward(token) && InServiceAlive(token, alive) && token(from) == gen
    requires PlayAll(token, alive, Start(gen, from), script).failed.Some?
    ensures token(from) < token(PlayAll(token, alive, Start(gen, from), script).clock)
  {
    var p := PlayAll(token, alive, Start(gen, from), script);
    PlayKeeps(token, alive, gen, from, script);
    if token(from) == token(p.clock) {
      SameAtBothEnds(token, from, p.clock);
    }
  }

  class Handler {
    var generation: nat
    var queryCache: map<string, map<nat, Query>>
    var clock: nat

    constructor ()
      ensures CacheValid()
    {
      generation, queryCache, clock := 1, map[], 0;
    }

    /** Every cached query was compiled for the key and the generation it is cached under. */
    ghost predicate CacheValid()
      reads this`queryCache
    {
      forall key, gen :: key in queryCache && gen in queryCache[key] ==> queryCache[key][gen] == Query(key, gen)
    }

    method CompileQuery(key: string, gen: nat) returns (q: Query)
      requires CacheValid()
      modifies this`queryCache
      ensures CacheValid() && q == Query(key, gen)
      ensures key in queryCache && gen in queryCache[key]
      ensures forall k, g :: k in old(queryCache) && g in old(queryCache)[k] ==> k in queryCache && g in queryCache[k]
    {
      var perGen := if key in queryCache then queryCache[key] else map[];
      if gen !in perGen {
        perGen := perGen[gen := Query(key, gen)];
      }
      queryCache := queryCache[key := perGen];
      q := perGen[gen];
    }

    method ReadGeneration(token: Schedule, ticks: nat) returns (gen: nat)
      modifies this`clock
      ensures clock == old(clock) + ticks && gen == token(clock)
    {
      clock := clock + ticks;
      gen := token(clock);
    }

    /** The calls of one run, action by action; an exception breaks it off. */
    method RunScript(token: Schedule, alive: Liveness, script: seq<Event>) returns (r: Result<seq<Ran>, Failure>)
      requires CacheValid()
      modifies this
      ensures CacheValid()
      ensures var p := PlayAll(token, alive, Start(old(generation), old(clock)), script);
              generation == p.generation && clock == p.clock && r == if p.failed.Some? then Err(p.failed.value) else Ok(p.ran)
    {
      var ran: seq<Ran> := [];
      var probed: map<nat, nat> := map[];
      var compiled: map<nat, Query> := map[];
      ghost var start := Start(generation, clock);
      for i := 0 to |script|
        invariant CacheValid()
        invariant PlayAll(token, alive, start, script[..i]) == Play(generation, clock, probed, compiled, ran, None)
      {
        ghost var next := PlayOne(token, alive, Play(generation, clock, probed, compiled, ran, None), script[i]);
        clock := clock + script[i].ticks;
        match script[i].action {
          case Probe(call) =>
            probed := probed[call := token(clock)];
          case Adopt(call) =>
            if call in probed && probed[call] != generation {
              generation := probed[call];
            }
          case Compile(call, key) =>
            var q := CompileQuery(key, generation);
            compiled := compiled[call := q];
          case Execute(call) =>
            if call in compiled {
              if !alive(compiled[call], clock) {
                FailedAt(token, alive, start, script, i);
                return Err(QueryFailed(compiled[call], clock));
              }
              ran := ran + [Ran(compiled[call], clock)];
            }
        }
        assert next == Play(generation, clock, probed, compiled, ran, None);
        PlayPush(token, alive, start, script, i);
      }
      assert script[..|script|] == script;
      return Ok(ran);
    }

    /** One run of the wrapped function. */
    method RunOnce(token: Schedule, alive: Liveness, script: seq<Event>) returns (r: Result<seq<Ran>, Failure>)
      requires CacheValid()
      modifies this
      ensures CacheValid() && clock >= old(clock)
      ensures r.Ok? ==> forall x :: x in r.value ==> old(clock) <= x.at <= clock && alive(x.query, x.at)
      ensures r.Ok? && Constant(token, old(clock), clock, old(generation)) ==>
                UnderOneGeneration(token, r.value, old(clock), clock, old(generation))
      ensures var p := PlayAll(token, alive, Start(old(generation), old(clock)), script);
              r == if p.failed.Some? then Err(p.failed.value) else Ok(p.ran)
      ensures r.Err? ==> r.error.QueryFailed? && r.error.at == clock && !alive(r.error.query, clock)
      ensures r.Err? && Forward(token) && InServiceAlive(token, alive) && old(generation) == token(old(clock)) ==>
                token(old(clock)) < token(clock)
    {
      ghost var gen, from := generation, clock;
      r := RunScript(token, alive, script);
      PlayKeeps(token, alive, gen, from, script);
      if r.Err? && Forward(token) && InServiceAlive(token, alive) && gen == token(from) {
        FailureMeansMoved(token, alive, gen, from, script);
      }
    }

    /** `retry_on_generation_change`: `probes` are the ticks of its token probes, up to three of them. */
    method RetryOnGenerationChange(token: Schedule, alive: Liveness, ticks: seq<nat>, first: seq<Event>, second: seq<Event>)
      returns (r: Result<seq<Ran>, Failure>, ghost probes: seq<nat>)
      requires Forward(token) && CacheValid() && |ticks| == 3
      modifies this
      ensures CacheValid()
      ensures 1 <= |probes| <= 3 && old(clock) <= probes[0] <= probes[|probes| - 1] <= clock
      ensures |probes| == 3 ==> probes[0] <= probes[1] <= probes[2]
      ensures |probes| == 3 ==> token(probes[0]) < token(probes[1])
      ensures r.Ok? ==> |probes| >= 2 && (|probes| == 2 ==> token(probes[0]) == token(probes[1]))
      ensures r.Ok? ==> UnderOneGeneration(token, r.value, probes[|probes| - 2], probes[|probes| - 1], token(probes[|probes| - 1]))
      ensures r.Ok? ==> forall x :: x in r.value ==> alive(x.query, x.at)
      ensures r == Err(GenerationChangedAgain) <==> |probes| == 3 && token(probes[0]) < token(probes[1]) < token(probes[2])
      ensures r.Err? && r.error.QueryFailed? ==>
        && |probes| <= 2 && r.error.at == clock && !alive(r.error.query, r.error.at)
        && (|probes| == 2 ==> token(probes[0]) < token(probes[1]))
        && (InServiceAlive(token, alive) ==> token(probes[|probes| - 1]) < token(r.error.at))
    {
      var before := ReadGeneration(token, ticks[0]);
      probes := [clock];
      if before != generation {
        generation := before;
      }
      r := RunOnce(token, alive, first);
      if r.Err? {
        return r, probes;
      }
      var after := ReadGeneration(token, ticks[1]);
      probes := probes + [clock];
      if after == before {
        SameAtBothEnds(token, probes[0], probes[1]);
        return r, probes;
      }
      generation := after;
      r := RunOnce(token, alive, second);
      if r.Err? {
        return r, probes;
      }
      var final := ReadGeneration(token, ticks[2]);
      probes := probes + [clock];
      if final != after {
        return Err(GenerationChangedAgain), probes;
      }
      SameAtBothEnds(token, probes[1], probes[2]);
      return r, probes;
    }
  }

  // ----- readers beside swaps -----

  /** The token while a run of the swap machine goes by, one step a tick. */
  ghost function TokensOf(states: seq<Swap.State>): Schedule
    requires states != []
  {
    (t: nat) => states[if t < |states| then t else |states| - 1].db.token
  }

  lemma TokensMoveForward(states: seq<Swap.State>, events: seq<Swap.Event>)
    requires Swap.Run(states, events) && Swap.Inv(states[0])
    ensures Forward(TokensOf(states))
  {
    var token := TokensOf(states);
    forall s: nat, t: nat | s <= t ensures token(s) <= token(t) {
      var last := |states| - 1;
      Swap.TokenMovesForward(states, events, if s < last then s else last, if t < last then t else last);
    }
  }

  /** Beside swaps that never flip to nothing, each query of an accepted run meets the vector indexes
      of the generation it was compiled for. */
  lemma AcceptedQueriesFindIndexes(states: seq<Swap.State>, events: seq<Swap.Event>, ran: seq<Ran>, from: nat, to: nat, gen: nat)
    requires Swap.Run(states, events) && Swap.Inv(states[0]) && Swap.Intact(states[0].db)
    requires forall i :: 0 <= i < |events| ==> !Swap.FlipsToNothing(states[i], events[i])
    requires to < |states| && UnderOneGeneration(TokensOf(states), ran, from, to, gen)
    ensures forall r :: r in ran ==>
              var db := states[r.at].db;
              db.token == r.query.gen && DocumentIndex(r.query.gen) in db.indexes && EntityIndex(r.query.gen) in db.indexes
  {
    Swap.RunIntactIff(states, events);
    forall r | r in ran ensures states[r.at].db.token == gen && Swap.Intact(states[r.at].db) {
      assert TokensOf(states)(r.at) == gen;
    }
  }

  /** Whether the index a query names exists, while a run of the swap machine goes by. */
  ghost function AliveOf(states: seq<Swap.State>): Liveness
    requires states != []
  {
    (q: Query, t: nat) => IndexOf(q).None? || IndexOf(q).value in states[At(states, t)].db.indexes
  }

  /** The state at a tick; the last one stands. */
  function At(states: seq<Swap.State>, t: nat): (i: nat)
    requires states != []
    ensures i < |states|
  {
    if t < |states| then t else |states| - 1
  }

  /** Beside a run from an intact state no query of the generation in service raises if and only if no
      swap flips to nothing; a query of a call can then raise only after the token moved. */
  lemma InServiceAliveIff(states: seq<Swap.State>, events: seq<Swap.Event>)
    requires Swap.Run(states, events) && Swap.Inv(states[0]) && Swap.Intact(states[0].db)
    ensures InServiceAlive(TokensOf(states), AliveOf(states))
       <==> forall i :: 0 <= i < |events| ==> !Swap.FlipsToNothing(states[i], events[i])
  {
    Swap.RunIntactIff(states, events);
    var token, alive := TokensOf(states), AliveOf(states);
    if InServiceAlive(token, alive) {
      forall i | 0 <= i < |states| ensures Swap.Intact(states[i].db) {
        var d, e := Query("find_similar", token(i)), Query("recall_entity_by_vector", token(i));
        KeysDiffer();
        assert alive(d, i) && alive(e, i);
        assert IndexOf(d) == Some(DocumentIndex(d.gen)) && IndexOf(e) == Some(EntityIndex(e.gen));
      }
    }
    if forall i :: 0 <= i < |states| ==> Swap.Intact(states[i].db) {
      forall q: Query, t: nat | q.gen == token(t) ensures alive(q, t) {
        assert Swap.Intact(states[At(states, t)].db);
      }
    }
  }

  lemma KeysDiffer()
    ensures "recall_entity_by_vector" !in {"find_similar", "recall_by_vector", "search_in_tenant"}
  {
    assert |"recall_entity_by_vector"| != |"find_similar"|;
    assert |"recall_entity_by_vector"| != |"recall_by_vector"|;
    assert |"recall_entity_by_vector"| != |"search_in_tenant"|;
  }

  // ----- when a query raises -----

  /** The step sends the statement that drops this index. */
  ghost predicate SendsDrop(s: Swap.State, e: Swap.Event, index: Index) {
    e.Send? && Swap.Enabled(s, e) && Swap.Statements(s.swap)[s.swap.sent] == DropIndex(index)
  }

  /** A swap beside the calls sent it between two ticks. */
  ghost predicate Dropped(states: seq<Swap.State>, events: seq<Swap.Event>, from: nat, to: nat, index: Index)
    requires |states| == |events| + 1
  {
    exists m: nat :: from <= m < to && m < |events| && SendsDrop(states[m], events[m], index)
  }

  lemma ExecIndexes(db: Versioned, st: Statement, index: Index)
    requires st != CreateIndex(index)
    ensures index in Exec(db, st).indexes <==> index in db.indexes && st != DropIndex(index)
  {
  }

  lemma StepIndexes(s: Swap.State, e: Swap.Event, index: Index)
    requires Swap.Inv(s) && Swap.Enabled(s, e) && index.gen <= s.db.token
    ensures index in Swap.Next(s, e).db.indexes <==> index in s.db.indexes && !SendsDrop(s, e, index)
  {
    if e.Send? {
      SentIndexes(s, index);
    } else {
      OtherIndexes(s, e);
    }
  }

  lemma OtherIndexes(s: Swap.State, e: Swap.Event)
    requires Swap.Enabled(s, e) && !e.Send?
    ensures Swap.Next(s, e).db.indexes == s.db.indexes
  {
  }

  /** An index is only created for the generation after the one in service. */
  lemma SentIndexes(s: Swap.State, index: Index)
    requires Swap.Inv(s) && Swap.Enabled(s, Swap.Send) && index.gen <= s.db.token
    ensures index in Swap.Next(s, Swap.Send).db.indexes <==> index in s.db.indexes && !SendsDrop(s, Swap.Send, index)
  {
    var w := s.swap;
    Swap.SentToken(s.db, w);
    StatementTargets(w.oldGen, w.snapshot, w.payload, w.links, w.sent);
    ExecIndexes(s.db, Swap.Statements(w)[w.sent], index);
  }

  /** An index of a generation in service or past stays until its drop is sent. */
  lemma {:induction false} IndexStays(states: seq<Swap.State>, events: seq<Swap.Event>, from: nat, to: nat, index: Index)
    requires Swap.Run(states, events) && Swap.Inv(states[0]) && from <= to < |states|
    requires index in states[from].db.indexes && index.gen <= states[from].db.token
    ensures index in states[to].db.indexes <==> !Dropped(states, events, from, to, index)
  {
    if from < to {
      var last := to - 1;
      IndexStays(states, events, from, last, index);
      Swap.RunKeepsInv(states, events, last);
      Swap.TokenMovesForward(states, events, from, last);
      assert states[last + 1] == Swap.Next(states[last], events[last]);
      StepIndexes(states[last], events[last], index);
      DroppedPush(states, events, from, last, to, index);
    }
  }

  lemma DroppedPush(states: seq<Swap.State>, events: seq<Swap.Event>, from: nat, last: nat, to: nat, index: Index)
    requires |states| == |events| + 1 && from <= last && to == last + 1 <= |events|
    ensures Dropped(states, events, from, to, index) <==> Dropped(states, events, from, last, index) || SendsDrop(states[last], events[last], index)
  {
  }

  /** The generation was the token at some tick of the run. */
  ghost predicate WasToken(token: Schedule, from: nat, to: nat, gen: nat) {
    exists t: nat :: from <= t <= to && token(t) == gen
  }

  ghost predicate AllWereTokens(token: Schedule, p: Play, from: nat) {
    && WasToken(token, from, p.clock, p.generation)
    && (forall c :: c in p.probed ==> WasToken(token, from, p.clock, p.probed[c]))
    && (forall c :: c in p.compiled ==> WasToken(token, from, p.clock, p.compiled[c].gen))
  }

  lemma StepKeepsTokens(token: Schedule, alive: Liveness, p: Play, e: Event, from: nat)
    requires AllWereTokens(token, p, from) && from <= p.clock
    ensures AllWereTokens(token, PlayOne(token, alive, p, e), from)
  {
    var n := PlayOne(token, alive, p, e);
    forall gen | WasToken(token, from, p.clock, gen) ensures WasToken(token, from, n.clock, gen) {
    }
    assert WasToken(token, from, n.clock, token(n.clock));
  }

  lemma {:induction false} PlayKeepsTokens(token: Schedule, alive: Liveness, from: nat, script: seq<Event>)
    ensures var p := PlayAll(token, alive, Start(token(from), from), script); from <= p.clock && AllWereTokens(token, p, from)
  {
    if script == [] {
      assert WasToken(token, from, from, token(from));
    } else {
      PlayKeepsTokens(token, alive, from, script[..|script| - 1]);
      StepKeepsTokens(token, alive, PlayAll(token, alive, Start(token(from), from), script[..|script| - 1]), script[|script| - 1], from);
    }
  }

  /** The next action executes a query whose index a swap has dropped since the run began. */
  ghost predicate ExecutesDropped(states: seq<Swap.State>, events: seq<Swap.Event>, from: nat, p: Play, e: Event)
    requires |states| == |events| + 1
  {
    && Executes(p, e)
    && IndexDropped(states, events, from, p.clock + e.ticks, p.compiled[e.action.call])
  }

  ghost predicate IndexDropped(states: seq<Swap.State>, events: seq<Swap.Event>, from: nat, to: nat, q: Query)
    requires |states| == |events| + 1
  {
    IndexOf(q).Some? && Dropped(states, events, from, to, IndexOf(q).value)
  }

  ghost predicate AlwaysIntact(states: seq<Swap.State>) {
    forall i :: 0 <= i < |states| ==> Swap.Intact(states[i].db)
  }

  /** For a compiled query of the run: it raises if and only if the drop of its index was sent. */
  lemma AliveUnlessDropped(states: seq<Swap.State>, events: seq<Swap.Event>, from: nat, to: nat, q: Query)
    requires Swap.Run(states, events) && Swap.Inv(states[0]) && AlwaysIntact(states)
    requires from <= to && WasToken(TokensOf(states), from, to, q.gen)
    ensures AliveOf(states)(q, to) <==> !IndexDropped(states, events, from, to, q)
  {
    if IndexOf(q).Some? {
      var token, index := TokensOf(states), IndexOf(q).value;
      var t: nat :| from <= t <= to && token(t) == q.gen;
      assert Swap.Intact(states[At(states, t)].db) && index in states[At(states, t)].db.indexes;
      IndexStays(states, events, At(states, t), At(states, to), index);
      NotDroppedBefore(states, events, At(states, t), index);
      assert Dropped(states, events, from, to, index) <==> Dropped(states, events, At(states, t), At(states, to), index);
    }
  }

  /** A drop comes after the flip away from its generation. */
  lemma NotDroppedBefore(states: seq<Swap.State>, events: seq<Swap.Event>, t: nat, index: Index)
    requires Swap.Run(states, events) && Swap.Inv(states[0]) && t < |states| && states[t].db.token <= index.gen
    ensures forall m :: 0 <= m < t && m < |events| ==> !SendsDrop(states[m], events[m], index)
  {
    forall m | 0 <= m < t && m < |events| ensures !SendsDrop(states[m], events[m], index) {
      if SendsDrop(states[m], events[m], index) {
        Swap.RunKeepsInv(states, events, m);
        Swap.TokenMovesForward(states, events, m, t);
        var w := states[m].swap;
        Swap.SentToken(states[m].db, w);
        StatementTargets(w.oldGen, w.snapshot, w.payload, w.links, w.sent);
      }
    }
  }

  /** Some action of the run does so. */
  ghost predicate Raises(states: seq<Swap.State>, events: seq<Swap.Event>, from: nat, script: seq<Event>)
    requires |states| == |events| + 1
  {
    exists n :: 0 <= n < |script| && RaisesAt(states, events, from, script, n)
  }

  ghost predicate RaisesAt(states: seq<Swap.State>, events: seq<Swap.Event>, from: nat, script: seq<Event>, n: nat)
    requires |states| == |events| + 1 && n < |script|
  {
    ExecutesDropped(states, events, from, PlayAll(TokensOf(states), AliveOf(states), Start(TokensOf(states)(from), from), script[..n]), script[n])
  }

  lemma RaisesPush(states: seq<Swap.State>, events: seq<Swap.Event>, from: nat, script: seq<Event>)
    requires |states| == |events| + 1 && script != []
    ensures Raises(states, events, from, script) <==>
            Raises(states, events, from, script[..|script| - 1]) || RaisesAt(states, events, from, script, |script| - 1)
  {
    var head := script[..|script| - 1];
    forall n: nat | n < |head| ensures RaisesAt(states, events, from, head, n) == RaisesAt(states, events, from, script, n) {
      assert head[..n] == script[..n];
    }
  }

  /** Beside swaps that never flip to nothing, a run that starts under the generation in service ends with
      a query error if and only if it executes a query naming an index whose drop had been sent by then. */
  lemma {:induction false} QueryErrorIff(states: seq<Swap.State>, events: seq<Swap.Event>, from: nat, script: seq<Event>)
    requires Swap.Run(states, events) && Swap.Inv(states[0]) && Swap.Intact(states[0].db)
    requires forall i :: 0 <= i < |events| ==> !Swap.FlipsToNothing(states[i], events[i])
    ensures PlayAll(TokensOf(states), AliveOf(states), Start(TokensOf(states)(from), from), script).failed.Some?
       <==> Raises(states, events, from, script)
  {
    if script != [] {
      QueryErrorIff(states, events, from, script[..|script| - 1]);
      Swap.RunIntactIff(states, events);
      EveryQueryMeets(states, events, from);
      LastMeetsUnlessDropped(states, events, from, script);
      QueryErrorStep(states, events, from, script);
    }
  }

  ghost function Played(states: seq<Swap.State>, from: nat, script: seq<Event>): Play
    requires states != []
  {
    PlayAll(TokensOf(states), AliveOf(states), Start(TokensOf(states)(from), from), script)
  }

  predicate Executes(p: Play, e: Event) {
    e.action.Execute? && e.action.call in p.compiled
  }

  /** The query meets its index at that tick unless the index has been dropped by then. */
  ghost predicate Meets(states: seq<Swap.State>, events: seq<Swap.Event>, from: nat, to: nat, q: Query)
    requires |states| == |events| + 1
  {
    AliveOf(states)(q, to) <==> !IndexDropped(states, events, from, to, q)
  }

  /** So does every query of a generation that was in service since the run began. */
  ghost predicate EveryMeets(states: seq<Swap.State>, events: seq<Swap.Event>, from: nat)
    requires |states| == |events| + 1
  {
    forall to: nat, later: nat, q: Query :: from <= to <= later && WasToken(TokensOf(states), from, to, q.gen) ==> Meets(states, events, from, later, q)
  }

  lemma EveryQueryMeets(states: seq<Swap.State>, events: seq<Swap.Event>, from: nat)
    requires Swap.Run(states, events) && Swap.Inv(states[0]) && AlwaysIntact(states)
    ensures EveryMeets(states, events, from)
  {
    forall to: nat, later: nat, q: Query | from <= to <= later && WasToken(TokensOf(states), from, to, q.gen)
      ensures Meets(states, events, from, later, q)
    {
      AliveUnlessDroppedLater(states, events, from, to, later, q);
    }
  }

  /** If the action executes a compiled query, that query meets its index unless the index was dropped. */
  ghost predicate MeetsUnlessDropped(states: seq<Swap.State>, events: seq<Swap.Event>, from: nat, p: Play, e: Event)
    requires |states| == |events| + 1
  {
    Executes(p, e) ==> Meets(states, events, from, p.clock + e.ticks, p.compiled[e.action.call])
  }

  lemma LastMeetsUnlessDropped(states: seq<Swap.State>, events: seq<Swap.Event>, from: nat, script: seq<Event>)
    requires |states| == |events| + 1 && EveryMeets(states, events, from) && script != []
    ensures MeetsUnlessDropped(states, events, from, Played(states, from, script[..|script| - 1]), script[|script| - 1])
  {
    CompiledUnderToken(TokensOf(states), AliveOf(states), from, script[..|script| - 1], script[|script| - 1]);
  }

  lemma QueryErrorStep(states: seq<Swap.State>, events: seq<Swap.Event>, from: nat, script: seq<Event>)
    requires |states| == |events| + 1 && script != []
    requires MeetsUnlessDropped(states, events, from, Played(states, from, script[..|script| - 1]), script[|script| - 1])
    requires Played(states, from, script[..|script| - 1]).failed.Some? <==> Raises(states, events, from, script[..|script| - 1])
    ensures Played(states, from, script).failed.Some? <==> Raises(states, events, from, script)
  {
    RaisesPush(states, events, from, script);
    LastRaises(states, events, from, Played(states, from, script[..|script| - 1]), script[|script| - 1]);
  }

  lemma LastRaises(states: seq<Swap.State>, events: seq<Swap.Event>, from: nat, p: Play, e: Event)
    requires |states| == |events| + 1 && MeetsUnlessDropped(states, events, from, p, e)
    ensures PlayOne(TokensOf(states), AliveOf(states), p, e).failed.Some? <==> (p.failed.Some? || ExecutesDropped(states, events, from, p, e))
  {
  }

  lemma CompiledUnderToken(token: Schedule, alive: Liveness, from: nat, script: seq<Event>, e: Event)
    ensures var p := PlayAll(token, alive, Start(token(from), from), script);
            from <= p.clock && (Executes(p, e) ==> WasToken(token, from, p.clock, p.compiled[e.action.call].gen))
  {
    PlayKeepsTokens(token, alive, from, script);
  }

  lemma AliveUnlessDroppedLater(states: seq<Swap.State>, events: seq<Swap.Event>, from: nat, to: nat, later: nat, q: Query)
    requires Swap.Run(states, events) && Swap.Inv(states[0]) && AlwaysIntact(states)
    requires from <= to <= later && WasToken(TokensOf(states), from, to, q.gen)
    ensures AliveOf(states)(q, later) <==> !IndexDropped(states, events, from, later, q)
  {
    WasTokenLater(TokensOf(states), from, to, later, q.gen);
    AliveUnlessDropped(states, events, from, later, q);
  }

  lemma WasTokenLater(token: Schedule, from: nat, to: nat, later: nat, gen: nat)
    requires WasToken(token, from, to, gen) && to <= later
    ensures WasToken(token, from, later, gen)
  {
  }

  /** One swap is enough: a query that names an index, compiled before the swap and executed once it has
      finished, raises, and the call fails instead of being run again under the new generation. */
  lemma OneSwapFailsReader(states: seq<Swap.State>, events: seq<Swap.Event>, i: nat, j: nat, key: string)
    requires Swap.Run(states, events) && Swap.Inv(states[0]) && i < j < |events|
    requires events[j].Finish? && states[i].db.token == states[j].swap.oldGen
    ensures var q := Query(key, states[i].db.token);
            var p := PlayAll(TokensOf(states), AliveOf(states), Start(q.gen, i), [Event(0, Compile(0, key)), Event(j - i, Execute(0))]);
            p.failed == if key in {"find_similar", "recall_by_vector", "recall_entity_by_vector", "search_in_tenant"}
                        then Some(QueryFailed(q, j)) else None
  {
    Swap.RunKeepsInv(states, events, j);
    Swap.FinishedSwap(states[j]);
    var q, alive := Query(key, states[i].db.token), AliveOf(states);
    assert Collected(states[j].db, q.gen);
    assert alive(q, j) <==> IndexOf(q).None?;
    var script := [Event(0, Compile(0, key)), Event(j - i, Execute(0))];
    assert script[..1] == [script[0]] && script[..1][..0] == [];
    assert PlayAll(TokensOf(states), alive, Start(q.gen, i), script[..1]) == PlayOne(TokensOf(states), alive, Start(q.gen, i), script[0]);
  }

  /** A call that probes, adopts what it found and compiles, uses the generation in service at the probe, whatever
      the handler had before. */
  lemma AdoptionTakesEffect(token: Schedule, alive: Liveness, p: Play, call: nat, key: string, probe: nat, adopt: nat, compile: nat)
    requires p.failed.None?
    ensures var q := PlayOne(token, alive, PlayOne(token, alive, PlayOne(token, alive, p, Event(probe, Probe(call))), Event(adopt, Adopt(call))), Event(compile, Compile(call, key)));
            && q.generation == token(p.clock + probe) && call in q.compiled && q.compiled[call] == Query(key, token(p.clock + probe))
            && q.clock == p.clock + probe + adopt + compile && q.ran == p.ran && q.failed.None?
  {
  }
}
