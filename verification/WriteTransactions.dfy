/** The write path as it runs: a transaction body that overwrites its own payload, rolled back and
    retried, one planned transaction after the other. */
module WriteTransactions {
  import opened Prelude
  import opened MapFold
  import opened Metadata
  import opened Graph
  import opened BatchedWrite
  import opened SourceGraphWriter
  import opened Deduplication
  import opened TransactionMeaning

  /** A planned transaction with its payload dictionaries: the body writes into `entities`. */
  datatype Buffer = Buffer(entities: array<EntityItem>, mentions: seq<MentionItem>, relations: seq<RelationItem>)

  ghost function Payload(b: Buffer): Plan
    reads b.entities
  {
    Plan(b.entities[..], b.mentions, b.relations)
  }

  /** Where a try breaks off; everything before that point has run. */
  datatype Stage = OnConnect | AfterMetadataRead | AfterOverwrite | AfterEntities | AfterMentions | AfterProvenance | OnCommit

  datatype Failure = Transient(stage: Stage) | Permanent(stage: Stage)

  /** One call of the transaction function: the driver may roll back and repeat it, then it commits or raises. */
  datatype Attempt = Attempt(rolledBack: seq<Stage>, raised: Option<Failure>)

  datatype Outcome = Committed | Raised(failure: Failure)

  // ----- the transaction body -----

  /** `_write_graph_plan_in_tx` on the transaction's view of the graph, possibly broken off at a stage. */
  method WriteGraphPlanInTx(view: Graph, plan: Buffer, broken: Option<Stage>) returns (r: Option<Graph>)
    modifies plan.entities
    ensures plan.entities[..] == old(plan.entities[..]) || plan.entities[..] == Overwritten(view.entities, old(plan.entities[..]))
    ensures broken.None? ==> r == Some(WriteTx(view, old(Payload(plan))))
    ensures broken.None? && UniqueKeys(EntityUpsert(), old(plan.entities[..])) ==>
              forall i :: 0 <= i < plan.entities.Length ==> WroteItem(view, old(plan.entities[..])[i], plan.mentions, r.value)
    ensures broken.Some? ==> r == None
  {
    EntitiesAfterWrite(view, Payload(plan));
    if broken == Some(OnConnect) { return None; }
    var g := view;
    var items := plan.entities;
    if items.Length != 0 {
      var existing := map i | 0 <= i < items.Length && items[i].id in g.entities :: items[i].id := g.entities[items[i].id].metadata;
      if broken == Some(AfterMetadataRead) { return None; }
      OverwriteMetadata(items, existing, view.entities);
      if broken == Some(AfterOverwrite) { return None; }
      g := WriteEntities(g, items[..]);
    }
    assert g == WriteEntities(view, Overwritten(view.entities, old(items[..])));
    if broken == Some(AfterEntities) { return None; }
    if plan.mentions != [] {
      g := WriteMentions(g, plan.mentions);
      if broken == Some(AfterMentions) { return None; }
      g := WriteProvenance(g, plan.mentions);
    }
    if broken == Some(AfterProvenance) { return None; }
    if plan.relations != [] {
      g := WriteRelations(g, plan.relations);
    }
    if broken.Some? { return None; }
    NoMentions(WriteEntities(view, Overwritten(view.entities, old(items[..]))));
    NoRelations(WriteProvenance(WriteMentions(WriteEntities(view, Overwritten(view.entities, old(items[..]))), plan.mentions), plan.mentions));
    return Some(g);
  }

  /** The loop of the body that merges each item's metadata with the stored one, in the payload itself. */
  method OverwriteMetadata(items: array<EntityItem>, existing: map<Id, StoredMetadata>, ghost entities: map<Id, Entity>)
    requires forall i :: 0 <= i < items.Length ==> Get(existing, items[i].id) == if items[i].id in entities then Some(entities[items[i].id].metadata) else None
    modifies items
    ensures items[..] == Overwritten(entities, old(items[..]))
  {
    for i := 0 to items.Length
      invariant forall j :: 0 <= j < i ==> items[j] == OverwrittenItem(entities, old(items[j]))
      invariant forall j :: i <= j < items.Length ==> items[j] == old(items[j])
    {
      var stored := if items[i].id in existing then existing[items[i].id] else NoMetadata;
      assert Get(existing, items[i].id) == if items[i].id in entities then Some(entities[items[i].id].metadata) else None;
      var merged := MergeEntityMetadata(stored, items[i].metadata);
      items[i] := items[i].(metadata := merged);
    }
  }

  lemma NoMentions(g: Graph)
    ensures WriteMentions(g, []) == g && WriteProvenance(g, []) == g
  {
    assert Linked(g, []) == [];
  }

  lemma NoRelations(g: Graph)
    ensures WriteRelations(g, []) == g
  {
    assert Joined(g, []) == [];
  }

  // ----- retries -----

  /** A buffer some rolled-back tries have used: its payload is the original one, or the original
      one with every item's metadata already merged against the stored graph. */
  ghost predicate Used(b: Buffer, stored: Graph, p: Plan)
    reads b.entities
  {
    && b.mentions == p.mentions && b.relations == p.relations
    && (b.entities[..] == p.entities || b.entities[..] == Overwritten(stored.entities, p.entities))
  }

  lemma OverwrittenTwice(entities: map<Id, Entity>, items: seq<EntityItem>)
    ensures Overwritten(entities, Overwritten(entities, items)) == Overwritten(entities, items)
  {
    forall i | 0 <= i < |items|
      ensures OverwrittenItem(entities, OverwrittenItem(entities, items[i])) == OverwrittenItem(entities, items[i])
    {
      MergedTwice(StoredMetadataOf(entities, items[i].id), items[i].metadata);
    }
  }

  /** A try over a used buffer commits what a try over the original payload commits. */
  lemma UsedCommitsTheSame(g: Graph, p: Plan)
    ensures WriteTx(g, p.(entities := Overwritten(g.entities, p.entities))) == WriteTx(g, p)
  {
    OverwrittenTwice(g.entities, p.entities);
  }

  /** `session.execute_write`: the driver's own tries, then commit or raise. */
  method ExecutePlan(store: Store, plan: Buffer, attempt: Attempt, ghost p: Plan) returns (r: Outcome)
    requires Used(plan, store.graph, p)
    modifies store, plan.entities
    ensures r == if attempt.raised.None? then Committed else Raised(attempt.raised.value)
    ensures r.Committed? ==> store.graph == WriteTx(old(store.graph), p)
    ensures r.Raised? ==> store.graph == old(store.graph) && Used(plan, store.graph, p)
  {
    ghost var g := store.graph;
    OverwrittenTwice(g.entities, p.entities);
    UsedCommitsTheSame(g, p);
    for i := 0 to |attempt.rolledBack|
      invariant store.graph == g && Used(plan, g, p)
    {
      var _ := WriteGraphPlanInTx(store.graph, plan, Some(attempt.rolledBack[i]));
    }
    if attempt.raised.Some? {
      var _ := WriteGraphPlanInTx(store.graph, plan, Some(attempt.raised.value.stage));
      return Raised(attempt.raised.value);
    }
    var committed := WriteGraphPlanInTx(store.graph, plan, None);
    store.graph := committed.value;
    return Committed;
  }

  /** How a write with these attempts must end: it commits unless a permanent error comes first or
      the attempts run out. Attempts beyond the list are clean. */
  function RetryOutcome(attempts: nat, env: seq<Attempt>): Outcome
    requires attempts >= 1
  {
    if env == [] || env[0].raised.None? then Committed
    else if env[0].raised.value.Permanent? || attempts == 1 then Raised(env[0].raised.value)
    else RetryOutcome(attempts - 1, env[1..])
  }

  /** The attempt `k` is clean and all before it failed with a transient error. */
  predicate FirstClean(env: seq<Attempt>, k: nat) {
    && (k >= |env| || env[k].raised.None?)
    && k <= |env|
    && forall j :: 0 <= j < k ==> env[j].raised.Some? && env[j].raised.value.Transient?
  }

  /** A write commits if and only if a clean attempt comes, within the allowed number, after transient
      errors only. */
  lemma {:induction false} CommitsIff(attempts: nat, env: seq<Attempt>)
    requires attempts >= 1
    ensures RetryOutcome(attempts, env).Committed? <==> exists k :: 0 <= k < attempts && FirstClean(env, k)
  {
    if env == [] || env[0].raised.None? {
      assert FirstClean(env, 0);
    } else if env[0].raised.value.Permanent? || attempts == 1 {
      assert forall k :: 0 < k && FirstClean(env, k) ==> env[0].raised.value.Transient?;
    } else {
      CommitsIff(attempts - 1, env[1..]);
      if k :| 0 <= k < attempts - 1 && FirstClean(env[1..], k) {
        assert forall j :: 0 < j < k + 1 ==> env[j] == env[1..][j - 1];
        assert FirstClean(env, k + 1);
      }
      if k :| 0 <= k < attempts && FirstClean(env, k) {
        assert FirstClean(env[1..], k - 1);
      }
    }
  }

  /** `with_transient_retry` around one planned transaction. */
  method WithTransientRetry(store: Store, plan: Buffer, attempts: int, env: seq<Attempt>) returns (r: Outcome)
    modifies store, plan.entities
    ensures r == RetryOutcome(if attempts < 1 then 1 else attempts, env)
    ensures r.Committed? ==> store.graph == WriteTx(old(store.graph), old(Payload(plan)))
    ensures r.Raised? ==> store.graph == old(store.graph)
  {
    var allowed := if attempts < 1 then 1 else attempts;
    ghost var p := Payload(plan);
    var attempt := 1;
    assert env[0..] == env;
    while true
      invariant 1 <= attempt <= allowed && attempt - 1 <= |env|
      invariant store.graph == old(store.graph) && Used(plan, store.graph, p)
      invariant RetryOutcome(allowed, env) == RetryOutcome(allowed - (attempt - 1), env[attempt - 1..])
      decreases allowed - attempt
    {
      var next := if attempt - 1 < |env| then env[attempt - 1] else Attempt([], None);
      r := ExecutePlan(store, plan, next, p);
      if r.Committed? || r.failure.Permanent? || attempt >= allowed {
        return;
      }
      assert env[attempt - 1..][1..] == env[attempt..];
      attempt := attempt + 1;
    }
  }

  // ----- the whole write -----

  datatype WriteError = Rejected(error: PlanError) | Database(failure: Failure)

  /** One planned transaction over payload dictionaries of its own. */
  method RunPlan(store: Store, plan: Plan, attempts: int, env: seq<Attempt>) returns (r: Outcome)
    modifies store
    ensures r == RetryOutcome(if attempts < 1 then 1 else attempts, env)
    ensures store.graph == if r.Committed? then WriteTx(old(store.graph), plan) else old(store.graph)
  {
    var items := new EntityItem[|plan.entities|](i requires 0 <= i < |plan.entities| => plan.entities[i]);
    var buffer := Buffer(items, plan.mentions, plan.relations);
    assert buffer.entities[..] == plan.entities;
    r := WithTransientRetry(store, buffer, attempts, env);
  }

  /** The planned transactions in sequence, up to the first exception. */
  method RunPlans(store: Store, plans: seq<Plan>, attempts: int, env: seq<seq<Attempt>>) returns (failed: Option<Failure>)
    modifies store
    ensures failed.None? ==> store.graph == WriteAll(old(store.graph), plans)
    ensures failed.Some? ==> exists k :: 0 <= k < |plans| && store.graph == WriteAll(old(store.graph), plans[..k])
  {
    ghost var g := store.graph;
    for n := 0 to |plans|
      invariant store.graph == WriteAll(g, plans[..n])
    {
      var outcome := RunPlan(store, plans[n], attempts, if n < |env| then env[n] else []);
      if outcome.Raised? {
        return Some(outcome.failure);
      }
      WriteAllPush(g, plans, n);
    }
    assert plans[..|plans|] == plans;
    return None;
  }

  lemma WriteAllPush(g: Graph, plans: seq<Plan>, n: nat)
    requires n < |plans|
    ensures WriteAll(g, plans[..n + 1]) == WriteTx(WriteAll(g, plans[..n]), plans[n])
  {
    assert plans[..n + 1][..n] == plans[..n];
  }

  /** `_write_source_graph` with `write_source_graph`: deduplicate, plan, run the transactions in
      sequence; an exception leaves the transactions committed so far in place. */
  method WriteSourceGraph(store: Store, raw: Plan, maxItems: int, attempts: int, env: seq<seq<Attempt>>)
    returns (r: Result<nat, WriteError>, ghost p: Plan, ghost plans: seq<Plan>)
    modifies store
    ensures raw.entities == [] && raw.relations == [] ==> r == Ok(0) && store.graph == old(store.graph)
    ensures raw.entities != [] || raw.relations != [] ==> Prepared(raw, p)
    ensures (raw.entities != [] || raw.relations != []) && maxItems < 1 ==> r == Err(WriteError.Rejected(MaxItemsBelowOne)) && store.graph == old(store.graph)
    ensures (raw.entities != [] || raw.relations != []) && maxItems >= 1 ==>
      && Planned(p, maxItems, plans)
      && (r.Ok? ==> r.value == |plans| && store.graph == WriteAll(old(store.graph), plans))
      && (r.Err? ==> exists k :: 0 <= k < |plans| && store.graph == WriteAll(old(store.graph), plans[..k]))
    ensures r.Ok? && Closed(raw.entities, raw.mentions) && (raw.entities != [] || raw.relations != []) ==>
      store.graph == WriteTx(old(store.graph), p)
  {
    p, plans := raw, [];
    if raw.entities == [] && raw.relations == [] {
      return Ok(0), p, plans;
    }
    var entities := DedupeEntities(raw.entities);
    var mentions := DedupeMentions(raw.mentions);
    var relations := DedupeRelations(raw.relations);
    var prepared := Plan(entities, mentions, relations);
    p := prepared;
    PreparedKeys(raw, p);
    var planned := PlanWriteTransactions(prepared, maxItems);
    if planned.Err? {
      assert planned.error.MaxItemsBelowOne?;
      return Err(WriteError.Rejected(planned.error)), p, plans;
    }
    plans := planned.value;
    var failed := RunPlans(store, planned.value, attempts, env);
    if failed.Some? {
      return Err(Database(failed.value)), p, plans;
    }
    if Closed(raw.entities, raw.mentions) {
      PreparedClosed(raw, p);
      BatchSizeIndependent(old(store.graph), p, maxItems, plans);
    }
    return Ok(|planned.value|), p, plans;
  }

  /** A write that raises raises what ended it: the first permanent error, or the transient one of the last
      allowed attempt. */
  lemma {:induction false} RaisesWhich(attempts: nat, env: seq<Attempt>)
    requires attempts >= 1 && RetryOutcome(attempts, env).Raised?
    ensures exists k :: 0 <= k < attempts && k < |env| && env[k].raised == Some(RetryOutcome(attempts, env).failure)
              && (env[k].raised.value.Permanent? || k + 1 == attempts)
              && forall j :: 0 <= j < k ==> env[j].raised.Some? && env[j].raised.value.Transient?
  {
    if env[0].raised.value.Permanent? || attempts == 1 {
      assert env[0].raised == Some(RetryOutcome(attempts, env).failure);
    } else {
      RaisesWhich(attempts - 1, env[1..]);
      var k :| 0 <= k < attempts - 1 && k < |env[1..]| && env[1..][k].raised == Some(RetryOutcome(attempts - 1, env[1..]).failure)
        && (env[1..][k].raised.value.Permanent? || k + 1 == attempts - 1)
        && forall j :: 0 <= j < k ==> env[1..][j].raised.Some? && env[1..][j].raised.value.Transient?;
      assert forall j :: 0 < j < k + 1 ==> env[j] == env[1..][j - 1];
      assert env[k + 1] == env[1..][k];
    }
  }
}
