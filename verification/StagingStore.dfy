/** The store that changes the staging tables in place, proved against the functions on table values. */
module StagingStores {
  import opened Batches
  import opened Conservation
  import opened Graphs
  import opened Results
  import opened Staging
  import opened Totals

  lemma DemandsMeans(raw: Raw, usage: map<Key, Usage>, trail: set<Key>, head: Key)
    ensures Demands(raw, usage, trail, head) <==>
            exists key :: key in Reachable(raw.edges.Keys, {head}) && key in trail && key in usage
  {
  }

  class StagingStore {
    var raw: Raw
    var ledger: Ledger
    var queue: Queue
    var members: map<string, set<Key>>

    function Tables(): State
      reads this
    {
      State(raw, ledger, queue, members)
    }

    constructor ()
      ensures Tables() == State(Raw(map[], map[]), Ledger(map[], Metrics(0, 0, 0, 0, 0, 0)), Queue([], map[]), map[])
    {
      raw, ledger := Raw(map[], map[]), Ledger(map[], Metrics(0, 0, 0, 0, 0, 0));
      queue, members := Queue([], map[]), map[];
    }

    method Collect(at: Setting)
      modifies this
      ensures Tables() == Reclaim(old(Tables()), at)
    {
      var pinned := Walk(raw.edges.Keys, PinnedHeads(queue.jobs));
      var held := Held(members);
      var victims := set key | key in raw.facts && key !in pinned && key !in held
                               && !Recent(raw.facts[key], at) && key.repo !in at.indexing;
      assert victims == Victims(Tables(), at);
      var lost := Sum(Unused(Within(ledger.usage, victims)));
      var m := ledger.metrics;
      ledger := Ledger(ledger.usage - victims,
                       m.(unusedEvictedBytes := m.unusedEvictedBytes + lost,
                          generation := m.generation + if victims == {} then 0 else 1));
      raw := WithoutFacts(raw, victims);
    }

    method Evict(caller: Key, at: Setting) returns (evicted: bool)
      modifies this
      ensures evicted == EvictLru(old(Tables()), caller, at).Some?
      ensures Tables() == if evicted then EvictLru(old(Tables()), caller, at).value else old(Tables())
    {
      hide Reclaim, First, Retire;
      match LruVictim(queue, caller, at)
      case None =>
        evicted := false;
      case Some(head) =>
        queue := queue.(jobs := Retire(queue.jobs, head));
        Collect(at);
        evicted := true;
    }

    method BoundPins(caller: Option<Key>, at: Setting)
      modifies this
      ensures Tables() == Bound(old(Tables()), caller, at)
    {
      hide Reclaim, DropOldest, ActiveCount;
      var active := ActiveCount(queue.jobs);
      if active > MAX_ACTIVE {
        queue := queue.(jobs := DropOldest(queue.jobs, caller, active - MAX_ACTIVE));
        Collect(at);
      }
    }

    method ReconcileStaging(at: Setting)
      modifies this
      ensures Tables() == Reconcile(old(Tables()), at) == Apply(old(Tables()), Move(ReconcileOp, at))
    {
      BoundPins(None, at);
      Collect(at);
    }

    method UsedBytes() returns (used: nat)
      ensures used == Used(raw, Held(members))
    {
      var held := Held(members);
      var facts := Sum(map key | key in raw.facts && key !in held :: raw.facts[key].bytes);
      var edges := Sum(map edge | edge in raw.edges && edge.0 !in held :: raw.edges[edge]);
      used := facts + edges;
    }

    method NewEdges(repo: int, child: string, parents: seq<string>, retained: bool)
      returns (edges: seq<NewEdge>, bytes: nat)
      ensures edges == MissingEdges(raw, repo, child, parents)
      ensures bytes == if retained then 0 else EdgeTotal(edges)
    {
      edges, bytes := [], 0;
      for i := 0 to |parents|
        invariant edges == MissingEdges(raw, repo, child, parents[..i])
        invariant bytes == if retained then 0 else EdgeTotal(edges)
      {
        assert parents[..i + 1][..i] == parents[..i];
        var edge := (Key(repo, child), Key(repo, parents[i]));
        if edge !in raw.edges {
          var size := EdgeBytes(child, parents[i]);
          if !retained {
            bytes := bytes + size;
          }
          ghost var before := edges;
          edges := edges + [NewEdge(edge, size)];
          assert edges[..|edges| - 1] == before;
        }
      }
      assert parents[..|parents|] == parents;
    }

    method PlanBatch(batch: Batch) returns (plan: Plan)
      ensures plan == PlanOf(raw, Held(members), batch, |batch.facts|)
    {
      hide MissingEdges, EdgeTotal, Held;
      var held := Held(members);
      var additional: nat, facts, edges := 0, [], [];
      for i := 0 to |batch.facts|
        invariant Plan(additional, facts, edges) == PlanOf(raw, held, batch, i)
      {
        var f := batch.facts[i];
        var key := Key(batch.repo, f.oid);
        var retained := key in held;
        if key !in raw.facts {
          if !retained {
            additional := additional + f.bytes;
          }
          facts := facts + [NewFact(key, Fact(f.bytes, f.time), retained)];
        }
        var missing, bytes := NewEdges(batch.repo, f.oid, ParentsOf(batch, f.oid), retained);
        edges, additional := edges + missing, additional + bytes;
      }
      plan := Plan(additional, facts, edges);
    }

    method ChargeFor(edges: seq<NewEdge>, key: Key) returns (bytes: nat)
      ensures bytes == EdgesFrom(edges, key)
    {
      bytes := 0;
      for i := 0 to |edges|
        invariant bytes == EdgesFrom(edges[..i], key)
      {
        assert edges[..i + 1][..i] == edges[..i];
        if edges[i].edge.0 == key {
          bytes := bytes + edges[i].bytes;
        }
      }
      assert edges[..|edges|] == edges;
    }

    method InsertPlan(plan: Plan)
      modifies this`raw, this`ledger
      ensures raw == AddPlan(old(raw), plan)
      ensures ledger == ProduceFacts(old(ledger), plan.facts, plan.edges)
    {
      hide EdgesFrom;
      for i := 0 to |plan.facts|
        invariant raw == AddFacts(old(raw), plan.facts[..i])
        invariant ledger == ProduceFacts(old(ledger), plan.facts[..i], plan.edges)
      {
        assert plan.facts[..i + 1][..i] == plan.facts[..i];
        var f := plan.facts[i];
        raw := InsertFact(raw, f.key, f.fact);
        if !f.retained {
          var bytes := ChargeFor(plan.edges, f.key);
          ledger := Produce(ledger, f.key, f.fact.bytes + bytes);
        }
      }
      assert plan.facts[..|plan.facts|] == plan.facts;
      ghost var base := raw;
      for i := 0 to |plan.edges|
        invariant raw == AddEdges(base, plan.edges[..i])
        invariant ledger == ProduceFacts(old(ledger), plan.facts, plan.edges)
      {
        assert plan.edges[..i + 1][..i] == plan.edges[..i];
        raw := InsertEdge(raw, plan.edges[i].edge, plan.edges[i].bytes);
      }
      assert plan.edges[..|plan.edges|] == plan.edges;
    }

    /** `record_prefetch_batch`: whether the batch was stored. */
    method RecordBatch(r: Request, at: Setting) returns (stored: bool)
      modifies this
      ensures Outcome(Tables(), stored) == Stage(old(Tables()), r, at)
      ensures Tables() == Apply(old(Tables()), Move(StageOp(r), at))
    {
      hide Reclaim, EvictLru, Bound, Used, PlanOf, AddPlan, ProduceFacts, UpsertRow, PauseRow, Held;
      var caller := r.Caller();
      var attempts: nat := 0;
      while true
        invariant attempts <= MAX_ATTEMPTS
        invariant Settle(old(Tables()), r, at, 0) == Settle(Tables(), r, at, attempts)
        decreases MAX_ATTEMPTS - attempts
      {
        var used := UsedBytes();
        var plan := PlanBatch(r.batch);
        if used + plan.additional > r.quota {
          if attempts == 0 {
            Collect(at);
            attempts := attempts + 1;
            continue;
          }
          if attempts < MAX_ATTEMPTS {
            var evicted := Evict(caller, at);
            if evicted {
              attempts := attempts + 1;
              continue;
            }
          }
          queue := queue.(jobs := PauseRow(queue.jobs, PausedRow(r)));
          BoundPins(Some(caller), at);
          return false;
        }
        InsertPlan(plan);
        var cohorts := queue.cohorts;
        if caller !in cohorts {
          cohorts := cohorts[caller := Cohort(at.now, None)];
        }
        queue := Queue(UpsertRow(queue.jobs, RunningRow(r)), cohorts);
        BoundPins(Some(caller), at);
        return true;
      }
    }

    /** Deletes the `n` terminal rows that come first, one at a time. */
    method DeleteTerminal(n: nat)
      modifies this`queue
      ensures queue == Trim(old(queue), n)
    {
      hide FirstTerminal, Delete;
      var left: nat := n;
      while left > 0
        invariant left <= n
        invariant Trim(old(queue), n) == Trim(queue, left)
      {
        match FirstTerminal(queue)
        case None =>
          return;
        case Some(head) =>
          queue := Delete(queue, head);
          left := left - 1;
      }
    }

    method SetPrefetchState(head: Key, state: JobState, at: Setting)
      modifies this
      ensures Tables() == ChangeState(old(Tables()), head, state, at)
        == Apply(old(Tables()), Move(StateOp(head, state), at))
    {
      hide Reclaim, Bound, Trim, SetState, TerminalCount;
      queue := queue.(jobs := SetState(queue.jobs, head, state));
      if Terminal(state) {
        var count := TerminalCount(queue.jobs);
        DeleteTerminal(if count > MAX_TERMINAL then count - MAX_TERMINAL else 0);
        Collect(at);
      } else if Active(state) {
        BoundPins(Some(head), at);
      }
    }

    method DemandedCohorts(keys: set<Key>, when: nat) returns (cohorts: map<Key, Cohort>)
      ensures cohorts == Demand(queue, raw, ledger.usage, keys, when).cohorts
    {
      hide Demands, Latest, Reachable;
      ghost var demanded := Demand(queue, raw, ledger.usage, keys, when).cohorts;
      var left := queue.cohorts.Keys;
      cohorts := queue.cohorts;
      while left != {}
        invariant left <= queue.cohorts.Keys == cohorts.Keys
        invariant forall head :: head in left ==> cohorts[head] == queue.cohorts[head]
        invariant forall head :: head in cohorts && head !in left ==> cohorts[head] == demanded[head]
        decreases left
      {
        var head :| head in left;
        var reached := Walk(raw.edges.Keys, {head});
        var hit := exists key :: key in reached && key in keys && key in ledger.usage;
        DemandsMeans(raw, ledger.usage, keys, head);
        if hit {
          cohorts := cohorts[head := cohorts[head].(lastDemand := Some(Latest(cohorts[head].lastDemand, when)))];
        }
        left := left - {head};
      }
    }

    method RecordTrailUse(trail: string, when: nat)
      modifies this`ledger, this`queue
      ensures Tables() == RecordUse(old(Tables()), trail, when)
      ensures forall at :: Tables() == Apply(old(Tables()), Move(UseOp(trail, when), at))
    {
      hide Demands, Latest;
      var keys := MembersOf(members, trail);
      var reused := Unused(Within(ledger.usage, keys));
      var bytes := Sum(reused);
      var m := ledger.metrics;
      ledger := Ledger(MarkUsed(ledger.usage, keys, when),
                       m.(reusedFacts := m.reusedFacts + |reused|, reusedBytes := m.reusedBytes + bytes));
      var cohorts := DemandedCohorts(keys, when);
      queue := queue.(cohorts := cohorts);
    }

    method InsertRaw(batch: Batch)
      modifies this`raw
      ensures raw == AddBatch(old(raw), batch, |batch.facts|)
    {
      for i := 0 to |batch.facts|
        invariant raw == AddBatch(old(raw), batch, i)
      {
        var f := batch.facts[i];
        raw := InsertFact(raw, Key(batch.repo, f.oid), Fact(f.bytes, f.time));
        var parents := ParentsOf(batch, f.oid);
        ghost var base := raw;
        for j := 0 to |parents|
          invariant raw == AddParents(base, batch.repo, f.oid, parents[..j])
        {
          assert parents[..j + 1][..j] == parents[..j];
          raw := InsertEdge(raw, (Key(batch.repo, f.oid), Key(batch.repo, parents[j])), EdgeBytes(f.oid, parents[j]));
        }
        assert parents[..|parents|] == parents;
      }
    }

    /** The raw facts, membership and usage that one published trail writes. */
    method PublishRaw(trail: string, batch: Batch, when: nat, undone: bool)
      modifies this
      ensures Tables() == Publish(old(Tables()), trail, batch, when, undone)
      ensures forall at :: Tables() == Apply(old(Tables()), Move(PublishOp(trail, batch, when, undone), at))
    {
      hide AddBatch, RecordUse;
      if !undone && trail !in members && DistinctOids(batch.facts) {
        InsertRaw(batch);
        members := members[trail := BatchKeys(batch)];
        RecordTrailUse(trail, when);
      }
    }

    method DeleteTrails(trails: set<string>)
      modifies this`members
      ensures Tables() == EvictTrails(old(Tables()), trails)
      ensures forall at :: Tables() == Apply(old(Tables()), Move(EvictOp(trails), at))
    {
      members := members - trails;
    }
  }
}
