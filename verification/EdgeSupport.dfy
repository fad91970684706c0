/** Every raw edge leaves a commit whose raw fact is stored. */
module EdgeSupport {
  import opened Batches
  import opened Conservation
  import opened Overclaims
  import opened Prefix
  import opened Results
  import opened Staging

  /** Adding edges that leave stored commits. */
  lemma {:induction false} AddEdgesSupported(raw: Raw, edges: seq<NewEdge>)
    requires EdgesHaveFacts(raw) && forall i :: 0 <= i < |edges| ==> edges[i].edge.0 in raw.facts
    ensures EdgesHaveFacts(AddEdges(raw, edges))
  {
    if edges != [] {
      AddEdgesSupported(raw, edges[..|edges| - 1]);
      AddEdgesFacts(raw, edges[..|edges| - 1]);
    }
  }

  /** A commit named by the batch has its fact once the planned facts are added. */
  lemma NamedIsStored(s: State, r: Request, key: Key)
    requires BatchHas(r.batch, |r.batch.facts|, key)
    ensures key in AddFacts(s.raw, PlanFor(s, r).facts).facts
  {
    hide PlanOf, AddFacts, Held;
    var k :| 0 <= k < |r.batch.facts| && key == Key(r.batch.repo, r.batch.facts[k].oid);
    PlanCovers(s.raw, Held(s.members), r.batch, |r.batch.facts|, k);
    AddFactsGrow(s.raw, PlanFor(s, r).facts);
  }

  lemma InsertSupported(s: State, r: Request, now: int)
    requires EdgesHaveFacts(s.raw)
    ensures EdgesHaveFacts(Insert(s, r, PlanFor(s, r), now).raw)
  {
    hide PlanOf, AddFacts, AddEdges, Held, ProduceFacts, UpsertRow, BatchHas;
    var plan := PlanFor(s, r);
    PlannedEdgesLeave(s.raw, Held(s.members), r.batch, |r.batch.facts|);
    AddFactsGrow(s.raw, plan.facts);
    forall i | 0 <= i < |plan.edges| ensures plan.edges[i].edge.0 in AddFacts(s.raw, plan.facts).facts {
      NamedIsStored(s, r, plan.edges[i].edge.0);
    }
    AddEdgesSupported(AddFacts(s.raw, plan.facts), plan.edges);
  }

  lemma BoundSupported(s: State, caller: Option<Key>, at: Setting)
    requires EdgesHaveFacts(s.raw)
    ensures EdgesHaveFacts(Bound(s, caller, at).raw)
  {
    hide Reclaim, DropOldest, ActiveCount, EdgesHaveFacts;
    var active := ActiveCount(s.queue.jobs);
    if active > MAX_ACTIVE {
      var jobs := DropOldest(s.queue.jobs, caller, active - MAX_ACTIVE);
      ReclaimKeepsEdgesSupported(s.(queue := s.queue.(jobs := jobs)), at);
    }
  }

  lemma {:induction false} SettleSupported(s: State, r: Request, at: Setting, attempts: nat)
    requires attempts <= MAX_ATTEMPTS && EdgesHaveFacts(s.raw)
    ensures EdgesHaveFacts(Settle(s, r, at, attempts).raw)
    decreases MAX_ATTEMPTS - attempts
  {
    hide Reclaim, Fits, First, Retire, EdgesHaveFacts;
    if Fits(s, r) {
    } else if attempts == 0 {
      ReclaimKeepsEdgesSupported(s, at);
      SettleSupported(Reclaim(s, at), r, at, 1);
    } else if attempts < MAX_ATTEMPTS && EvictLru(s, r.Caller(), at).Some? {
      var head := LruVictim(s.queue, r.Caller(), at).value;
      ReclaimKeepsEdgesSupported(s.(queue := s.queue.(jobs := Retire(s.queue.jobs, head))), at);
      SettleSupported(EvictLru(s, r.Caller(), at).value, r, at, attempts + 1);
    }
  }

  lemma StageSupported(s: State, r: Request, at: Setting)
    requires EdgesHaveFacts(s.raw)
    ensures EdgesHaveFacts(Stage(s, r, at).state.raw)
  {
    hide EdgesHaveFacts, Settle, Fits, Insert, Bound, PauseRow, PlanFor;
    SettleSupported(s, r, at, 0);
    var t := Settle(s, r, at, 0);
    if Fits(t, r) {
      InsertSupported(t, r, at.now);
      BoundSupported(Insert(t, r, PlanFor(t, r), at.now), Some(r.Caller()), at);
    } else {
      BoundSupported(t.(queue := t.queue.(jobs := PauseRow(t.queue.jobs, PausedRow(r)))), Some(r.Caller()), at);
    }
  }

  lemma {:induction false} AddParentsSupported(raw: Raw, repo: int, child: string, parents: seq<string>)
    requires EdgesHaveFacts(raw) && Key(repo, child) in raw.facts
    ensures EdgesHaveFacts(AddParents(raw, repo, child, parents))
  {
    if parents != [] {
      AddParentsSupported(raw, repo, child, parents[..|parents| - 1]);
      AddParentsFacts(raw, repo, child, parents[..|parents| - 1]);
    }
  }

  lemma {:induction false} AddBatchSupported(raw: Raw, batch: Batch, n: nat)
    requires n <= |batch.facts| && EdgesHaveFacts(raw)
    ensures EdgesHaveFacts(AddBatch(raw, batch, n))
  {
    hide AddParents;
    if n > 0 {
      AddBatchSupported(raw, batch, n - 1);
      var f := batch.facts[n - 1];
      AddParentsSupported(InsertFact(AddBatch(raw, batch, n - 1), Key(batch.repo, f.oid), Fact(f.bytes, f.time)),
                          batch.repo, f.oid, ParentsOf(batch, f.oid));
    }
  }

  lemma StepKeepsEdges(s: State, move: Move)
    requires EdgesHaveFacts(s.raw)
    ensures EdgesHaveFacts(Apply(s, move).raw)
  {
    hide EdgesHaveFacts, Stage, Reclaim, Bound, AddBatch, Trim, SetState, TerminalCount, Reuse, Demands;
    match move.op
    case StageOp(r) =>
      StageSupported(s, r, move.at);
    case StateOp(head, state) =>
      var queue := s.queue.(jobs := SetState(s.queue.jobs, head, state));
      var count := TerminalCount(queue.jobs);
      var trimmed := Trim(queue, if count > MAX_TERMINAL then count - MAX_TERMINAL else 0);
      ReclaimKeepsEdgesSupported(s.(queue := trimmed), move.at);
      BoundSupported(s.(queue := queue), Some(head), move.at);
    case ReconcileOp =>
      BoundSupported(s, None, move.at);
      ReclaimKeepsEdgesSupported(Bound(s, None, move.at), move.at);
    case PublishOp(trail, batch, when, undone) =>
      AddBatchSupported(s.raw, batch, |batch.facts|);
    case UseOp(trail, when) =>
    case EvictOp(trails) =>
  }

  /** Over every run, with repeated commits or without, no raw edge is left behind by its raw fact. */
  lemma {:induction false} EdgesAlwaysHaveFacts(s: State, moves: seq<Move>)
    requires EdgesHaveFacts(s.raw)
    ensures EdgesHaveFacts(Run(s, moves).raw)
  {
    hide Apply, EdgesHaveFacts;
    if moves != [] {
      EdgesAlwaysHaveFacts(s, moves[..|moves| - 1]);
      StepKeepsEdges(Run(s, moves[..|moves| - 1]), moves[|moves| - 1]);
    }
  }
}
