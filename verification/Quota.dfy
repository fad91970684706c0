/** What recording a batch keeps: the staging quota, the bound on active jobs, and nothing stored on refusal. */
module Quota {
  import opened Batches
  import opened Graphs
  import opened Results
  import opened Staging
  import opened Totals

  // ---------------------------------------------------------------- bytes of an insertion

  lemma InsertFactUsed(raw: Raw, held: set<Key>, key: Key, fact: Fact)
    ensures Used(InsertFact(raw, key, fact), held) <= Used(raw, held) + if key in held then 0 else fact.bytes
  {
    var after := InsertFact(raw, key, fact);
    assert OutsideEdges(after, held) == OutsideEdges(raw, held);
    if key !in raw.facts && key !in held {
      assert OutsideFacts(after, held) == OutsideFacts(raw, held)[key := fact.bytes];
      TotalInsert(OutsideFacts(raw, held), key, fact.bytes);
    } else {
      assert OutsideFacts(after, held) == OutsideFacts(raw, held);
    }
  }

  lemma InsertEdgeUsed(raw: Raw, held: set<Key>, edge: Edge, bytes: nat)
    ensures Used(InsertEdge(raw, edge, bytes), held) <= Used(raw, held) + if edge.0 in held then 0 else bytes
  {
    var after := InsertEdge(raw, edge, bytes);
    assert OutsideFacts(after, held) == OutsideFacts(raw, held);
    if edge !in raw.edges && edge.0 !in held {
      assert OutsideEdges(after, held) == OutsideEdges(raw, held)[edge := bytes];
      TotalInsert(OutsideEdges(raw, held), edge, bytes);
    } else {
      assert OutsideEdges(after, held) == OutsideEdges(raw, held);
    }
  }

  function FactCost(facts: seq<NewFact>, held: set<Key>): nat {
    if facts == [] then 0
    else
      var last := facts[|facts| - 1];
      FactCost(facts[..|facts| - 1], held) + if last.key in held then 0 else last.fact.bytes
  }

  function EdgeCost(edges: seq<NewEdge>, held: set<Key>): nat {
    if edges == [] then 0
    else
      var last := edges[|edges| - 1];
      EdgeCost(edges[..|edges| - 1], held) + if last.edge.0 in held then 0 else last.bytes
  }

  lemma {:induction false} AddFactsUsed(raw: Raw, held: set<Key>, facts: seq<NewFact>)
    ensures Used(AddFacts(raw, facts), held) <= Used(raw, held) + FactCost(facts, held)
  {
    hide Used;
    if facts != [] {
      var rest, last := facts[..|facts| - 1], facts[|facts| - 1];
      AddFactsUsed(raw, held, rest);
      InsertFactUsed(AddFacts(raw, rest), held, last.key, last.fact);
    }
  }

  lemma {:induction false} AddEdgesUsed(raw: Raw, held: set<Key>, edges: seq<NewEdge>)
    ensures Used(AddEdges(raw, edges), held) <= Used(raw, held) + EdgeCost(edges, held)
  {
    hide Used;
    if edges != [] {
      var rest, last := edges[..|edges| - 1], edges[|edges| - 1];
      AddEdgesUsed(raw, held, rest);
      InsertEdgeUsed(AddEdges(raw, rest), held, last.edge, last.bytes);
    }
  }

  lemma {:induction false} FactCostSplit(a: seq<NewFact>, b: seq<NewFact>, held: set<Key>)
    ensures FactCost(a + b, held) == FactCost(a, held) + FactCost(b, held)
  {
    if b == [] {
      assert a + b == a;
    } else {
      assert (a + b)[..|a + b| - 1] == a + b[..|b| - 1];
      FactCostSplit(a, b[..|b| - 1], held);
    }
  }

  lemma {:induction false} EdgeCostSplit(a: seq<NewEdge>, b: seq<NewEdge>, held: set<Key>)
    ensures EdgeCost(a + b, held) == EdgeCost(a, held) + EdgeCost(b, held)
  {
    if b == [] {
      assert a + b == a;
    } else {
      assert (a + b)[..|a + b| - 1] == a + b[..|b| - 1];
      EdgeCostSplit(a, b[..|b| - 1], held);
    }
  }

  lemma {:induction false} EdgeTotalSplit(a: seq<NewEdge>, b: seq<NewEdge>)
    ensures EdgeTotal(a + b) == EdgeTotal(a) + EdgeTotal(b)
  {
    if b == [] {
      assert a + b == a;
    } else {
      assert (a + b)[..|a + b| - 1] == a + b[..|b| - 1];
      EdgeTotalSplit(a, b[..|b| - 1]);
    }
  }

  lemma {:induction false} MissingEdgesCost(raw: Raw, held: set<Key>, repo: int, child: string, parents: seq<string>)
    ensures var edges := MissingEdges(raw, repo, child, parents);
            EdgeCost(edges, held) == if Key(repo, child) in held then 0 else EdgeTotal(edges)
  {
    if parents != [] {
      var rest := MissingEdges(raw, repo, child, parents[..|parents| - 1]);
      MissingEdgesCost(raw, held, repo, child, parents[..|parents| - 1]);
      var edge := (Key(repo, child), Key(repo, parents[|parents| - 1]));
      if edge in raw.edges {
        assert rest + [] == rest;
      } else {
        var more := NewEdge(edge, EdgeBytes(child, parents[|parents| - 1]));
        assert (rest + [more])[..|rest|] == rest;
      }
    }
  }

  lemma PlanFactCost(raw: Raw, held: set<Key>, batch: Batch, f: BatchFact)
    ensures var mine := PlanFact(raw, held, batch, f);
            mine.additional == FactCost(mine.facts, held) + EdgeCost(mine.edges, held)
  {
    hide MissingEdges, EdgeCost, EdgeTotal;
    MissingEdgesCost(raw, held, batch.repo, f.oid, ParentsOf(batch, f.oid));
    var facts := PlanFact(raw, held, batch, f).facts;
    if facts != [] {
      assert facts[..0] == [];
    }
  }

  /** The additional bytes of a plan are exactly what its facts and edges cost outside trails. */
  lemma {:induction false} PlanCost(raw: Raw, held: set<Key>, batch: Batch, n: nat)
    requires n <= |batch.facts|
    ensures var plan := PlanOf(raw, held, batch, n);
            plan.additional == FactCost(plan.facts, held) + EdgeCost(plan.edges, held)
  {
    hide PlanFact;
    if n > 0 {
      PlanCost(raw, held, batch, n - 1);
      var before, f := PlanOf(raw, held, batch, n - 1), batch.facts[n - 1];
      var mine := PlanFact(raw, held, batch, f);
      PlanFactCost(raw, held, batch, f);
      FactCostSplit(before.facts, mine.facts, held);
      EdgeCostSplit(before.edges, mine.edges, held);
    }
  }

  lemma ReclaimUsed(raw: Raw, victims: set<Key>, held: set<Key>)
    ensures Used(WithoutFacts(raw, victims), held) <= Used(raw, held)
  {
    var after := WithoutFacts(raw, victims);
    TotalOfPart(OutsideFacts(after, held), OutsideFacts(raw, held));
    TotalOfPart(OutsideEdges(after, held), OutsideEdges(raw, held));
  }

  lemma BoundUsed(s: State, caller: Option<Key>, at: Setting)
    ensures var t := Bound(s, caller, at);
            t.members == s.members && Used(t.raw, Held(t.members)) <= Used(s.raw, Held(s.members))
  {
    hide Used, Victims, WithoutFacts, DropOldest, ActiveCount, Charge, Held;
    var t := Bound(s, caller, at);
    if t != s {
      var jobs := DropOldest(s.queue.jobs, caller, ActiveCount(s.queue.jobs) - MAX_ACTIVE);
      var dropped := s.(queue := s.queue.(jobs := jobs));
      ReclaimUsed(s.raw, Victims(dropped, at), Held(s.members));
    }
  }

  lemma InsertUsed(s: State, r: Request, now: int)
    ensures Used(Insert(s, r, PlanFor(s, r), now).raw, Held(s.members))
         <= Used(s.raw, Held(s.members)) + PlanFor(s, r).additional
  {
    hide Used, Held, PlanOf, AddFacts, AddEdges, FactCost, EdgeCost, ProduceFacts;
    var held, plan := Held(s.members), PlanFor(s, r);
    PlanCost(s.raw, held, r.batch, |r.batch.facts|);
    AddFactsUsed(s.raw, held, plan.facts);
    AddEdgesUsed(AddFacts(s.raw, plan.facts), held, plan.edges);
  }

  // ---------------------------------------------------------------- what the loop keeps

  /** Nothing is added: facts and edges of `t` are facts and edges of `s`. */
  ghost predicate OnlyRemoves(s: Raw, t: Raw) {
    && (forall key :: key in t.facts ==> key in s.facts && t.facts[key] == s.facts[key])
    && (forall edge :: edge in t.edges ==> edge in s.edges && t.edges[edge] == s.edges[edge])
  }

  lemma {:induction false} RetireShape(jobs: seq<Job>, head: Key)
    ensures OnlyRetires(jobs, Retire(jobs, head))
  {
  }

  lemma EvictStep(s: State, caller: Key, at: Setting)
    requires EvictLru(s, caller, at).Some?
    ensures var t := EvictLru(s, caller, at).value;
            && OnlyRetires(s.queue.jobs, t.queue.jobs)
            && OnlyRemoves(s.raw, t.raw)
            && t.members == s.members
            && t.queue.cohorts == s.queue.cohorts
            && (forall i :: 0 <= i < |s.queue.jobs| && s.queue.jobs[i].head == caller ==>
                  t.queue.jobs[i] == s.queue.jobs[i])
  {
    hide Victims, Charge, First;
    var head := LruVictim(s.queue, caller, at).value;
    FirstIsLeast(s.queue.jobs, (job: Job) => Evictable(job, caller, at), s.queue.cohorts);
  }

  /** Each eviction retires the eligible job that comes first in demand order, and never the caller's. */
  lemma EvictionRetiresTheLeast(s: State, caller: Key, at: Setting)
    ensures EvictLru(s, caller, at).None? <==>
      forall i :: 0 <= i < |s.queue.jobs| ==> !Evictable(s.queue.jobs[i], caller, at)
    ensures EvictLru(s, caller, at).Some? ==>
      var head, after := LruVictim(s.queue, caller, at).value, EvictLru(s, caller, at).value.queue.jobs;
      && |after| == |s.queue.jobs|
      && (exists i :: 0 <= i < |after| && s.queue.jobs[i].head == head && Evictable(s.queue.jobs[i], caller, at))
      && (forall i :: 0 <= i < |after| ==>
           && (s.queue.jobs[i].head == head ==>
                 after[i].state == Obsolete && after[i].completed == 0 && after[i].checkpoint.None?)
           && (s.queue.jobs[i].head != head ==> after[i] == s.queue.jobs[i])
           && (Evictable(s.queue.jobs[i], caller, at) ==>
                 !Before(RankOf(s.queue.jobs[i].head, s.queue.cohorts), RankOf(head, s.queue.cohorts))))
  {
    hide Victims, Charge, First, Before;
    var eligible := (job: Job) => Evictable(job, caller, at);
    FirstIsLeast(s.queue.jobs, eligible, s.queue.cohorts);
    if EvictLru(s, caller, at).Some? {
      var head := LruVictim(s.queue, caller, at).value;
      var i :| 0 <= i < |s.queue.jobs| && eligible(s.queue.jobs[i]) && s.queue.jobs[i].head == head;
      assert Evictable(s.queue.jobs[i], caller, at);
      forall j | 0 <= j < |s.queue.jobs| && Evictable(s.queue.jobs[j], caller, at)
        ensures !Before(RankOf(s.queue.jobs[j].head, s.queue.cohorts), RankOf(head, s.queue.cohorts))
      {
        assert eligible(s.queue.jobs[j]);
      }
    }
  }

  lemma ReclaimStep(s: State, at: Setting)
    ensures var t := Reclaim(s, at); OnlyRemoves(s.raw, t.raw) && t.queue == s.queue && t.members == s.members
  {
  }

  lemma BoundStep(s: State, caller: Option<Key>, at: Setting)
    ensures OnlyRemoves(s.raw, Bound(s, caller, at).raw)
  {
  }

  /** The reclaim and evictions only delete facts and edges, never add, and leave the caller's row alone. */
  lemma {:induction false} SettleKeeps(s: State, r: Request, at: Setting, attempts: nat)
    requires attempts <= MAX_ATTEMPTS
    ensures var t := Settle(s, r, at, attempts);
            && OnlyRetires(s.queue.jobs, t.queue.jobs)
            && OnlyRemoves(s.raw, t.raw)
            && t.members == s.members
            && t.queue.cohorts == s.queue.cohorts
            && (forall i :: 0 <= i < |s.queue.jobs| && s.queue.jobs[i].head == r.Caller() ==>
                  t.queue.jobs[i] == s.queue.jobs[i])
    decreases MAX_ATTEMPTS - attempts
  {
    hide Reclaim, EvictLru, Fits;
    if Fits(s, r) {
    } else if attempts == 0 {
      ReclaimStep(s, at);
      SettleKeeps(Reclaim(s, at), r, at, 1);
    } else if attempts < MAX_ATTEMPTS && EvictLru(s, r.Caller(), at).Some? {
      EvictStep(s, r.Caller(), at);
      SettleKeeps(EvictLru(s, r.Caller(), at).value, r, at, attempts + 1);
    }
  }

  lemma {:induction false} RowOfMember(jobs: seq<Job>, head: Key)
    ensures RowOf(jobs, head).Some? <==> exists i :: 0 <= i < |jobs| && jobs[i].head == head
    ensures RowOf(jobs, head).Some? ==> RowOf(jobs, head).value in jobs && RowOf(jobs, head).value.head == head
  {
    if jobs != [] {
      RowOfMember(jobs[..|jobs| - 1], head);
      if RowOf(jobs[..|jobs| - 1], head).Some? {
        var i :| 0 <= i < |jobs| - 1 && jobs[..|jobs| - 1][i].head == head;
        assert jobs[i].head == head;
      }
    }
  }

  lemma {:induction false} RowOfIndex(jobs: seq<Job>, i: nat)
    requires DistinctHeads(jobs) && i < |jobs|
    ensures RowOf(jobs, jobs[i].head) == Some(jobs[i])
  {
    RowOfMember(jobs, jobs[i].head);
    var row := RowOf(jobs, jobs[i].head).value;
    var j :| 0 <= j < |jobs| && jobs[j] == row;
    assert i == j;
  }

  lemma {:induction false} UpsertShape(jobs: seq<Job>, row: Job)
    requires DistinctHeads(jobs)
    ensures var after := UpsertRow(jobs, row);
            && DistinctHeads(after) && RowOf(after, row.head) == Some(row)
            && (forall i :: 0 <= i < |jobs| ==> after[i] == if jobs[i].head == row.head then row else jobs[i])
            && |jobs| <= |after| <= |jobs| + 1 && (|after| > |jobs| ==> after[|jobs|] == row)
  {
    RowOfMember(jobs, row.head);
    var after := UpsertRow(jobs, row);
    if RowOf(jobs, row.head).Some? {
      var i :| 0 <= i < |jobs| && jobs[i].head == row.head;
      assert after[i] == row;
      RowOfIndex(after, i);
    } else {
      RowOfIndex(after, |jobs|);
    }
  }

  lemma {:induction false} PauseShape(jobs: seq<Job>, row: Job)
    requires DistinctHeads(jobs)
    ensures var after := PauseRow(jobs, row);
            && DistinctHeads(after) && RowOf(after, row.head).Some? && RowOf(after, row.head).value.state == row.state
            && (RowOf(jobs, row.head).None? ==> RowOf(after, row.head) == Some(row))
            && (RowOf(jobs, row.head).Some? ==>
                  RowOf(after, row.head) == Some(RowOf(jobs, row.head).value.(state := row.state)))
            && (forall i :: 0 <= i < |jobs| ==>
                  after[i] == if jobs[i].head == row.head then jobs[i].(state := row.state) else jobs[i])
            && |jobs| <= |after| <= |jobs| + 1 && (|after| > |jobs| ==> after[|jobs|] == row)
  {
    RowOfMember(jobs, row.head);
    var after := PauseRow(jobs, row);
    if RowOf(jobs, row.head).Some? {
      var i :| 0 <= i < |jobs| && jobs[i].head == row.head;
      RowOfIndex(jobs, i);
      RowOfIndex(after, i);
    } else {
      RowOfIndex(after, |jobs|);
    }
  }

  lemma BoundKeepsCaller(s: State, caller: Key, at: Setting)
    requires DistinctHeads(s.queue.jobs) && RowOf(s.queue.jobs, caller).Some?
    ensures var t := Bound(s, Some(caller), at);
            && DistinctHeads(t.queue.jobs)
            && ActiveCount(t.queue.jobs) <= MAX_ACTIVE
            && RowOf(t.queue.jobs, caller) == RowOf(s.queue.jobs, caller)
  {
    hide Bound, ActiveCount;
    BoundHolds(s, Some(caller), at);
    RowOfMember(s.queue.jobs, caller);
    var i :| 0 <= i < |s.queue.jobs| && s.queue.jobs[i].head == caller;
    RowOfIndex(s.queue.jobs, i);
    RowOfIndex(Bound(s, Some(caller), at).queue.jobs, i);
  }

  // ---------------------------------------------------------------- main results

  /** A stored batch leaves the bytes outside trails within the quota. */
  lemma StoredFitsQuota(s: State, r: Request, at: Setting)
    ensures var done := Stage(s, r, at);
            && done.state.members == s.members
            && (done.stored ==> Used(done.state.raw, Held(done.state.members)) <= r.quota)
  {
    hide Used, Bound, Insert, Settle, Held, PlanFor;
    SettleKeeps(s, r, at, 0);
    var t := Settle(s, r, at, 0);
    if Fits(t, r) {
      var next := Insert(t, r, PlanFor(t, r), at.now);
      InsertKeepsMembers(t, r, at.now);
      InsertUsed(t, r, at.now);
      BoundUsed(next, Some(r.Caller()), at);
    } else {
      BoundUsed(t.(queue := t.queue.(jobs := PauseRow(t.queue.jobs, PausedRow(r)))), Some(r.Caller()), at);
    }
  }

  lemma InsertKeepsMembers(s: State, r: Request, now: int)
    ensures Insert(s, r, PlanFor(s, r), now).members == s.members
  {
  }

  /** A refused batch adds no fact and no edge. */
  lemma RefusedAddsNothing(s: State, r: Request, at: Setting)
    ensures var done := Stage(s, r, at); !done.stored ==> OnlyRemoves(s.raw, done.state.raw)
  {
    hide Bound, Insert, Settle, Fits;
    SettleKeeps(s, r, at, 0);
    var t := Settle(s, r, at, 0);
    BoundStep(t.(queue := t.queue.(jobs := PauseRow(t.queue.jobs, PausedRow(r)))), Some(r.Caller()), at);
  }

  /**
   * At most 32 jobs are active afterwards, and the caller's own row is kept. When stored it is running, counts the
   * commits of the call and is at its last one. When refused it is paused: an earlier row keeps its count and
   * checkpoint, and a new one counts what came before the batch.
   */
  lemma CallerSurvives(s: State, r: Request, at: Setting)
    requires DistinctHeads(s.queue.jobs)
    ensures var done, earlier := Stage(s, r, at), RowOf(s.queue.jobs, Key(r.batch.repo, r.head));
            var row := RowOf(done.state.queue.jobs, Key(r.batch.repo, r.head));
            && DistinctHeads(done.state.queue.jobs)
            && ActiveCount(done.state.queue.jobs) <= 32
            && row.Some? && row.value.head == Key(r.batch.repo, r.head)
            && (done.stored ==>
                  && row.value.state == Running && row.value.ceiling == r.ceiling && row.value.completed == r.completed
                  && (if r.batch.facts == [] then row.value.checkpoint.None?
                      else row.value.checkpoint == Some(r.batch.facts[|r.batch.facts| - 1].oid)))
            && (!done.stored ==> row.value.state == PausedCapacity)
            && (!done.stored && earlier.Some? ==>
                  && row.value.ceiling == earlier.value.ceiling && row.value.completed == earlier.value.completed
                  && row.value.checkpoint == earlier.value.checkpoint)
            && (!done.stored && earlier.None? ==>
                  && row.value.ceiling == r.ceiling && row.value.checkpoint.None?
                  && row.value.completed + |r.batch.facts| >= r.completed
                  && (row.value.completed == 0 || row.value.completed + |r.batch.facts| == r.completed))
  {
    hide Bound, Settle, Fits, PlanFor, PauseRow, UpsertRow, ActiveCount, RowOf;
    SettleKeeps(s, r, at, 0);
    var t := Settle(s, r, at, 0);
    SameRow(s.queue.jobs, t.queue.jobs, r.Caller());
    RowOfMember(t.queue.jobs, r.Caller());
    if Fits(t, r) {
      UpsertShape(t.queue.jobs, RunningRow(r));
      BoundKeepsCaller(Insert(t, r, PlanFor(t, r), at.now), r.Caller(), at);
    } else {
      PauseShape(t.queue.jobs, PausedRow(r));
      BoundKeepsCaller(t.(queue := t.queue.(jobs := PauseRow(t.queue.jobs, PausedRow(r)))), r.Caller(), at);
    }
  }

  lemma {:induction false} SameRow(before: seq<Job>, after: seq<Job>, head: Key)
    requires OnlyRetires(before, after)
    requires forall i :: 0 <= i < |before| && before[i].head == head ==> after[i] == before[i]
    ensures RowOf(after, head) == RowOf(before, head)
  {
    if before != [] {
      SameRow(before[..|before| - 1], after[..|after| - 1], head);
    }
  }

  function EvictableCount(jobs: seq<Job>, caller: Key, at: Setting): nat {
    if jobs == [] then 0
    else EvictableCount(jobs[..|jobs| - 1], caller, at) + if Evictable(jobs[|jobs| - 1], caller, at) then 1 else 0
  }

  lemma {:induction false} RetireCount(jobs: seq<Job>, caller: Key, at: Setting, head: Key)
    ensures EvictableCount(Retire(jobs, head), caller, at) <= EvictableCount(jobs, caller, at)
    ensures (exists i :: 0 <= i < |jobs| && jobs[i].head == head && Evictable(jobs[i], caller, at)) ==>
      EvictableCount(Retire(jobs, head), caller, at) < EvictableCount(jobs, caller, at)
  {
    if jobs != [] {
      var rest := jobs[..|jobs| - 1];
      RetireCount(rest, caller, at, head);
      assert Retire(jobs, head)[..|jobs| - 1] == Retire(rest, head);
      if i :| 0 <= i < |jobs| && jobs[i].head == head && Evictable(jobs[i], caller, at) {
        if i < |rest| {
          assert rest[i].head == head && Evictable(rest[i], caller, at);
        }
      }
    }
  }

  /**
   * Each eviction takes at least one job out of the eligible ones, so a batch is refused only when it does not fit
   * although no eligible job is left, unless more than 256 jobs were eligible at the start.
   */
  lemma {:induction false} RefusedOnlyWhenNothingIsLeft(s: State, r: Request, at: Setting, attempts: nat)
    requires 0 < attempts <= 257 && EvictableCount(s.queue.jobs, r.Caller(), at) <= 257 - attempts
    ensures var t := Settle(s, r, at, attempts);
            !Fits(t, r) ==> forall i :: 0 <= i < |t.queue.jobs| ==> !Evictable(t.queue.jobs[i], r.Caller(), at)
    decreases MAX_ATTEMPTS - attempts
  {
    hide Fits, Reclaim, First, Retire;
    EvictionRetiresTheLeast(s, r.Caller(), at);
    if !Fits(s, r) {
      if EvictLru(s, r.Caller(), at).Some? {
        RetireCount(s.queue.jobs, r.Caller(), at, LruVictim(s.queue, r.Caller(), at).value);
        ReclaimStep(s.(queue := s.queue.(jobs := Retire(s.queue.jobs, LruVictim(s.queue, r.Caller(), at).value))), at);
        RefusedOnlyWhenNothingIsLeft(EvictLru(s, r.Caller(), at).value, r, at, attempts + 1);
      }
    }
  }

  /** Making room never retires a running job, a job of a repository being indexed, or the caller's job. */
  lemma {:induction false} EvictionSpares(s: State, r: Request, at: Setting, attempts: nat)
    requires attempts <= MAX_ATTEMPTS
    ensures var t := Settle(s, r, at, attempts);
            && |t.queue.jobs| == |s.queue.jobs|
            && forall i :: 0 <= i < |s.queue.jobs| && Spared(s.queue.jobs, i, r.Caller(), at) ==>
                 t.queue.jobs[i] == s.queue.jobs[i]
    decreases MAX_ATTEMPTS - attempts
  {
    hide Reclaim, EvictLru, Fits;
    if Fits(s, r) {
    } else if attempts == 0 {
      ReclaimStep(s, at);
      EvictionSpares(Reclaim(s, at), r, at, 1);
    } else if attempts < MAX_ATTEMPTS && EvictLru(s, r.Caller(), at).Some? {
      EvictStep(s, r.Caller(), at);
      OneEvictionSpares(s, r.Caller(), at);
      EvictionSpares(EvictLru(s, r.Caller(), at).value, r, at, attempts + 1);
    }
  }

  /** No row of this head may be evicted: it is running, being indexed, or the caller's. */
  ghost predicate Spared(jobs: seq<Job>, i: nat, caller: Key, at: Setting)
    requires i < |jobs|
  {
    forall j :: 0 <= j < |jobs| && jobs[j].head == jobs[i].head ==>
      jobs[j].state in {Running, Obsolete, Failed} || jobs[j].head == caller || jobs[j].head.repo in at.indexing
  }

  lemma OneEvictionSpares(s: State, caller: Key, at: Setting)
    requires EvictLru(s, caller, at).Some?
    ensures var t := EvictLru(s, caller, at).value;
            && |t.queue.jobs| == |s.queue.jobs|
            && forall i :: 0 <= i < |s.queue.jobs| && Spared(s.queue.jobs, i, caller, at) ==>
                 t.queue.jobs[i] == s.queue.jobs[i] && Spared(t.queue.jobs, i, caller, at)
  {
    hide Victims, Charge, First, Before;
    EvictionRetiresTheLeast(s, caller, at);
  }

  // ---------------------------------------------------------------- use and the order of eviction

  /** A recorded use puts the cohorts it demands behind every cohort that was never demanded. */
  lemma UsedGoesAfterUnused(s: State, trail: string, when: nat, used: Key, other: Key)
    requires used in s.queue.cohorts && Demands(s.raw, s.ledger.usage, MembersOf(s.members, trail), used)
    requires !Demands(s.raw, s.ledger.usage, MembersOf(s.members, trail), other)
    requires other in s.queue.cohorts ==> s.queue.cohorts[other].lastDemand.None?
    ensures var after := RecordUse(s, trail, when).queue.cohorts;
            Before(RankOf(other, after), RankOf(used, after)) && !Before(RankOf(used, after), RankOf(other, after))
  {
  }

  /**
   * A recorded use raises the last demand of exactly the cohorts from whose head a speculative commit of the trail can
   * be reached, to the time of use if that is later; creation times and all other cohorts stay.
   */
  lemma UseRaisesDemand(s: State, trail: string, when: nat, head: Key)
    requires head in s.queue.cohorts
    ensures var before, after := s.queue.cohorts[head], RecordUse(s, trail, when).queue.cohorts;
            var demanded := exists key ::
              && key in Reachable(s.raw.edges.Keys, {head})
              && trail in s.members && key in s.members[trail]
              && key in s.ledger.usage;
            && after.Keys == s.queue.cohorts.Keys
            && after[head].created == before.created
            && (!demanded ==> after[head].lastDemand == before.lastDemand)
            && (demanded ==>
                  && after[head].lastDemand.Some?
                  && after[head].lastDemand.value >= when
                  && (before.lastDemand.Some? ==> after[head].lastDemand.value >= before.lastDemand.value)
                  && (after[head].lastDemand.value == when || after[head].lastDemand == before.lastDemand))
  {
    hide Reachable;
    MarkedKeys(s.ledger.usage, MembersOf(s.members, trail), when);
  }

  lemma MarkedKeys(usage: map<Key, Usage>, trail: set<Key>, when: nat)
    ensures MarkUsed(usage, trail, when).Keys == usage.Keys
  {
  }

  /**
   * After a recorded use, no eviction retires a cohort that the use demanded while an eligible one is left that was
   * never demanded.
   */
  lemma UseProtectsFromEviction(s: State, trail: string, when: nat, used: Key, caller: Key, at: Setting, k: nat)
    requires used in s.queue.cohorts && Demands(s.raw, s.ledger.usage, MembersOf(s.members, trail), used)
    requires k < |s.queue.jobs| && Evictable(s.queue.jobs[k], caller, at)
    requires var other := s.queue.jobs[k].head;
             && !Demands(s.raw, s.ledger.usage, MembersOf(s.members, trail), other)
             && (other in s.queue.cohorts ==> s.queue.cohorts[other].lastDemand.None?)
    ensures var victim := LruVictim(RecordUse(s, trail, when).queue, caller, at); victim.Some? && victim.value != used
  {
    hide First, Before, Demands, Reuse;
    var after := RecordUse(s, trail, when).queue;
    var eligible := (job: Job) => Evictable(job, caller, at);
    UsedGoesAfterUnused(s, trail, when, used, s.queue.jobs[k].head);
    FirstIsLeast(after.jobs, eligible, after.cohorts);
    assert eligible(after.jobs[k]);
  }

  // ---------------------------------------------------------------- terminal rows

  lemma {:induction false} DeleteCount(jobs: seq<Job>, head: Key)
    requires DistinctHeads(jobs) && RowOf(jobs, head).Some? && Terminal(RowOf(jobs, head).value.state)
    ensures TerminalCount(DeleteRow(jobs, head)) == TerminalCount(jobs) - 1
  {
    var rest, last := jobs[..|jobs| - 1], jobs[|jobs| - 1];
    if last.head == head {
      DeleteAbsent(rest, head);
      assert DeleteRow(jobs, head) == rest;
    } else {
      DeleteCount(rest, head);
      assert DeleteRow(jobs, head)[..|DeleteRow(jobs, head)| - 1] == DeleteRow(rest, head);
    }
  }

  lemma {:induction false} DeleteAbsent(jobs: seq<Job>, head: Key)
    requires forall i :: 0 <= i < |jobs| ==> jobs[i].head != head
    ensures DeleteRow(jobs, head) == jobs
  {
    if jobs != [] {
      DeleteAbsent(jobs[..|jobs| - 1], head);
    }
  }

  lemma {:induction false} DeleteKeepsDistinct(jobs: seq<Job>, gone: Key)
    requires DistinctHeads(jobs)
    ensures DistinctHeads(DeleteRow(jobs, gone))
    ensures forall job :: job in DeleteRow(jobs, gone) <==> job in jobs && job.head != gone
  {
    if jobs != [] {
      var rest, last := jobs[..|jobs| - 1], jobs[|jobs| - 1];
      DeleteKeepsDistinct(rest, gone);
      assert jobs == rest + [last];
      assert forall job :: job in rest ==> job.head != last.head;
    }
  }

  /** The rows of jobs that are ready, gave up for lack of demand, or are obsolete. */
  ghost function OverRows(jobs: seq<Job>): set<Job> {
    set job | job in jobs && job.state in {Ready, PausedDemand, Obsolete}
  }

  lemma OverRowsLast(jobs: seq<Job>)
    requires jobs != []
    ensures var rest, last := OverRows(jobs[..|jobs| - 1]), jobs[|jobs| - 1];
            OverRows(jobs) == if Terminal(last.state) then rest + {last} else rest
  {
    assert jobs == jobs[..|jobs| - 1] + [jobs[|jobs| - 1]];
  }

  lemma {:induction false} OverRowsCount(jobs: seq<Job>)
    ensures |OverRows(jobs)| <= TerminalCount(jobs)
  {
    if jobs == [] {
      assert OverRows(jobs) == {};
    } else {
      hide OverRows;
      OverRowsLast(jobs);
      OverRowsCount(jobs[..|jobs| - 1]);
    }
  }

  lemma {:induction false} SomeTerminal(jobs: seq<Job>)
    requires TerminalCount(jobs) > 0
    ensures exists i :: 0 <= i < |jobs| && Terminal(jobs[i].state)
  {
    if !Terminal(jobs[|jobs| - 1].state) {
      SomeTerminal(jobs[..|jobs| - 1]);
      var i :| 0 <= i < |jobs| - 1 && Terminal(jobs[..|jobs| - 1][i].state);
      assert Terminal(jobs[i].state);
    }
  }

  lemma FirstTerminalIsTerminal(queue: Queue)
    requires DistinctHeads(queue.jobs) && TerminalCount(queue.jobs) > 0
    ensures var first := FirstTerminal(queue);
            first.Some? && RowOf(queue.jobs, first.value).Some? && Terminal(RowOf(queue.jobs, first.value).value.state)
  {
    hide First, RowOf, TerminalCount;
    var terminal := (job: Job) => Terminal(job.state);
    SomeTerminal(queue.jobs);
    FirstIsLeast(queue.jobs, terminal, queue.cohorts);
    var i :| 0 <= i < |queue.jobs| && Terminal(queue.jobs[i].state);
    assert terminal(queue.jobs[i]);
    var first := FirstTerminal(queue).value;
    var k :| 0 <= k < |queue.jobs| && terminal(queue.jobs[k]) && queue.jobs[k].head == first;
    RowOfIndex(queue.jobs, k);
  }

  /** Trimming deletes exactly `n` terminal rows while there are that many, and no other row. */
  lemma {:induction false} TrimDeletesTerminalRows(queue: Queue, n: nat)
    requires DistinctHeads(queue.jobs) && n <= TerminalCount(queue.jobs)
    ensures var after := Trim(queue, n);
            && DistinctHeads(after.jobs)
            && TerminalCount(after.jobs) == TerminalCount(queue.jobs) - n
            && (forall job :: job in after.jobs ==> job in queue.jobs)
            && (forall job :: job in queue.jobs && !Terminal(job.state) ==> job in after.jobs)
    decreases n
  {
    hide FirstTerminal, RowOf, DeleteRow, TerminalCount, DistinctHeads;
    if n > 0 {
      FirstTerminalIsTerminal(queue);
      var gone := FirstTerminal(queue).value;
      RowIsUnique(queue.jobs, gone);
      DeleteKeepsDistinct(queue.jobs, gone);
      DeleteCount(queue.jobs, gone);
      TrimDeletesTerminalRows(Delete(queue, gone), n - 1);
    }
  }

  lemma {:induction false} RowIsUnique(jobs: seq<Job>, head: Key)
    requires DistinctHeads(jobs) && RowOf(jobs, head).Some?
    ensures forall job :: job in jobs && job.head == head ==> job == RowOf(jobs, head).value
  {
    forall job | job in jobs && job.head == head ensures job == RowOf(jobs, head).value {
      var i :| 0 <= i < |jobs| && jobs[i] == job;
      RowOfIndex(jobs, i);
    }
  }

  /** After a job reaches a terminal state at most 256 terminal rows remain. */
  lemma TerminalRowsAreBounded(s: State, head: Key, state: JobState, at: Setting)
    requires DistinctHeads(s.queue.jobs) && Terminal(state)
    ensures var jobs := ChangeState(s, head, state, at).queue.jobs;
            && DistinctHeads(jobs)
            && |OverRows(jobs)| <= 256
  {
    hide Victims, WithoutFacts, Charge, Trim, TerminalCount;
    var queue := s.queue.(jobs := SetState(s.queue.jobs, head, state));
    var count := TerminalCount(queue.jobs);
    TrimDeletesTerminalRows(queue, if count > MAX_TERMINAL then count - MAX_TERMINAL else 0);
    OverRowsCount(ChangeState(s, head, state, at).queue.jobs);
  }
}
