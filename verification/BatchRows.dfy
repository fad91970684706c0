/** Which rows a stored or published batch leaves, said on its commits and parents. */
module BatchRows {
  import opened Batches
  import opened Conservation
  import opened Staging

  function EdgeSize(edge: Edge): nat {
    |edge.0.oid| + |edge.1.oid| + 32
  }

  // ---------------------------------------------------------------- publication

  lemma {:induction false} AddParentsExactly(raw: Raw, repo: int, child: string, parents: seq<string>)
    ensures var after := AddParents(raw, repo, child, parents);
            && after.facts == raw.facts
            && forall edge: Edge ::
                 && (edge in after.edges <==>
                     || edge in raw.edges
                     || (edge.0 == Key(repo, child) && edge.1.repo == repo && edge.1.oid in parents))
                 && (edge in after.edges ==>
                       after.edges[edge] == if edge in raw.edges then raw.edges[edge] else EdgeSize(edge))
  {
    if parents != [] {
      var rest, last := parents[..|parents| - 1], parents[|parents| - 1];
      AddParentsExactly(raw, repo, child, rest);
      assert parents == rest + [last];
    }
  }

  /** The edge joins a commit of the batch with one of its parents. */
  ghost predicate Joins(batch: Batch, n: nat, edge: Edge)
    requires n <= |batch.facts|
  {
    && BatchHas(batch, n, edge.0)
    && edge.1.repo == batch.repo && edge.0.oid in batch.parents && edge.1.oid in batch.parents[edge.0.oid]
  }

  /**
   * A batch adds its commits and the edges to their parents, and nothing else. A row that was there stays as it was; a
   * new fact is that of the first commit of this name, and a new edge has the bytes of both names and 32 more.
   */
  lemma {:induction false} AddBatchExactly(raw: Raw, batch: Batch, n: nat)
    requires n <= |batch.facts|
    ensures var after := AddBatch(raw, batch, n);
            && (forall key :: key in after.facts <==> key in raw.facts || BatchHas(batch, n, key))
            && (forall key :: key in raw.facts ==> after.facts[key] == raw.facts[key])
            && (forall k :: 0 <= k < n ==>
                  var key := Key(batch.repo, batch.facts[k].oid);
                  key !in raw.facts && !BatchHas(batch, k, key) ==>
                    key in after.facts && after.facts[key] == Fact(batch.facts[k].bytes, batch.facts[k].time))
            && (forall edge :: edge in after.edges <==> edge in raw.edges || Joins(batch, n, edge))
            && (forall edge :: edge in after.edges ==>
                  after.edges[edge] == if edge in raw.edges then raw.edges[edge] else EdgeSize(edge))
  {
    AddBatchFacts(raw, batch, n);
    AddBatchEdges(raw, batch, n);
  }

  lemma HasNothing(batch: Batch)
    ensures forall key :: !BatchHas(batch, 0, key)
  {
  }

  lemma HasOneMore(batch: Batch, n: nat)
    requires n < |batch.facts|
    ensures forall key ::
      BatchHas(batch, n + 1, key) <==> BatchHas(batch, n, key) || key == Key(batch.repo, batch.facts[n].oid)
  {
    forall key
      ensures BatchHas(batch, n + 1, key) <==> BatchHas(batch, n, key) || key == Key(batch.repo, batch.facts[n].oid)
    {
      if BatchHas(batch, n + 1, key) {
        var i :| 0 <= i < n + 1 && key == Key(batch.repo, batch.facts[i].oid);
        assert i < n ==> BatchHas(batch, n, key);
      }
      if BatchHas(batch, n, key) {
        var i :| 0 <= i < n && key == Key(batch.repo, batch.facts[i].oid);
        assert i < n + 1 && key == Key(batch.repo, batch.facts[i].oid);
      }
      assert n < n + 1 && Key(batch.repo, batch.facts[n].oid) == Key(batch.repo, batch.facts[n].oid);
    }
  }

  lemma JoinsOneMore(batch: Batch, n: nat)
    requires n < |batch.facts|
    ensures forall edge :: Joins(batch, n + 1, edge) <==>
      || Joins(batch, n, edge)
      || (&& edge.0 == Key(batch.repo, batch.facts[n].oid) && edge.1.repo == batch.repo
          && edge.1.oid in ParentsOf(batch, batch.facts[n].oid))
  {
    hide BatchHas;
    HasOneMore(batch, n);
  }

  lemma {:induction false} AddBatchFacts(raw: Raw, batch: Batch, n: nat)
    requires n <= |batch.facts|
    ensures var after := AddBatch(raw, batch, n);
            && (forall key :: key in after.facts <==> key in raw.facts || BatchHas(batch, n, key))
            && (forall key :: key in raw.facts ==> after.facts[key] == raw.facts[key])
            && (forall k :: 0 <= k < n ==>
                  var key := Key(batch.repo, batch.facts[k].oid);
                  key !in raw.facts && !BatchHas(batch, k, key) ==>
                    key in after.facts && after.facts[key] == Fact(batch.facts[k].bytes, batch.facts[k].time))
  {
    hide AddParents, ParentsOf, BatchHas;
    if n > 0 {
      AddBatchFacts(raw, batch, n - 1);
      HasOneMore(batch, n - 1);
      var f := batch.facts[n - 1];
      var with := InsertFact(AddBatch(raw, batch, n - 1), Key(batch.repo, f.oid), Fact(f.bytes, f.time));
      AddParentsFacts(with, batch.repo, f.oid, ParentsOf(batch, f.oid));
    } else {
      HasNothing(batch);
    }
  }

  lemma {:induction false} AddBatchEdges(raw: Raw, batch: Batch, n: nat)
    requires n <= |batch.facts|
    ensures var after := AddBatch(raw, batch, n);
            && (forall edge :: edge in after.edges <==> edge in raw.edges || Joins(batch, n, edge))
            && (forall edge :: edge in after.edges ==>
                  after.edges[edge] == if edge in raw.edges then raw.edges[edge] else EdgeSize(edge))
  {
    if n > 0 {
      hide AddParents, ParentsOf, Joins, EdgeSize;
      AddBatchEdges(raw, batch, n - 1);
      JoinsOneMore(batch, n - 1);
      var f := batch.facts[n - 1];
      var with := InsertFact(AddBatch(raw, batch, n - 1), Key(batch.repo, f.oid), Fact(f.bytes, f.time));
      AddParentsExactly(with, batch.repo, f.oid, ParentsOf(batch, f.oid));
    }
  }

  // ---------------------------------------------------------------- staging

  lemma {:induction false} AddEdgesInTurn(raw: Raw, a: seq<NewEdge>, b: seq<NewEdge>)
    ensures AddEdges(raw, a + b) == AddEdges(AddEdges(raw, a), b)
  {
    if b == [] {
      assert a + b == a;
    } else {
      assert (a + b)[..|a + b| - 1] == a + b[..|b| - 1];
      AddEdgesInTurn(raw, a, b[..|b| - 1]);
    }
  }

  /** Edges that are stored already need no row. */
  lemma {:induction false} MissingAreAll(start: Raw, raw: Raw, repo: int, child: string, parents: seq<string>)
    requires start.edges.Keys <= raw.edges.Keys
    ensures AddEdges(raw, MissingEdges(start, repo, child, parents)) == AddParents(raw, repo, child, parents)
    ensures raw.edges.Keys <= AddParents(raw, repo, child, parents).edges.Keys
  {
    if parents != [] {
      var rest, last := parents[..|parents| - 1], parents[|parents| - 1];
      MissingAreAll(start, raw, repo, child, rest);
      var edge, before := (Key(repo, child), Key(repo, last)), MissingEdges(start, repo, child, rest);
      if edge in start.edges {
        assert before + [] == before;
      } else {
        assert (before + [NewEdge(edge, EdgeBytes(child, last))])[..|before|] == before;
      }
    }
  }

  lemma {:induction false} EdgesAndFacts(raw: Raw, edges: seq<NewEdge>, key: Key, fact: Fact)
    ensures AddEdges(InsertFact(raw, key, fact), edges) == InsertFact(AddEdges(raw, edges), key, fact)
    ensures AddEdges(raw, edges).facts == raw.facts
  {
    if edges != [] {
      EdgesAndFacts(raw, edges[..|edges| - 1], key, fact);
    }
  }

  lemma PlanStep(raw: Raw, held: set<Key>, batch: Batch, n: nat)
    requires n < |batch.facts|
    ensures var before, mine := PlanOf(raw, held, batch, n), PlanFact(raw, held, batch, batch.facts[n]);
            && PlanOf(raw, held, batch, n + 1).facts == before.facts + mine.facts
            && PlanOf(raw, held, batch, n + 1).edges == before.edges + mine.edges
  {
    hide PlanFact;
  }

  lemma BatchStep(raw: Raw, batch: Batch, n: nat)
    requires n < |batch.facts|
    ensures var f := batch.facts[n];
            var with := InsertFact(AddBatch(raw, batch, n), Key(batch.repo, f.oid), Fact(f.bytes, f.time));
            AddBatch(raw, batch, n + 1) == AddParents(with, batch.repo, f.oid, ParentsOf(batch, f.oid))
  {
    hide AddParents, ParentsOf;
  }

  /** Storing what a plan found missing leaves the same rows as adding the whole batch. */
  lemma {:induction false} PlanAddsTheBatch(raw: Raw, held: set<Key>, batch: Batch, n: nat)
    requires n <= |batch.facts|
    ensures AddPlan(raw, PlanOf(raw, held, batch, n)) == AddBatch(raw, batch, n)
    ensures Under(raw, AddBatch(raw, batch, n))
  {
    hide AddPlan, PlanOf, AddBatch, Under;
    if n == 0 {
      NothingPlanned(raw, held, batch);
    } else {
      PlanAddsTheBatch(raw, held, batch, n - 1);
      OneCommitMore(raw, held, batch, n - 1);
    }
  }

  lemma NothingPlanned(raw: Raw, held: set<Key>, batch: Batch)
    ensures AddPlan(raw, PlanOf(raw, held, batch, 0)) == AddBatch(raw, batch, 0) && Under(raw, AddBatch(raw, batch, 0))
  {
    hide PlanFact, AddParents;
  }

  /** Every row of the one is a row of the other. */
  ghost predicate Under(raw: Raw, other: Raw) {
    raw.facts.Keys <= other.facts.Keys && raw.edges.Keys <= other.edges.Keys
  }

  lemma OneCommitMore(raw: Raw, held: set<Key>, batch: Batch, n: nat)
    requires n < |batch.facts|
    requires AddPlan(raw, PlanOf(raw, held, batch, n)) == AddBatch(raw, batch, n) && Under(raw, AddBatch(raw, batch, n))
    ensures AddPlan(raw, PlanOf(raw, held, batch, n + 1)) == AddBatch(raw, batch, n + 1)
    ensures Under(raw, AddBatch(raw, batch, n + 1))
  {
    hide PlanOf, PlanFact, AddBatch, AddParents, AddFacts, AddEdges, InsertFact, ParentsOf;
    PlanStep(raw, held, batch, n);
    BatchStep(raw, batch, n);
    var f, before := batch.facts[n], PlanOf(raw, held, batch, n);
    var key, fact, mine := Key(batch.repo, f.oid), Fact(f.bytes, f.time), PlanFact(raw, held, batch, f);
    var earlier := AddBatch(raw, batch, n);
    OneFactMore(raw, held, batch, f, before, earlier);
    AddEdgesInTurn(AddFacts(raw, before.facts + mine.facts), before.edges, mine.edges);
    PlannedEdges(raw, held, batch, f, InsertFact(earlier, key, fact));
  }

  lemma AddOneFact(raw: Raw, facts: seq<NewFact>, more: NewFact)
    ensures AddFacts(raw, facts + [more]) == InsertFact(AddFacts(raw, facts), more.key, more.fact)
  {
    assert (facts + [more])[..|facts|] == facts;
  }

  lemma PlannedEdges(raw: Raw, held: set<Key>, batch: Batch, f: BatchFact, with: Raw)
    requires raw.edges.Keys <= with.edges.Keys
    ensures AddEdges(with, PlanFact(raw, held, batch, f).edges)
         == AddParents(with, batch.repo, f.oid, ParentsOf(batch, f.oid))
    ensures var after := AddParents(with, batch.repo, f.oid, ParentsOf(batch, f.oid));
            with.edges.Keys <= after.edges.Keys && with.facts == after.facts
  {
    hide MissingEdges, AddEdges, AddParents, EdgeTotal;
    MissingAreAll(raw, with, batch.repo, f.oid, ParentsOf(batch, f.oid));
    AddParentsFacts(with, batch.repo, f.oid, ParentsOf(batch, f.oid));
  }

  /** The fact of the next commit may be added before the edges or after them. */
  lemma OneFactMore(raw: Raw, held: set<Key>, batch: Batch, f: BatchFact, plan: Plan, before: Raw)
    requires before == AddPlan(raw, plan) && Under(raw, before)
    ensures var more, key := PlanFact(raw, held, batch, f).facts, Key(batch.repo, f.oid);
            var after := InsertFact(before, key, Fact(f.bytes, f.time));
            && AddEdges(AddFacts(raw, plan.facts + more), plan.edges) == after
            && before.facts.Keys <= after.facts.Keys && before.edges == after.edges
  {
    hide MissingEdges, AddFacts, AddEdges, EdgeTotal;
    var key, fact := Key(batch.repo, f.oid), Fact(f.bytes, f.time);
    EdgesAndFacts(AddFacts(raw, plan.facts), plan.edges, key, fact);
    if key in raw.facts {
      assert plan.facts + [] == plan.facts;
    } else {
      AddOneFact(raw, plan.facts, NewFact(key, fact, key in held));
    }
  }

  lemma ProducedOneMore(ledger: Ledger, facts: seq<NewFact>, edges: seq<NewEdge>, more: NewFact)
    ensures ProduceFacts(ledger, facts + [more], edges).metrics.producedFacts
      == ProduceFacts(ledger, facts, edges).metrics.producedFacts + if more.retained then 0 else 1
  {
    hide EdgesFrom;
    assert (facts + [more])[..|facts|] == facts;
  }

  /** The commits of the batch that are in no raw fact and in no trail, each place of the batch for itself. */
  ghost function NewPlaces(raw: Raw, held: set<Key>, batch: Batch, n: nat): set<nat>
    requires n <= |batch.facts|
  {
    set k: nat | k < n && Key(batch.repo, batch.facts[k].oid) !in raw.facts
      && Key(batch.repo, batch.facts[k].oid) !in held
  }

  lemma {:induction false} ProducedCount(ledger: Ledger, raw: Raw, held: set<Key>, batch: Batch, n: nat,
      edges: seq<NewEdge>)
    requires n <= |batch.facts|
    ensures ProduceFacts(ledger, PlanOf(raw, held, batch, n).facts, edges).metrics.producedFacts
      == ledger.metrics.producedFacts + |NewPlaces(raw, held, batch, n)|
  {
    hide NewPlaces, PlanOf, ProduceFacts;
    if n == 0 {
      NothingProduced(ledger, raw, held, batch, edges);
    } else {
      ProducedCount(ledger, raw, held, batch, n - 1, edges);
      OneMorePlace(raw, held, batch, n - 1);
      PlanProducesOneMore(ledger, raw, held, batch, n - 1, edges);
    }
  }

  lemma NothingProduced(ledger: Ledger, raw: Raw, held: set<Key>, batch: Batch, edges: seq<NewEdge>)
    ensures ProduceFacts(ledger, PlanOf(raw, held, batch, 0).facts, edges) == ledger
    ensures NewPlaces(raw, held, batch, 0) == {}
  {
    hide PlanFact;
  }

  lemma PlanProducesOneMore(ledger: Ledger, raw: Raw, held: set<Key>, batch: Batch, n: nat, edges: seq<NewEdge>)
    requires n < |batch.facts|
    ensures var key := Key(batch.repo, batch.facts[n].oid);
            ProduceFacts(ledger, PlanOf(raw, held, batch, n + 1).facts, edges).metrics.producedFacts
              == ProduceFacts(ledger, PlanOf(raw, held, batch, n).facts, edges).metrics.producedFacts
                 + if key in raw.facts || key in held then 0 else 1
  {
    hide PlanOf, ProduceFacts;
    var f := batch.facts[n];
    var key := Key(batch.repo, f.oid);
    PlannedFacts(raw, held, batch, n);
    ProducedOneMore(ledger, PlanOf(raw, held, batch, n).facts, edges, NewFact(key, Fact(f.bytes, f.time), key in held));
  }

  lemma OneMorePlace(raw: Raw, held: set<Key>, batch: Batch, n: nat)
    requires n < |batch.facts|
    ensures var key := Key(batch.repo, batch.facts[n].oid);
            |NewPlaces(raw, held, batch, n + 1)| == |NewPlaces(raw, held, batch, n)|
              + if key in raw.facts || key in held then 0 else 1
  {
    var key := Key(batch.repo, batch.facts[n].oid);
    assert NewPlaces(raw, held, batch, n + 1)
        == NewPlaces(raw, held, batch, n) + if key in raw.facts || key in held then {} else {n};
  }

  lemma PlannedFacts(raw: Raw, held: set<Key>, batch: Batch, n: nat)
    requires n < |batch.facts|
    ensures var f := batch.facts[n];
            var key, rest, more := Key(batch.repo, f.oid), PlanOf(raw, held, batch, n).facts,
              PlanOf(raw, held, batch, n + 1).facts;
            if key in raw.facts then more == rest
            else more == rest + [NewFact(key, Fact(f.bytes, f.time), key in held)]
  {
    hide MissingEdges, EdgeTotal;
  }

  /**
   * What a stored batch leaves: exactly its commits and their edges are added, rows that were there stay, and each
   * place of the batch whose commit is in no raw fact and in no trail is counted as produced.
   */
  lemma InsertionStoresTheBatch(s: State, r: Request, now: int)
    ensures var after, n := Insert(s, r, PlanFor(s, r), now), |r.batch.facts|;
            && (forall key :: key in after.raw.facts <==> key in s.raw.facts || BatchHas(r.batch, n, key))
            && (forall key :: key in s.raw.facts ==> after.raw.facts[key] == s.raw.facts[key])
            && (forall k :: 0 <= k < n ==>
                  var key := Key(r.batch.repo, r.batch.facts[k].oid);
                  key !in s.raw.facts && !BatchHas(r.batch, k, key) ==>
                    key in after.raw.facts
                    && after.raw.facts[key] == Fact(r.batch.facts[k].bytes, r.batch.facts[k].time))
            && (forall edge :: edge in after.raw.edges <==> edge in s.raw.edges || Joins(r.batch, n, edge))
            && (forall edge :: edge in after.raw.edges ==>
                  after.raw.edges[edge] == if edge in s.raw.edges then s.raw.edges[edge] else EdgeSize(edge))
            && after.ledger.metrics.producedFacts
               == s.ledger.metrics.producedFacts + |NewPlaces(s.raw, Held(s.members), r.batch, n)|
            && after.members == s.members
  {
    hide AddPlan, PlanOf, ProduceFacts, AddBatch, UpsertRow, BatchHas, Joins, NewPlaces, Held;
    PlanAddsTheBatch(s.raw, Held(s.members), r.batch, |r.batch.facts|);
    AddBatchExactly(s.raw, r.batch, |r.batch.facts|);
    ProducedCount(s.ledger, s.raw, Held(s.members), r.batch, |r.batch.facts|, PlanFor(s, r).edges);
  }
}
