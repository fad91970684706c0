/** Prefix retention: while a job's row is live, every commit its counter claims keeps its raw fact. */
module Prefix {
  import opened Batches
  import opened Conservation
  import opened Graphs
  import opened Quota
  import opened Results
  import opened Staging

  /** A newest-first walk of one head and the parents of its commits. */
  datatype Walked = Walked(head: Key, commits: seq<Key>, parents: map<Key, set<Key>>) {
    function Parents(i: nat): set<Key>
      requires i < |commits|
    {
      if commits[i] in parents then parents[commits[i]] else {}
    }
  }

  /** Every commit after the head is a parent of an earlier one. */
  ghost predicate Topological(w: Walked) {
    && w.commits != []
    && w.commits[0] == w.head
    && forall i :: 0 < i < |w.commits| ==> HasChild(w, i)
  }

  ghost predicate HasChild(w: Walked, i: nat)
    requires i < |w.commits|
  {
    exists j :: 0 <= j < i && w.commits[i] in w.Parents(j)
  }

  ghost predicate StoredAt(raw: Raw, w: Walked, i: nat)
    requires i < |w.commits|
  {
    w.commits[i] in raw.facts && forall p :: p in w.Parents(i) ==> (w.commits[i], p) in raw.edges
  }

  ghost predicate Stored(raw: Raw, w: Walked, n: nat)
    requires n <= |w.commits|
  {
    forall i :: 0 <= i < n ==> StoredAt(raw, w, i)
  }

  /** If the row of the head is live, its counter counts stored commits only. */
  ghost predicate Claim(raw: Raw, jobs: seq<Job>, w: Walked)
  {
    var row := RowOf(jobs, w.head);
    row.Some? && Pins(row.value.state) ==> row.value.completed <= |w.commits| && Stored(raw, w, row.value.completed)
  }

  // ---------------------------------------------------------------- stored commits are pinned

  lemma {:induction false} StoredIsReached(raw: Raw, w: Walked, n: nat, i: nat)
    requires Topological(w) && i < n <= |w.commits| && Stored(raw, w, n)
    ensures Reaches(raw.edges.Keys, w.head, w.commits[i])
    decreases i
  {
    hide Reaches;
    ReachesSelf(raw.edges.Keys, w.head);
    if i > 0 {
      assert HasChild(w, i);
      var j :| 0 <= j < i && w.commits[i] in w.Parents(j);
      StoredIsReached(raw, w, n, j);
      assert StoredAt(raw, w, j);
      ReachesSelf(raw.edges.Keys, w.commits[i]);
      ReachesStep(raw.edges.Keys, w.commits[j], w.commits[i], w.commits[i]);
      ReachesTransitive(raw.edges.Keys, w.head, w.commits[j], w.commits[i]);
    }
  }

  lemma {:induction false} StoredIsPinned(raw: Raw, jobs: seq<Job>, w: Walked, n: nat)
    requires Topological(w) && n <= |w.commits| && Stored(raw, w, n)
    requires w.head in PinnedHeads(jobs)
    ensures forall i :: 0 <= i < n ==> w.commits[i] in Pinned(raw, jobs)
  {
    hide Reachable, Reaches, Stored;
    forall i | 0 <= i < n ensures w.commits[i] in Pinned(raw, jobs) {
      StoredIsReached(raw, w, n, i);
      ReachableMember(raw.edges.Keys, PinnedHeads(jobs), w.head, w.commits[i]);
    }
  }

  lemma {:induction false} LiveIsPinned(jobs: seq<Job>, head: Key)
    requires RowOf(jobs, head).Some? && Pins(RowOf(jobs, head).value.state)
    ensures head in PinnedHeads(jobs)
  {
    RowOfMember(jobs, head);
  }

  lemma ReclaimKeepsClaim(s: State, at: Setting, w: Walked)
    requires Topological(w) && Claim(s.raw, s.queue.jobs, w)
    ensures Claim(Reclaim(s, at).raw, Reclaim(s, at).queue.jobs, w)
  {
    hide Pinned, Topological, Charge, RowOf;
    var row := RowOf(s.queue.jobs, w.head);
    if row.Some? && Pins(row.value.state) {
      LiveIsPinned(s.queue.jobs, w.head);
      StoredIsPinned(s.raw, s.queue.jobs, w, row.value.completed);
      forall i | 0 <= i < row.value.completed ensures StoredAt(Reclaim(s, at).raw, w, i) {
        assert StoredAt(s.raw, w, i);
      }
    }
  }

  // ---------------------------------------------------------------- rows

  lemma {:induction false} RetiresRow(before: seq<Job>, after: seq<Job>, head: Key)
    requires OnlyRetires(before, after)
    ensures RowOf(after, head).Some? <==> RowOf(before, head).Some?
    ensures RowOf(after, head).Some? && Pins(RowOf(after, head).value.state) ==>
      RowOf(after, head) == RowOf(before, head)
    ensures (forall i :: 0 <= i < |before| && before[i].head == head ==> after[i] == before[i]) ==>
      RowOf(after, head) == RowOf(before, head)
  {
    if before != [] {
      RetiresRow(before[..|before| - 1], after[..|after| - 1], head);
    }
  }

  lemma {:induction false} DeletedRow(jobs: seq<Job>, gone: Key, head: Key)
    ensures RowOf(DeleteRow(jobs, gone), head) == if gone == head then None else RowOf(jobs, head)
  {
    if jobs != [] {
      var last := jobs[|jobs| - 1];
      DeletedRow(jobs[..|jobs| - 1], gone, head);
      if last.head == gone {
        assert DeleteRow(jobs, gone) == DeleteRow(jobs[..|jobs| - 1], gone);
      } else {
        assert DeleteRow(jobs, gone)[..|DeleteRow(jobs, gone)| - 1] == DeleteRow(jobs[..|jobs| - 1], gone);
      }
    }
  }

  lemma {:induction false} TrimKeeps(queue: Queue, n: nat, head: Key)
    requires DistinctHeads(queue.jobs)
    ensures var after := Trim(queue, n);
            && DistinctHeads(after.jobs)
            && (RowOf(after.jobs, head).Some? ==> RowOf(after.jobs, head) == RowOf(queue.jobs, head))
    decreases n
  {
    hide FirstTerminal, RowOf, DeleteRow;
    if n > 0 && FirstTerminal(queue).Some? {
      var gone := FirstTerminal(queue).value;
      DeleteKeepsDistinct(queue.jobs, gone);
      DeletedRow(queue.jobs, gone, head);
      TrimKeeps(Delete(queue, gone), n - 1, head);
    }
  }

  lemma {:induction false} SetStateRow(jobs: seq<Job>, target: Key, state: JobState, head: Key)
    ensures var row := RowOf(jobs, head);
            RowOf(SetState(jobs, target, state), head)
            == if row.None? || target != head then row else Some(row.value.(state := state))
  {
    if jobs != [] {
      SetStateRow(jobs[..|jobs| - 1], target, state, head);
      assert SetState(jobs, target, state)[..|jobs| - 1] == SetState(jobs[..|jobs| - 1], target, state);
    }
  }

  lemma {:induction false} ReplaceRow(jobs: seq<Job>, row: Job, head: Key)
    requires row.head != head
    ensures RowOf(Replace(jobs, row), head) == RowOf(jobs, head)
  {
    if jobs != [] {
      ReplaceRow(jobs[..|jobs| - 1], row, head);
      assert Replace(jobs, row)[..|jobs| - 1] == Replace(jobs[..|jobs| - 1], row);
    }
  }

  lemma {:induction false} OtherRowsStay(jobs: seq<Job>, row: Job, head: Key)
    requires row.head != head
    ensures RowOf(UpsertRow(jobs, row), head) == RowOf(jobs, head)
    ensures RowOf(PauseRow(jobs, row), head) == RowOf(jobs, head)
  {
    ReplaceRow(jobs, row, head);
    SetStateRow(jobs, row.head, row.state, head);
    assert (jobs + [row])[..|jobs|] == jobs;
  }

  // ---------------------------------------------------------------- retiring steps keep the claim

  lemma {:induction false} RetiringKeepsClaim(raw: Raw, before: seq<Job>, after: seq<Job>, w: Walked)
    requires OnlyRetires(before, after) && Claim(raw, before, w)
    ensures Claim(raw, after, w)
  {
    hide RowOf, Stored, OnlyRetires;
    RetiresRow(before, after, w.head);
  }

  lemma BoundKeepsClaim(s: State, caller: Option<Key>, at: Setting, w: Walked)
    requires Topological(w) && Claim(s.raw, s.queue.jobs, w)
    ensures Claim(Bound(s, caller, at).raw, Bound(s, caller, at).queue.jobs, w)
  {
    hide Reclaim, Claim, Topological, OnlyRetires, DropOldest, ActiveCount;
    var active := ActiveCount(s.queue.jobs);
    if active > MAX_ACTIVE {
      var jobs := DropOldest(s.queue.jobs, caller, active - MAX_ACTIVE);
      DropOldestShape(s.queue.jobs, caller, active - MAX_ACTIVE);
      RetiringKeepsClaim(s.raw, s.queue.jobs, jobs, w);
      ReclaimKeepsClaim(s.(queue := s.queue.(jobs := jobs)), at, w);
    }
  }

  lemma {:induction false} SettleKeepsClaim(s: State, r: Request, at: Setting, attempts: nat, w: Walked)
    requires attempts <= MAX_ATTEMPTS && Topological(w) && Claim(s.raw, s.queue.jobs, w)
    ensures var t := Settle(s, r, at, attempts); Claim(t.raw, t.queue.jobs, w)
    decreases MAX_ATTEMPTS - attempts
  {
    hide Reclaim, Claim, Topological, OnlyRetires, Fits, First, Retire;
    if Fits(s, r) {
    } else if attempts == 0 {
      ReclaimKeepsClaim(s, at, w);
      SettleKeepsClaim(Reclaim(s, at), r, at, 1, w);
    } else if attempts < MAX_ATTEMPTS && EvictLru(s, r.Caller(), at).Some? {
      var jobs := Retire(s.queue.jobs, LruVictim(s.queue, r.Caller(), at).value);
      RetireShape(s.queue.jobs, LruVictim(s.queue, r.Caller(), at).value);
      RetiringKeepsClaim(s.raw, s.queue.jobs, jobs, w);
      ReclaimKeepsClaim(s.(queue := s.queue.(jobs := jobs)), at, w);
      SettleKeepsClaim(EvictLru(s, r.Caller(), at).value, r, at, attempts + 1, w);
    }
  }

  // ---------------------------------------------------------------- insertions

  ghost predicate Grows(a: Raw, b: Raw) {
    a.facts.Keys <= b.facts.Keys && a.edges.Keys <= b.edges.Keys
  }

  lemma GrowingKeepsStored(a: Raw, b: Raw, w: Walked, n: nat)
    requires n <= |w.commits| && Grows(a, b) && Stored(a, w, n)
    ensures Stored(b, w, n)
  {
    forall i | 0 <= i < n ensures StoredAt(b, w, i) {
      assert StoredAt(a, w, i);
    }
  }

  lemma {:induction false} AddFactsGrow(raw: Raw, facts: seq<NewFact>)
    ensures Grows(raw, AddFacts(raw, facts)) && AddFacts(raw, facts).edges == raw.edges
    ensures forall i :: 0 <= i < |facts| ==> facts[i].key in AddFacts(raw, facts).facts
  {
    if facts != [] {
      AddFactsGrow(raw, facts[..|facts| - 1]);
      assert forall i :: 0 <= i < |facts| - 1 ==> facts[i] == facts[..|facts| - 1][i];
    }
  }

  lemma {:induction false} AddEdgesGrow(raw: Raw, edges: seq<NewEdge>)
    ensures Grows(raw, AddEdges(raw, edges)) && AddEdges(raw, edges).facts == raw.facts
    ensures forall i :: 0 <= i < |edges| ==> edges[i].edge in AddEdges(raw, edges).edges
  {
    if edges != [] {
      AddEdgesGrow(raw, edges[..|edges| - 1]);
      assert forall i :: 0 <= i < |edges| - 1 ==> edges[i] == edges[..|edges| - 1][i];
    }
  }

  ghost predicate HasFact(facts: seq<NewFact>, key: Key) {
    exists i :: 0 <= i < |facts| && facts[i].key == key
  }

  ghost predicate Listed(edges: seq<NewEdge>, edge: Edge) {
    exists i :: 0 <= i < |edges| && edges[i].edge == edge
  }

  lemma {:induction false} EveryParentIsPlanned(raw: Raw, repo: int, child: string, parents: seq<string>,
      parent: string)
    requires parent in parents
    ensures var edge := (Key(repo, child), Key(repo, parent));
            edge in raw.edges || Listed(MissingEdges(raw, repo, child, parents), edge)
  {
    var rest := parents[..|parents| - 1];
    var edge := (Key(repo, child), Key(repo, parent));
    var edges := MissingEdges(raw, repo, child, parents);
    if parent == parents[|parents| - 1] {
      if edge !in raw.edges {
        assert edges[|edges| - 1].edge == edge;
      }
    } else {
      EveryParentIsPlanned(raw, repo, child, rest, parent);
      var before := MissingEdges(raw, repo, child, rest);
      if edge !in raw.edges {
        var i :| 0 <= i < |before| && before[i].edge == edge;
        assert edges[i].edge == edge;
      }
    }
  }

  /** The plan covers each commit of the batch: its fact and its edges are stored or planned. */
  lemma {:induction false} PlanCovers(raw: Raw, held: set<Key>, batch: Batch, n: nat, k: nat)
    requires k < n <= |batch.facts|
    ensures var plan, key := PlanOf(raw, held, batch, n), Key(batch.repo, batch.facts[k].oid);
            && (key in raw.facts || HasFact(plan.facts, key))
            && (forall parent :: parent in ParentsOf(batch, batch.facts[k].oid) ==>
                  (key, Key(batch.repo, parent)) in raw.edges || Listed(plan.edges, (key, Key(batch.repo, parent))))
  {
    hide MissingEdges, EdgeTotal;
    var before, f := PlanOf(raw, held, batch, n - 1), batch.facts[k];
    var plan, key := PlanOf(raw, held, batch, n), Key(batch.repo, f.oid);
    var mine := PlanFact(raw, held, batch, batch.facts[n - 1]);
    assert plan.facts == before.facts + mine.facts && plan.edges == before.edges + mine.edges;
    if k < n - 1 {
      PlanCovers(raw, held, batch, n - 1, k);
      if key !in raw.facts {
        var i :| 0 <= i < |before.facts| && before.facts[i].key == key;
        assert plan.facts[i].key == key;
        assert HasFact(plan.facts, key);
      }
    } else if key !in raw.facts {
      assert plan.facts[|before.facts|].key == key;
    }
    forall parent | parent in ParentsOf(batch, f.oid)
      ensures (key, Key(batch.repo, parent)) in raw.edges || Listed(plan.edges, (key, Key(batch.repo, parent)))
    {
      var edge := (key, Key(batch.repo, parent));
      if k == n - 1 {
        EveryParentIsPlanned(raw, batch.repo, f.oid, ParentsOf(batch, f.oid), parent);
        ListedInSum(before.edges, mine.edges, edge);
      } else {
        ListedInSum(before.edges, mine.edges, edge);
      }
    }
  }

  lemma {:induction false} ListedInSum(a: seq<NewEdge>, b: seq<NewEdge>, edge: Edge)
    ensures Listed(a, edge) || Listed(b, edge) ==> Listed(a + b, edge)
  {
    if i :| 0 <= i < |a| && a[i].edge == edge {
      assert (a + b)[i].edge == edge;
    } else if i :| 0 <= i < |b| && b[i].edge == edge {
      assert (a + b)[|a| + i].edge == edge;
    }
  }

  /** The batch is a segment of the walk, with all parents, ending where the counter says. */
  ghost predicate Segment(r: Request, w: Walked) {
    && |r.batch.facts| <= r.completed <= |w.commits|
    && forall k :: 0 <= k < |r.batch.facts| ==> SegmentAt(r, w, k)
  }

  ghost predicate SegmentAt(r: Request, w: Walked, k: nat)
    requires k < |r.batch.facts| <= r.completed <= |w.commits|
  {
    var i := r.completed - |r.batch.facts| + k;
    && w.commits[i] == Key(r.batch.repo, r.batch.facts[k].oid)
    && forall p :: p in w.Parents(i) ==> p.repo == r.batch.repo && p.oid in ParentsOf(r.batch, r.batch.facts[k].oid)
  }

  lemma SegmentBounds(r: Request, w: Walked)
    requires Segment(r, w)
    ensures |r.batch.facts| <= r.completed <= |w.commits|
  {
  }

  lemma InsertStores(s: State, r: Request, now: int, w: Walked)
    requires Segment(r, w) && Stored(s.raw, w, r.completed - |r.batch.facts|)
    ensures Stored(AddPlan(s.raw, PlanFor(s, r)), w, r.completed)
  {
    hide PlanOf, AddFacts, AddEdges, Held, Segment, StoredAt;
    SegmentBounds(r, w);
    var plan := PlanFor(s, r);
    var start := r.completed - |r.batch.facts|;
    var after := AddPlan(s.raw, plan);
    AddFactsGrow(s.raw, plan.facts);
    AddEdgesGrow(AddFacts(s.raw, plan.facts), plan.edges);
    GrowingKeepsStored(s.raw, after, w, start);
    forall i | 0 <= i < r.completed ensures StoredAt(after, w, i) {
      if i >= start {
        InsertStoresOne(s, r, w, i - start);
      }
    }
  }

  lemma InsertStoresOne(s: State, r: Request, w: Walked, k: nat)
    requires Segment(r, w) && k < |r.batch.facts|
    ensures StoredAt(AddPlan(s.raw, PlanFor(s, r)), w, r.completed - |r.batch.facts| + k)
  {
    hide PlanOf, AddFacts, AddEdges, Held;
    var plan := PlanFor(s, r);
    var i := r.completed - |r.batch.facts| + k;
    var after := AddPlan(s.raw, plan);
    AddFactsGrow(s.raw, plan.facts);
    AddEdgesGrow(AddFacts(s.raw, plan.facts), plan.edges);
    PlanCovers(s.raw, Held(s.members), r.batch, |r.batch.facts|, k);
    assert SegmentAt(r, w, k);
    forall p | p in w.Parents(i) ensures (w.commits[i], p) in after.edges {
      assert p == Key(r.batch.repo, p.oid);
    }
  }

  lemma {:induction false} AddParentsGrow(raw: Raw, repo: int, child: string, parents: seq<string>)
    ensures Grows(raw, AddParents(raw, repo, child, parents))
  {
    if parents != [] {
      AddParentsGrow(raw, repo, child, parents[..|parents| - 1]);
    }
  }

  lemma {:induction false} AddBatchGrows(raw: Raw, batch: Batch, n: nat)
    requires n <= |batch.facts|
    ensures Grows(raw, AddBatch(raw, batch, n))
  {
    if n > 0 {
      AddBatchGrows(raw, batch, n - 1);
      var f := batch.facts[n - 1];
      AddParentsGrow(InsertFact(AddBatch(raw, batch, n - 1), Key(batch.repo, f.oid), Fact(f.bytes, f.time)),
                     batch.repo, f.oid, ParentsOf(batch, f.oid));
    }
  }

  // ---------------------------------------------------------------- steps and runs

  function ClaimedCount(jobs: seq<Job>, head: Key): nat {
    var row := RowOf(jobs, head);
    if row.None? then 0 else row.value.completed
  }

  /** A job for this head may resume: no row, a live row, or a row whose progress was reset. */
  predicate Resumable(jobs: seq<Job>, head: Key) {
    var row := RowOf(jobs, head);
    row.None? || Pins(row.value.state) || row.value.completed == 0
  }

  /** What the session of this head does: it stages the next segment of its walk and never revives a retired row. */
  ghost predicate Follows(s: State, op: Op, w: Walked)
  {
    match op
    case StageOp(r) =>
      r.Caller() == w.head ==>
        && Resumable(s.queue.jobs, w.head)
        && Segment(r, w)
        && r.completed - |r.batch.facts| <= ClaimedCount(s.queue.jobs, w.head)
    case StateOp(head, state) => head == w.head && Pins(state) ==> Resumable(s.queue.jobs, head)
    case _ => true
  }

  lemma StagedOwn(s: State, r: Request, at: Setting, w: Walked)
    requires Topological(w) && DistinctHeads(s.queue.jobs) && Claim(s.raw, s.queue.jobs, w)
    requires r.Caller() == w.head && Follows(s, StageOp(r), w)
    ensures var t := Stage(s, r, at).state; Claim(t.raw, t.queue.jobs, w)
  {
    hide Settle, Fits, Bound, PlanOf, AddPlan, ProduceFacts, UpsertRow, PauseRow, RowOf, Topological, Segment,
      OnlyRetires, OnlyRemoves, Stored;
    SettleKeeps(s, r, at, 0);
    SettleKeepsClaim(s, r, at, 0, w);
    var t := Settle(s, r, at, 0);
    SettledHeads(s, r, at);
    RetiresRow(s.queue.jobs, t.queue.jobs, w.head);
    var start := r.completed - |r.batch.facts|;
    SegmentBounds(r, w);
    if Fits(t, r) {
      var next := Insert(t, r, PlanFor(t, r), at.now);
      UpsertShape(t.queue.jobs, RunningRow(r));
      StartIsStored(t, w, start);
      InsertStores(t, r, at.now, w);
      BoundKeepsClaim(next, Some(r.Caller()), at, w);
    } else {
      var paused := t.(queue := t.queue.(jobs := PauseRow(t.queue.jobs, PausedRow(r))));
      PauseShape(t.queue.jobs, PausedRow(r));
      NothingIsStored(t.raw, w);
      BoundKeepsClaim(paused, Some(r.Caller()), at, w);
    }
  }

  lemma NothingIsStored(raw: Raw, w: Walked)
    ensures Stored(raw, w, 0)
  {
  }

  lemma StartIsStored(t: State, w: Walked, start: nat)
    requires Claim(t.raw, t.queue.jobs, w) && Resumable(t.queue.jobs, w.head)
    requires start <= ClaimedCount(t.queue.jobs, w.head)
    ensures start <= |w.commits| && Stored(t.raw, w, start)
  {
  }

  lemma SettledHeads(s: State, r: Request, at: Setting)
    requires DistinctHeads(s.queue.jobs)
    ensures DistinctHeads(Settle(s, r, at, 0).queue.jobs)
  {
    hide Settle;
    SettleKeeps(s, r, at, 0);
  }

  lemma StagedOther(s: State, r: Request, at: Setting, w: Walked)
    requires Topological(w) && Claim(s.raw, s.queue.jobs, w) && r.Caller() != w.head
    ensures var t := Stage(s, r, at).state; Claim(t.raw, t.queue.jobs, w)
  {
    hide Settle, Fits, Bound, PlanOf, AddFacts, AddEdges, ProduceFacts, UpsertRow, PauseRow, RowOf, Topological, Stored;
    SettleKeepsClaim(s, r, at, 0, w);
    var t := Settle(s, r, at, 0);
    if Fits(t, r) {
      var plan := PlanFor(t, r);
      var next := Insert(t, r, plan, at.now);
      OtherRowsStay(t.queue.jobs, RunningRow(r), w.head);
      AddFactsGrow(t.raw, plan.facts);
      AddEdgesGrow(AddFacts(t.raw, plan.facts), plan.edges);
      GrowingKeepsClaim(t.raw, next.raw, t.queue.jobs, next.queue.jobs, w);
      BoundKeepsClaim(next, Some(r.Caller()), at, w);
    } else {
      OtherRowsStay(t.queue.jobs, PausedRow(r), w.head);
      BoundKeepsClaim(t.(queue := t.queue.(jobs := PauseRow(t.queue.jobs, PausedRow(r)))), Some(r.Caller()), at, w);
    }
  }

  lemma {:induction false} GrowingKeepsClaim(before: Raw, after: Raw, was: seq<Job>, jobs: seq<Job>, w: Walked)
    requires Grows(before, after) && Claim(before, was, w)
    requires RowOf(jobs, w.head) == RowOf(was, w.head)
    ensures Claim(after, jobs, w)
  {
    hide RowOf, Stored;
    var row := RowOf(jobs, w.head);
    if row.Some? && Pins(row.value.state) {
      GrowingKeepsStored(before, after, w, row.value.completed);
    }
  }

  lemma StateKeepsClaim(s: State, head: Key, state: JobState, at: Setting, w: Walked)
    requires Topological(w) && DistinctHeads(s.queue.jobs) && Claim(s.raw, s.queue.jobs, w)
    requires Follows(s, StateOp(head, state), w)
    ensures var t := ChangeState(s, head, state, at); Claim(t.raw, t.queue.jobs, w)
  {
    hide Reclaim, Bound, Trim, SetState, TerminalCount, RowOf, Topological;
    var queue := s.queue.(jobs := SetState(s.queue.jobs, head, state));
    SetStateRow(s.queue.jobs, head, state, w.head);
    SetStateDistinct(s.queue.jobs, head, state);
    NothingIsStored(s.raw, w);
    assert Claim(s.raw, queue.jobs, w);
    var count := TerminalCount(queue.jobs);
    var n: nat := if count > MAX_TERMINAL then count - MAX_TERMINAL else 0;
    if Terminal(state) {
      TrimKeeps(queue, n, w.head);
      ReclaimKeepsClaim(s.(queue := Trim(queue, n)), at, w);
    } else if Active(state) {
      BoundKeepsClaim(s.(queue := queue), Some(head), at, w);
    }
  }

  lemma {:induction false} SetStateDistinct(jobs: seq<Job>, head: Key, state: JobState)
    requires DistinctHeads(jobs)
    ensures DistinctHeads(SetState(jobs, head, state))
  {
  }

  lemma StepKeepsClaim(s: State, move: Move, w: Walked)
    requires Topological(w) && DistinctHeads(s.queue.jobs) && Claim(s.raw, s.queue.jobs, w) && Follows(s, move.op, w)
    ensures var t := Apply(s, move); Claim(t.raw, t.queue.jobs, w)
  {
    hide Claim, Topological, Stage, ChangeState, Reclaim, Bound, AddBatch, Follows, Reuse, Demands;
    match move.op
    case StageOp(r) =>
      if r.Caller() == w.head {
        StagedOwn(s, r, move.at, w);
      } else {
        StagedOther(s, r, move.at, w);
      }
    case StateOp(head, state) =>
      StateKeepsClaim(s, head, state, move.at, w);
    case ReconcileOp =>
      BoundKeepsClaim(s, None, move.at, w);
      ReclaimKeepsClaim(Bound(s, None, move.at), move.at, w);
    case PublishOp(trail, batch, when, undone) =>
      AddBatchGrows(s.raw, batch, |batch.facts|);
      GrowingKeepsClaim(s.raw, AddBatch(s.raw, batch, |batch.facts|), s.queue.jobs, s.queue.jobs, w);
    case UseOp(trail, when) =>
    case EvictOp(trails) =>
  }

  lemma StepKeepsHeads(s: State, move: Move)
    requires DistinctHeads(s.queue.jobs)
    ensures DistinctHeads(Apply(s, move).queue.jobs)
  {
    hide Stage, Bound, AddBatch, Reuse, Demands, Trim, SetState, TerminalCount, Victims, Charge;
    match move.op
    case StageOp(r) =>
      CallerSurvives(s, r, move.at);
    case StateOp(head, state) =>
      var queue := s.queue.(jobs := SetState(s.queue.jobs, head, state));
      SetStateDistinct(s.queue.jobs, head, state);
      var count := TerminalCount(queue.jobs);
      TrimKeeps(queue, if count > MAX_TERMINAL then count - MAX_TERMINAL else 0, head);
      BoundHolds(s.(queue := queue), Some(head), move.at);
    case ReconcileOp =>
      BoundHolds(s, None, move.at);
    case _ =>
  }

  /** Every step of the run that touches this head follows its walk. */
  ghost predicate AllFollow(s: State, moves: seq<Move>, w: Walked)
  {
    forall i :: 0 <= i < |moves| ==> Follows(Run(s, moves[..i]), moves[i].op, w)
  }

  lemma {:induction false} RunKeepsClaim(s: State, moves: seq<Move>, w: Walked)
    requires Topological(w) && DistinctHeads(s.queue.jobs) && Claim(s.raw, s.queue.jobs, w) && AllFollow(s, moves, w)
    ensures var t := Run(s, moves); DistinctHeads(t.queue.jobs) && Claim(t.raw, t.queue.jobs, w)
  {
    hide Claim, Topological, Follows, Apply, DistinctHeads;
    if moves != [] {
      var before := moves[..|moves| - 1];
      assert AllFollow(s, before, w) by {
        forall i | 0 <= i < |before| ensures Follows(Run(s, before[..i]), before[i].op, w) {
          assert before[..i] == moves[..i];
        }
      }
      RunKeepsClaim(s, before, w);
      StepKeepsClaim(Run(s, before), moves[|moves| - 1], w);
      StepKeepsHeads(Run(s, before), moves[|moves| - 1]);
    }
  }

  /**
   * Prefix retention. Over every run in which the head's session follows its walk, while the head's row is live every
   * commit of `walk[..completed_count]` keeps its raw fact, whatever other jobs, publications and evictions did.
   */
  lemma {:induction false} PrefixRetained(s: State, moves: seq<Move>, w: Walked)
    requires Topological(w) && DistinctHeads(s.queue.jobs) && RowOf(s.queue.jobs, w.head).None?
      && AllFollow(s, moves, w)
    ensures var t := Run(s, moves); var row := RowOf(t.queue.jobs, w.head);
            row.Some? && Pins(row.value.state) ==>
              && row.value.completed <= |w.commits|
              && forall i :: 0 <= i < row.value.completed ==> w.commits[i] in t.raw.facts
  {
    hide Topological, DistinctHeads, AllFollow, RowOf, Run;
    RunKeepsClaim(s, moves, w);
    var t := Run(s, moves);
    var row := RowOf(t.queue.jobs, w.head);
    if row.Some? && Pins(row.value.state) {
      forall i | 0 <= i < row.value.completed ensures w.commits[i] in t.raw.facts {
        assert StoredAt(t.raw, w, i);
      }
    }
  }
}
