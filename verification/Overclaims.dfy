/** Exactly when an operation on the head itself leaves a live counter that counts stored commits only. */
module Overclaims {
  import opened Batches
  import opened Conservation
  import opened Graphs
  import opened Prefix
  import opened Quota
  import opened Results
  import opened Staging

  ghost predicate DistinctCommits(w: Walked) {
    forall i, j :: 0 <= i < j < |w.commits| ==> w.commits[i] != w.commits[j]
  }

  /** The first `count` commits of the walk are stored. */
  ghost predicate Covers(raw: Raw, w: Walked, count: nat) {
    count <= |w.commits| && Stored(raw, w, count)
  }

  // ---------------------------------------------------------------- what an insertion adds

  ghost predicate LeavesBatch(edges: seq<NewEdge>, batch: Batch) {
    forall i :: 0 <= i < |edges| ==> BatchHas(batch, |batch.facts|, edges[i].edge.0)
  }

  lemma {:induction false} MissingEdgesLeave(raw: Raw, repo: int, child: string, parents: seq<string>)
    ensures forall i :: 0 <= i < |MissingEdges(raw, repo, child, parents)| ==>
              MissingEdges(raw, repo, child, parents)[i].edge.0 == Key(repo, child)
  {
    if parents != [] {
      MissingEdgesLeave(raw, repo, child, parents[..|parents| - 1]);
    }
  }

  lemma {:induction false} PlannedEdgesLeave(raw: Raw, held: set<Key>, batch: Batch, n: nat)
    requires n <= |batch.facts|
    ensures LeavesBatch(PlanOf(raw, held, batch, n).edges, batch)
  {
    hide MissingEdges, EdgeTotal;
    if n > 0 {
      var f := batch.facts[n - 1];
      PlannedEdgesLeave(raw, held, batch, n - 1);
      MissingEdgesLeave(raw, batch.repo, f.oid, ParentsOf(batch, f.oid));
      assert BatchHas(batch, |batch.facts|, Key(batch.repo, f.oid));
    }
  }

  lemma {:induction false} AddedEdgesLeave(raw: Raw, edges: seq<NewEdge>, batch: Batch)
    requires LeavesBatch(edges, batch)
    ensures forall e :: e in AddEdges(raw, edges).edges ==> e in raw.edges || BatchHas(batch, |batch.facts|, e.0)
  {
    hide BatchHas;
    if edges != [] {
      AddedEdgesLeave(raw, edges[..|edges| - 1], batch);
      assert edges[|edges| - 1] in edges;
    }
  }

  /** Facts and edges that an insertion adds belong to commits of the batch. */
  lemma InsertAddsBatchOnly(s: State, r: Request)
    requires DistinctOids(r.batch.facts)
    ensures var after := AddPlan(s.raw, PlanFor(s, r));
            && (forall key :: key in after.facts ==> key in s.raw.facts || BatchHas(r.batch, |r.batch.facts|, key))
            && (forall e :: e in after.edges ==> e in s.raw.edges || BatchHas(r.batch, |r.batch.facts|, e.0))
  {
    hide PlanOf, AddFacts, AddEdges, Held, KeysOf, BatchHas;
    var plan := PlanFor(s, r);
    PlanKeys(s.raw, Held(s.members), r.batch, |r.batch.facts|);
    PlannedEdgesLeave(s.raw, Held(s.members), r.batch, |r.batch.facts|);
    AddFactsKeys(s.raw, plan.facts);
    AddFactsGrow(s.raw, plan.facts);
    AddEdgesFacts(AddFacts(s.raw, plan.facts), plan.edges);
    AddedEdgesLeave(AddFacts(s.raw, plan.facts), plan.edges, r.batch);
  }

  lemma SegmentIsDistinct(r: Request, w: Walked)
    requires Segment(r, w) && DistinctCommits(w)
    ensures DistinctOids(r.batch.facts)
    ensures forall i :: 0 <= i < r.completed - |r.batch.facts| ==> !BatchHas(r.batch, |r.batch.facts|, w.commits[i])
  {
    var start := r.completed - |r.batch.facts|;
    forall i, j | 0 <= i < j < |r.batch.facts| ensures r.batch.facts[i].oid != r.batch.facts[j].oid {
      assert SegmentAt(r, w, i) && SegmentAt(r, w, j);
      assert w.commits[start + i] != w.commits[start + j];
    }
    forall i | 0 <= i < start ensures !BatchHas(r.batch, |r.batch.facts|, w.commits[i]) {
      forall k | 0 <= k < |r.batch.facts| ensures w.commits[i] != Key(r.batch.repo, r.batch.facts[k].oid) {
        assert SegmentAt(r, w, k);
        assert w.commits[i] != w.commits[start + k];
      }
    }
  }

  /** Inserting the next segment stores the longer prefix exactly when the prefix before it is stored. */
  lemma InsertStoresExactly(s: State, r: Request, now: int, w: Walked)
    requires Segment(r, w) && DistinctCommits(w)
    ensures Stored(AddPlan(s.raw, PlanFor(s, r)), w, r.completed) <==> Stored(s.raw, w, r.completed - |r.batch.facts|)
  {
    hide PlanFor, AddPlan, BatchHas, Segment;
    SegmentBounds(r, w);
    SegmentIsDistinct(r, w);
    InsertAddsBatchOnly(s, r);
    var start, after := r.completed - |r.batch.facts|, AddPlan(s.raw, PlanFor(s, r));
    if Stored(s.raw, w, start) {
      InsertStores(s, r, now, w);
    }
    if Stored(after, w, r.completed) {
      forall i | 0 <= i < start ensures StoredAt(s.raw, w, i) {
        assert StoredAt(after, w, i);
      }
    }
  }

  // ---------------------------------------------------------------- one live row

  lemma {:induction false} LiveClaim(raw: Raw, jobs: seq<Job>, w: Walked, row: Job)
    requires RowOf(jobs, w.head) == Some(row) && Pins(row.state)
    ensures Claim(raw, jobs, w) <==> Covers(raw, w, row.completed)
  {
  }

  lemma RemovingUncovers(s: Raw, t: Raw, w: Walked, count: nat)
    requires OnlyRemoves(s, t) && Covers(t, w, count)
    ensures Covers(s, w, count)
  {
    forall i | 0 <= i < count ensures StoredAt(s, w, i) {
      assert StoredAt(t, w, i);
    }
  }

  /** The bound on active jobs neither makes nor breaks the claim of the calling job's live row. */
  lemma BoundClaims(s: State, at: Setting, w: Walked, row: Job)
    requires Topological(w) && DistinctHeads(s.queue.jobs)
    requires RowOf(s.queue.jobs, w.head) == Some(row) && Pins(row.state)
    ensures var t := Bound(s, Some(w.head), at); Claim(t.raw, t.queue.jobs, w) <==> Covers(s.raw, w, row.completed)
  {
    hide Bound, Claim, Topological, RowOf, DistinctHeads, Covers, OnlyRemoves, ActiveCount;
    var t := Bound(s, Some(w.head), at);
    BoundKeepsCaller(s, w.head, at);
    LiveClaim(s.raw, s.queue.jobs, w, row);
    LiveClaim(t.raw, t.queue.jobs, w, row);
    BoundStep(s, Some(w.head), at);
    if Claim(s.raw, s.queue.jobs, w) {
      BoundKeepsClaim(s, Some(w.head), at, w);
    }
    if Claim(t.raw, t.queue.jobs, w) {
      RemovingUncovers(s.raw, t.raw, w, row.completed);
    }
  }

  // ---------------------------------------------------------------- making room is one reclaim

  ghost function WithRows(s: State, jobs: seq<Job>): State {
    s.(queue := s.queue.(jobs := jobs))
  }

  lemma {:induction false} FewerHeadsPinLess(raw: Raw, before: seq<Job>, after: seq<Job>)
    requires OnlyRetires(before, after)
    ensures Pinned(raw, after) <= Pinned(raw, before)
  {
    hide Reachable;
    forall job | job in after && Pins(job.state) ensures job.head in PinnedHeads(before) {
      var i :| 0 <= i < |after| && after[i] == job;
      assert before[i] in before && before[i].head == job.head;
    }
    ReachableIsClosed(raw.edges.Keys, PinnedHeads(before));
    ReachableIsLeast(raw.edges.Keys, PinnedHeads(after), Pinned(raw, before));
  }

  /** Reclaiming, retiring more rows, and reclaiming again deletes what one reclaim with the later rows deletes. */
  lemma {:induction false} ReclaimsMerge(s: State, later: seq<Job>, at: Setting)
    requires OnlyRetires(s.queue.jobs, later)
    ensures var once := WithoutFacts(s.raw, Victims(s, at));
            WithoutFacts(once, Victims(WithRows(s, later).(raw := once), at))
            == WithoutFacts(s.raw, Victims(WithRows(s, later), at))
  {
    hide Pinned, Recent, OnlyRetires;
    FewerHeadsPinLess(s.raw, s.queue.jobs, later);
    VictimsArePinnedFree(s, at);
    PinnedSurvives(s.raw, later, Victims(s, at));
  }

  /**
   * Making room for a batch, however many jobs it retires, deletes what one reclaim with the remaining rows deletes.
   */
  lemma {:induction false} SettleIsOneReclaim(s: State, r: Request, at: Setting, attempts: nat)
    requires attempts <= MAX_ATTEMPTS && (attempts > 0 ==> Victims(s, at) == {})
    ensures var t := Settle(s, r, at, attempts);
            t.raw == if Fits(s, r) then s.raw else WithoutFacts(s.raw, Victims(WithRows(s, t.queue.jobs), at))
    decreases MAX_ATTEMPTS - attempts, 0
  {
    hide Victims, WithoutFacts, Charge, Fits, First, Retire, OnlyRetires;
    var t := Settle(s, r, at, attempts);
    if Fits(s, r) {
    } else if attempts == 0 {
      SettlesOnward(s, s.queue.jobs, r, at, 1);
    } else if attempts < MAX_ATTEMPTS && EvictLru(s, r.Caller(), at).Some? {
      var jobs := Retire(s.queue.jobs, LruVictim(s.queue, r.Caller(), at).value);
      RetireShape(s.queue.jobs, LruVictim(s.queue, r.Caller(), at).value);
      SettlesOnward(s, jobs, r, at, attempts + 1);
    } else {
      assert WithRows(s, s.queue.jobs) == s;
      NothingRemoved(s.raw);
    }
  }

  lemma NothingRemoved(raw: Raw)
    ensures WithoutFacts(raw, {}) == raw
  {
  }

  lemma NothingLeft(s: State, at: Setting)
    ensures Victims(Reclaim(s, at), at) == {}
  {
    hide Pinned;
    VictimsArePinnedFree(s, at);
    PinnedSurvives(s.raw, s.queue.jobs, Victims(s, at));
  }

  lemma {:induction false} SettlesOnward(s: State, jobs: seq<Job>, r: Request, at: Setting, attempts: nat)
    requires 0 < attempts <= MAX_ATTEMPTS
    ensures var t := Settle(Reclaim(WithRows(s, jobs), at), r, at, attempts);
            t.raw == WithoutFacts(s.raw, Victims(WithRows(s, t.queue.jobs), at))
    decreases MAX_ATTEMPTS - attempts, 1
  {
    hide Victims, WithoutFacts, Charge, Fits, First, Retire, OnlyRetires, Settle;
    var from := WithRows(s, jobs);
    var once := Reclaim(from, at);
    var t := Settle(once, r, at, attempts);
    NothingLeft(from, at);
    SettleIsOneReclaim(once, r, at, attempts);
    SettleKeeps(once, r, at, attempts);
    ReclaimsMerge(from, t.queue.jobs, at);
    assert WithRows(from, t.queue.jobs) == WithRows(s, t.queue.jobs);
    assert WithRows(once, t.queue.jobs).raw == once.raw;
    SameVictims(WithRows(from, t.queue.jobs).(raw := once.raw), WithRows(once, t.queue.jobs), at);
    if Fits(once, r) {
      FitsAtOnce(once, r, at, attempts);
      NothingRemoved(once.raw);
      assert WithRows(once, once.queue.jobs) == once;
    }
  }

  /** What is reclaimed depends on the raw rows, the job rows and the trails only. */
  lemma SameVictims(s: State, t: State, at: Setting)
    requires s.raw == t.raw && s.queue.jobs == t.queue.jobs && s.members == t.members
    ensures Victims(s, at) == Victims(t, at)
  {
  }

  // ---------------------------------------------------------------- a turn of the head's session

  /**
   * After a stored segment of the walk the counter counts stored commits only if and only if the commits before the
   * segment were all stored when it was inserted.
   */
  lemma StoredTurnClaimsExactly(s: State, r: Request, at: Setting, w: Walked)
    requires Topological(w) && DistinctCommits(w) && DistinctHeads(s.queue.jobs)
    requires r.Caller() == w.head && Segment(r, w) && Stage(s, r, at).stored
    ensures var t := Stage(s, r, at).state;
            Claim(t.raw, t.queue.jobs, w) <==> Stored(Settle(s, r, at, 0).raw, w, r.completed - |r.batch.facts|)
  {
    hide Settle, Fits, Bound, PlanFor, AddPlan, ProduceFacts, UpsertRow, RowOf, Topological, Segment, Stored,
      DistinctHeads, DistinctCommits, Claim;
    SegmentBounds(r, w);
    SettledHeads(s, r, at);
    var t := Settle(s, r, at, 0);
    UpsertShape(t.queue.jobs, RunningRow(r));
    BoundClaims(Insert(t, r, PlanFor(t, r), at.now), at, w, RunningRow(r));
    InsertStoresExactly(t, r, at.now, w);
  }

  /** The same before the call, for a batch that fits as it is. */
  lemma FittingTurnClaimsExactly(s: State, r: Request, at: Setting, w: Walked)
    requires Topological(w) && DistinctCommits(w) && DistinctHeads(s.queue.jobs)
    requires r.Caller() == w.head && Segment(r, w) && Fits(s, r)
    ensures var done := Stage(s, r, at);
            && done.stored
            && (Claim(done.state.raw, done.state.queue.jobs, w) <==> Stored(s.raw, w, r.completed - |r.batch.facts|))
  {
    hide Fits, Bound, PlanFor, AddPlan, ProduceFacts, UpsertRow, RowOf, Topological, Segment, Stored, DistinctHeads,
      DistinctCommits, Claim, Reclaim, EvictLru;
    StoredTurnClaimsExactly(s, r, at, w);
  }

  /** The commits before the segment survive making room. */
  ghost predicate Survive(s: State, after: seq<Job>, at: Setting, w: Walked, count: nat)
    requires count <= |w.commits|
  {
    forall i :: 0 <= i < count ==> w.commits[i] !in Victims(WithRows(s, after), at)
  }

  /** The row of the head pins what it counts. */
  predicate Live(jobs: seq<Job>, head: Key) {
    RowOf(jobs, head).Some? && Pins(RowOf(jobs, head).value.state)
  }

  /** A live row pins its own stored prefix, so making room takes none of it. */
  lemma LiveSurvives(s: State, r: Request, at: Setting, w: Walked, count: nat)
    requires Topological(w) && r.Caller() == w.head && Live(s.queue.jobs, w.head)
    requires count <= |w.commits| && Stored(s.raw, w, count)
    ensures Survive(s, Settle(s, r, at, 0).queue.jobs, at, w, count)
  {
    hide Settle, Pinned, Topological, Stored, OnlyRemoves, RowOf;
    var after := Settle(s, r, at, 0).queue.jobs;
    SettleKeeps(s, r, at, 0);
    RetiresRow(s.queue.jobs, after, w.head);
    LiveIsPinned(after, w.head);
    StoredIsPinned(s.raw, after, w, count);
  }

  /**
   * A stored turn, judged before the call. If the row is live the commits before the segment must be stored. If it is
   * retired or absent they must also survive making room: each of them pinned by a row that is left, in a trail,
   * recent, or in a repository being indexed.
   */
  lemma StoredTurnClaimsBefore(s: State, r: Request, at: Setting, w: Walked)
    requires Topological(w) && DistinctCommits(w) && DistinctHeads(s.queue.jobs)
    requires r.Caller() == w.head && Segment(r, w) && Stage(s, r, at).stored
    ensures var t, start := Stage(s, r, at).state, r.completed - |r.batch.facts|;
            Claim(t.raw, t.queue.jobs, w) <==>
              && Stored(s.raw, w, start)
              && (|| Live(s.queue.jobs, w.head)
                  || Fits(s, r)
                  || Survive(s, Settle(s, r, at, 0).queue.jobs, at, w, start))
  {
    hide Stage, Settle, Fits, Segment, Topological, DistinctCommits, DistinctHeads, Claim, Victims, WithoutFacts,
      Live, Stored;
    SegmentBounds(r, w);
    var start := r.completed - |r.batch.facts|;
    StoredTurnClaimsExactly(s, r, at, w);
    SettleIsOneReclaim(s, r, at, 0);
    if !Fits(s, r) {
      RemainStored(s.raw, Victims(WithRows(s, Settle(s, r, at, 0).queue.jobs), at), w, start);
      if Live(s.queue.jobs, w.head) && Stored(s.raw, w, start) {
        LiveSurvives(s, r, at, w, start);
      }
    }
  }

  lemma RemainStored(raw: Raw, victims: set<Key>, w: Walked, count: nat)
    requires count <= |w.commits|
    ensures Stored(WithoutFacts(raw, victims), w, count)
       <==> Stored(raw, w, count) && forall i :: 0 <= i < count ==> w.commits[i] !in victims
  {
    var after := WithoutFacts(raw, victims);
    if Stored(after, w, count) {
      forall i | 0 <= i < count ensures StoredAt(raw, w, i) && w.commits[i] !in victims {
        assert StoredAt(after, w, i);
      }
    }
    if Stored(raw, w, count) && forall i :: 0 <= i < count ==> w.commits[i] !in victims {
      forall i | 0 <= i < count ensures StoredAt(after, w, i) {
        assert StoredAt(raw, w, i);
      }
    }
  }

  /** The counter that a refused turn leaves: the row's own, or the one before the batch if there was no row. */
  function RefusedCount(jobs: seq<Job>, r: Request): nat {
    var row := RowOf(jobs, r.Caller());
    if row.Some? then row.value.completed else PausedRow(r).completed
  }

  lemma RefusedTurnClaimsThen(s: State, r: Request, at: Setting, w: Walked)
    requires Topological(w) && DistinctHeads(s.queue.jobs) && r.Caller() == w.head && !Stage(s, r, at).stored
    ensures var t := Stage(s, r, at).state;
            Claim(t.raw, t.queue.jobs, w) <==> Covers(Settle(s, r, at, 0).raw, w, RefusedCount(s.queue.jobs, r))
  {
    hide Settle, Fits, Bound, PauseRow, RowOf, Topological, Covers, DistinctHeads, Claim, OnlyRetires, OnlyRemoves;
    SettledHeads(s, r, at);
    SettleKeeps(s, r, at, 0);
    var t := Settle(s, r, at, 0);
    RetiresRow(s.queue.jobs, t.queue.jobs, w.head);
    PauseShape(t.queue.jobs, PausedRow(r));
    var paused := t.(queue := t.queue.(jobs := PauseRow(t.queue.jobs, PausedRow(r))));
    BoundClaims(paused, at, w, RowOf(paused.queue.jobs, w.head).value);
  }

  lemma RefusedNeverFit(s: State, r: Request, at: Setting)
    requires !Stage(s, r, at).stored
    ensures !Fits(s, r)
  {
    hide Fits, Reclaim, EvictLru;
  }

  /**
   * A refused turn, judged before the call: it pauses the row with its old counter. If the row is live what it counts
   * must be stored. If it is retired or absent that prefix must also survive the attempts to make room.
   */
  lemma RefusedTurnClaimsExactly(s: State, r: Request, at: Setting, w: Walked)
    requires Topological(w) && DistinctHeads(s.queue.jobs) && r.Caller() == w.head && !Stage(s, r, at).stored
    ensures var t, count := Stage(s, r, at).state, RefusedCount(s.queue.jobs, r);
            Claim(t.raw, t.queue.jobs, w) <==>
              && Covers(s.raw, w, count)
              && (Live(s.queue.jobs, w.head) || Survive(s, Settle(s, r, at, 0).queue.jobs, at, w, count))
  {
    hide Stage, Settle, Fits, Topological, DistinctHeads, Claim, Victims, WithoutFacts, Live, Stored, RowOf;
    var count := RefusedCount(s.queue.jobs, r);
    RefusedNeverFit(s, r, at);
    RefusedTurnClaimsThen(s, r, at, w);
    SettleIsOneReclaim(s, r, at, 0);
    if count <= |w.commits| {
      RemainStored(s.raw, Victims(WithRows(s, Settle(s, r, at, 0).queue.jobs), at), w, count);
      if Live(s.queue.jobs, w.head) && Stored(s.raw, w, count) {
        LiveSurvives(s, r, at, w, count);
      }
    }
  }

  /** With a live row the whole condition is on stored rows: those before the segment, or those the row counts. */
  lemma LiveTurnClaimsExactly(s: State, r: Request, at: Setting, w: Walked)
    requires Topological(w) && DistinctCommits(w) && DistinctHeads(s.queue.jobs)
    requires r.Caller() == w.head && Segment(r, w) && Live(s.queue.jobs, w.head)
    ensures var done := Stage(s, r, at);
            Claim(done.state.raw, done.state.queue.jobs, w) <==>
              Covers(s.raw, w, if done.stored then r.completed - |r.batch.facts|
                               else RowOf(s.queue.jobs, w.head).value.completed)
  {
    hide Stage, Settle, Fits, Topological, DistinctCommits, DistinctHeads, Claim, Segment, Stored, RowOf, Survive;
    SegmentBounds(r, w);
    if Stage(s, r, at).stored {
      StoredTurnClaimsBefore(s, r, at, w);
    } else {
      RefusedTurnClaimsExactly(s, r, at, w);
    }
  }

  // ---------------------------------------------------------------- a change of state

  /** The row is deleted by the trimming that follows a terminal state. */
  predicate Trimmed(s: State, head: Key, state: JobState) {
    var queue := s.queue.(jobs := SetState(s.queue.jobs, head, state));
    var count := TerminalCount(queue.jobs);
    Terminal(state) && RowOf(Trim(queue, if count > MAX_TERMINAL then count - MAX_TERMINAL else 0).jobs, head).None?
  }

  /**
   * A change of state leaves a right claim if and only if the row is absent or trimmed away, the new state pins
   * nothing, or the commits that the old row counts are stored. Reviving a retired row can thus break the claim.
   */
  lemma StateChangeClaimsExactly(s: State, state: JobState, at: Setting, w: Walked)
    requires Topological(w) && DistinctHeads(s.queue.jobs)
    ensures var t := ChangeState(s, w.head, state, at); var row := RowOf(s.queue.jobs, w.head);
            Claim(t.raw, t.queue.jobs, w) <==>
              row.None? || !Pins(state) || Trimmed(s, w.head, state) || Covers(s.raw, w, row.value.completed)
  {
    hide Reclaim, Bound, Trim, SetState, TerminalCount, RowOf, Topological, Covers, Claim, DistinctHeads, OnlyRemoves;
    var queue, row := s.queue.(jobs := SetState(s.queue.jobs, w.head, state)), RowOf(s.queue.jobs, w.head);
    var t := ChangeState(s, w.head, state, at);
    SetStateRow(s.queue.jobs, w.head, state, w.head);
    SetStateDistinct(s.queue.jobs, w.head, state);
    if Active(state) {
      BoundHolds(s.(queue := queue), Some(w.head), at);
      if row.Some? {
        BoundClaims(s.(queue := queue), at, w, row.value.(state := state));
      } else {
        RetiresRow(queue.jobs, t.queue.jobs, w.head);
        DeadClaim(t.raw, t.queue.jobs, w);
      }
    } else if Terminal(state) {
      TrimmedClaims(s, state, at, w);
    } else {
      DeadClaim(t.raw, t.queue.jobs, w);
    }
  }

  lemma {:induction false} DeadClaim(raw: Raw, jobs: seq<Job>, w: Walked)
    requires RowOf(jobs, w.head).None? || !Pins(RowOf(jobs, w.head).value.state)
    ensures Claim(raw, jobs, w)
  {
  }

  lemma TrimmedClaims(s: State, state: JobState, at: Setting, w: Walked)
    requires Topological(w) && DistinctHeads(s.queue.jobs) && Terminal(state)
    ensures var t := ChangeState(s, w.head, state, at); var row := RowOf(s.queue.jobs, w.head);
            Claim(t.raw, t.queue.jobs, w) <==>
              row.None? || !Pins(state) || Trimmed(s, w.head, state) || Covers(s.raw, w, row.value.completed)
  {
    hide Reclaim, Trim, SetState, TerminalCount, RowOf, Topological, Covers, Claim, DistinctHeads, OnlyRemoves;
    var queue, row := s.queue.(jobs := SetState(s.queue.jobs, w.head, state)), RowOf(s.queue.jobs, w.head);
    SetStateRow(s.queue.jobs, w.head, state, w.head);
    SetStateDistinct(s.queue.jobs, w.head, state);
    var count := TerminalCount(queue.jobs);
    var n: nat := if count > MAX_TERMINAL then count - MAX_TERMINAL else 0;
    TrimKeeps(queue, n, w.head);
    var trimmed := s.(queue := Trim(queue, n));
    var t := Reclaim(trimmed, at);
    ReclaimStep(trimmed, at);
    var left := RowOf(trimmed.queue.jobs, w.head);
    if left.None? || !Pins(state) {
      DeadClaim(t.raw, t.queue.jobs, w);
    } else {
      LiveClaim(s.raw, trimmed.queue.jobs, w, left.value);
      LiveClaim(t.raw, t.queue.jobs, w, left.value);
      if Claim(s.raw, trimmed.queue.jobs, w) {
        ReclaimKeepsClaim(trimmed, at, w);
      }
      if Claim(t.raw, t.queue.jobs, w) {
        RemovingUncovers(s.raw, t.raw, w, left.value.completed);
      }
    }
  }
}
