/** A prefetch session: where it resumes, and what one turn does. */
module Sessions {
  import opened Batches
  import opened Conservation
  import opened Prefix
  import opened Quota
  import opened Results
  import opened Staging
  import opened StagingStores

  /** `walk` lists at most `ceiling` commits, newest first; `parents` are theirs in git. */
  datatype Plan = Plan(repo: int, head: string, ceiling: nat, walk: seq<string>, parents: map<string, seq<string>>)

  datatype Turn = More | Done

  /** What a turn reads from outside: the stop flag, the demanded depth of this head, and the collected facts. */
  datatype Outside = Outside(stopping: bool, justified: nat, collected: Option<seq<BatchFact>>, quota: nat)

  const TURN_SIZE: nat := 64

  function Min(a: nat, b: nat): nat {
    if a < b then a else b
  }

  function HeadKey(p: Plan): Key {
    Key(p.repo, p.head)
  }

  // ---------------------------------------------------------------- resuming

  /** The recorded counter, if it points into the walk and its checkpoint is the commit before it. */
  function Recorded(p: Plan, jobs: seq<Job>): (n: nat)
    ensures n <= |p.walk|
  {
    var row := RowOf(jobs, HeadKey(p));
    if row.None? then 0
    else
      var count := row.value.completed;
      if count > |p.walk| || (count > 0 && row.value.checkpoint != Some(p.walk[count - 1])) then 0 else count
  }

  ghost predicate HasFacts(p: Plan, raw: Raw, n: nat)
    requires n <= |p.walk|
  {
    forall i :: 0 <= i < n ==> Key(p.repo, p.walk[i]) in raw.facts
  }

  /** Where a session starts: at the recorded counter, cut at the first missing fact. */
  ghost predicate Resumes(p: Plan, s: State, position: nat) {
    && position <= Recorded(p, s.queue.jobs)
    && HasFacts(p, s.raw, position)
    && (position < Recorded(p, s.queue.jobs) ==> Key(p.repo, p.walk[position]) !in s.raw.facts)
  }

  // ---------------------------------------------------------------- one turn

  function Target(p: Plan, o: Outside): nat {
    Min(Min(o.justified, p.ceiling), |p.walk|)
  }

  function TurnEnd(p: Plan, position: nat, o: Outside): nat {
    Min(position + TURN_SIZE, Target(p, o))
  }

  function RequestFor(p: Plan, position: nat, o: Outside, facts: seq<BatchFact>): Request {
    var known := map f | f in facts && f.oid in p.parents :: f.oid := p.parents[f.oid];
    Request(p.head, Target(p, o), TurnEnd(p, position, o), Batch(p.repo, facts, known), o.quota)
  }

  /** The operation a turn performs on the store, if any. */
  function TurnOp(p: Plan, position: nat, o: Outside): Option<Op> {
    if position >= |p.walk| then Some(StateOp(HeadKey(p), Ready))
    else if o.stopping then Some(StateOp(HeadKey(p), PausedShutdown))
    else if Target(p, o) == 0 then Some(StateOp(HeadKey(p), Obsolete))
    else if position >= Target(p, o) then Some(StateOp(HeadKey(p), PausedDemand))
    else if o.collected.None? then None
    else Some(StageOp(RequestFor(p, position, o, o.collected.value)))
  }

  /** The tables and the position after a turn. */
  ghost function TurnStep(s: State, p: Plan, position: nat, o: Outside, at: Setting): (State, nat) {
    match TurnOp(p, position, o)
    case None => (s, position)
    case Some(StageOp(r)) =>
      var done := Stage(s, r, at);
      var end := TurnEnd(p, position, o);
      if !done.stored then (done.state, position)
      else if end < Target(p, o) then (done.state, end)
      else (ChangeState(done.state, HeadKey(p), Ready, at), end)
    case Some(op) => (Apply(s, Move(op, at)), position)
  }

  /** The turn stored its batch and more of the walk is demanded. */
  ghost predicate TurnMore(s: State, p: Plan, position: nat, o: Outside, at: Setting) {
    match TurnOp(p, position, o)
    case Some(StageOp(r)) => Stage(s, r, at).stored && TurnEnd(p, position, o) < Target(p, o)
    case _ => false
  }

  /** The collected facts are those of the next segment of the walk, in order. */
  ghost predicate Collected(p: Plan, position: nat, o: Outside) {
    o.collected.Some? && position < Target(p, o) ==>
      var facts := o.collected.value;
      && |facts| == TurnEnd(p, position, o) - position
      && forall k :: 0 <= k < |facts| ==> facts[k].oid == p.walk[position + k]
  }

  class PrefetchSession {
    const plan: Plan
    const store: StagingStore
    var position: nat

    /** `start_target` after the walk: trust the counter only as far as the facts survive. */
    constructor (plan: Plan, store: StagingStore)
      ensures this.plan == plan && this.store == store
      ensures Resumes(plan, store.Tables(), position)
    {
      var recorded := Recorded(plan, store.queue.jobs);
      var index: nat := 0;
      while index < recorded
        invariant index <= recorded
        invariant HasFacts(plan, store.raw, index)
      {
        if Key(plan.repo, plan.walk[index]) !in store.raw.facts {
          break;
        }
        index := index + 1;
      }
      this.plan, this.store, position := plan, store, index;
    }

    /** One turn. It fails, changing nothing, when the facts could not be collected. */
    method Advance(o: Outside, at: Setting) returns (turn: Result<Turn, string>)
      requires Collected(plan, position, o)
      modifies this, store
      ensures var op := TurnOp(plan, old(position), o); turn.Failure? <==> op.None?
      ensures (store.Tables(), position) == TurnStep(old(store.Tables()), plan, old(position), o, at)
      ensures turn.Failure? ==> position == old(position) && store.Tables() == old(store.Tables())
      ensures turn == Success(More) <==> TurnMore(old(store.Tables()), plan, old(position), o, at)
      ensures turn == Success(More) ==> old(position) < position <= old(position) + TURN_SIZE && position < |plan.walk|
    {
      hide ChangeState, Stage;
      var target := |plan.walk|;
      if position < |plan.walk| {
        if o.stopping {
          store.SetPrefetchState(HeadKey(plan), PausedShutdown, at);
          return Success(Done);
        }
        target := Target(plan, o);
        if target == 0 {
          store.SetPrefetchState(HeadKey(plan), Obsolete, at);
          return Success(Done);
        }
        if position >= target {
          store.SetPrefetchState(HeadKey(plan), PausedDemand, at);
          return Success(Done);
        }
        if o.collected.None? {
          return Failure("missing raw commit fact");
        }
        var request := RequestFor(plan, position, o, o.collected.value);
        var stored := store.RecordBatch(request, at);
        if !stored {
          return Success(Done);
        }
        position := TurnEnd(plan, position, o);
      }
      if position < target {
        return Success(More);
      }
      store.SetPrefetchState(HeadKey(plan), Ready, at);
      return Success(Done);
    }
  }

  // ---------------------------------------------------------------- sessions follow their walk

  function Keys(repo: int, oids: seq<string>): seq<Key> {
    seq(|oids|, i requires 0 <= i < |oids| => Key(repo, oids[i]))
  }

  function ParentKeys(repo: int, parents: map<string, seq<string>>, oid: string): set<Key> {
    if oid in parents then set parent | parent in parents[oid] :: Key(repo, parent) else {}
  }

  function WalkOf(p: Plan): Walked {
    Walked(HeadKey(p), Keys(p.repo, p.walk),
      map oid | oid in p.walk :: Key(p.repo, oid) := ParentKeys(p.repo, p.parents, oid))
  }

  /** The batch of a turn is the next segment of the walk, with all its parents, and holds at most 64 commits. */
  lemma TurnIsSegment(p: Plan, position: nat, o: Outside)
    requires Collected(p, position, o) && position < |p.walk|
    requires TurnOp(p, position, o).Some? && TurnOp(p, position, o).value.StageOp?
    ensures var r := TurnOp(p, position, o).value.request;
            && Segment(r, WalkOf(p))
            && 0 < |r.batch.facts| <= TURN_SIZE
            && r.completed - |r.batch.facts| == position
            && r.Caller() == WalkOf(p).head
  {
    var r, w := TurnOp(p, position, o).value.request, WalkOf(p);
    forall k | 0 <= k < |r.batch.facts| ensures SegmentAt(r, w, k) {
      var oid := p.walk[position + k];
      assert r.batch.facts[k] in r.batch.facts && r.batch.facts[k].oid == oid;
      assert w.commits[position + k] == Key(p.repo, oid) && oid in p.walk;
      assert w.Parents(position + k) == ParentKeys(p.repo, p.parents, oid);
    }
  }

  /**
   * While the row of the head is resumable and counts at least as far as the session, a turn follows the walk, so
   * prefix retention applies to it; a stored turn re-establishes that the counter equals the position.
   */
  lemma TurnFollows(s: State, p: Plan, position: nat, o: Outside, at: Setting)
    requires Collected(p, position, o) && DistinctHeads(s.queue.jobs)
    requires Resumable(s.queue.jobs, HeadKey(p)) && position <= ClaimedCount(s.queue.jobs, HeadKey(p))
    requires TurnOp(p, position, o).Some?
    ensures var op := TurnOp(p, position, o).value;
            && Follows(s, op, WalkOf(p))
            && (op.StageOp? && Stage(s, op.request, at).stored ==>
                  RowOf(Stage(s, op.request, at).state.queue.jobs, HeadKey(p)) == Some(RunningRow(op.request))
                  && op.request.completed == TurnEnd(p, position, o))
  {
    hide RowOf, Stage, Segment, Collected, DistinctHeads;
    var op := TurnOp(p, position, o).value;
    if op.StageOp? {
      TurnIsSegment(p, position, o);
      CallerSurvives(s, op.request, at);
    }
  }

  /**
   * A session that starts after a stored turn resumes where that turn ended: its counter and checkpoint are trusted.
   */
  lemma StoredTurnIsResumable(s: State, p: Plan, position: nat, o: Outside, at: Setting)
    requires Collected(p, position, o) && position < |p.walk| && DistinctHeads(s.queue.jobs)
    requires TurnOp(p, position, o).Some? && TurnOp(p, position, o).value.StageOp?
    requires Stage(s, TurnOp(p, position, o).value.request, at).stored
    ensures Recorded(p, Stage(s, TurnOp(p, position, o).value.request, at).state.queue.jobs) == TurnEnd(p, position, o)
  {
    hide RowOf, Stage, DistinctHeads;
    var r := TurnOp(p, position, o).value.request;
    CallerSurvives(s, r, at);
    assert r.batch.facts[|r.batch.facts| - 1].oid == p.walk[TurnEnd(p, position, o) - 1];
  }

  /** A session that starts on a row resumes no further than the row counts. */
  lemma {:induction false} ResumesWithinClaim(p: Plan, jobs: seq<Job>)
    ensures Recorded(p, jobs) <= ClaimedCount(jobs, HeadKey(p)) && Recorded(p, jobs) <= |p.walk|
  {
  }

  /**
   * Where a session starts. It trusts the counter of the row only if that does not pass the walk and the checkpoint
   * names the commit before it; otherwise, and without a row, it starts at the beginning. A trusted counter is cut at
   * the first commit whose fact is missing.
   */
  lemma {:induction false} StartsExactly(p: Plan, s: State, position: nat)
    requires Resumes(p, s, position)
    ensures var row := RowOf(s.queue.jobs, HeadKey(p));
            var trusted := row.Some? && 0 < row.value.completed <= |p.walk|
                           && row.value.checkpoint == Some(p.walk[row.value.completed - 1]);
            && (!trusted ==> position == 0)
            && (trusted ==>
                  && position <= row.value.completed
                  && (forall i :: 0 <= i < position ==> Key(p.repo, p.walk[i]) in s.raw.facts)
                  && (position < row.value.completed ==> Key(p.repo, p.walk[position]) !in s.raw.facts))
  {
  }
}
