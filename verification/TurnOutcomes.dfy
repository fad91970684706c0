/** What one turn of a prefetch session leaves in the row of its head. */
module TurnOutcomes {
  import opened Batches
  import opened Prefix
  import opened Quota
  import opened Results
  import opened Sessions
  import opened Staging

  /** The row now has this state, and everything else as before. */
  predicate Moved(before: Job, after: Job, state: JobState) {
    && after.state == state && after.head == before.head && after.ceiling == before.ceiling
    && after.completed == before.completed && after.checkpoint == before.checkpoint
  }

  lemma {:induction false} DistinctRowsCount(jobs: seq<Job>)
    requires DistinctHeads(jobs)
    ensures |OverRows(jobs)| == TerminalCount(jobs)
  {
    if jobs == [] {
      assert OverRows(jobs) == {};
    } else {
      DistinctRowsCount(jobs[..|jobs| - 1]);
      OverRowsLast(jobs);
      LastIsNew(jobs);
    }
  }

  lemma LastIsNew(jobs: seq<Job>)
    requires DistinctHeads(jobs) && jobs != []
    ensures jobs[|jobs| - 1] !in OverRows(jobs[..|jobs| - 1])
  {
  }

  /**
   * A change of state moves the row of the head to that state and leaves the rest of the row. The row is deleted only
   * if the state is terminal and more than 256 rows are then in such a state.
   */
  lemma StateChangeRow(s: State, head: Key, state: JobState, at: Setting)
    requires DistinctHeads(s.queue.jobs)
    ensures var before, after := RowOf(s.queue.jobs, head), RowOf(ChangeState(s, head, state, at).queue.jobs, head);
            && DistinctHeads(ChangeState(s, head, state, at).queue.jobs)
            && (after.Some? ==> before.Some? && Moved(before.value, after.value, state))
            && (before.Some? && after.None? ==>
                  state in {Ready, PausedDemand, Obsolete} && |OverRows(SetState(s.queue.jobs, head, state))| > 256)
  {
    hide Bound, Trim, SetState, TerminalCount, RowOf, DistinctHeads, Victims, Charge, OverRows;
    var queue := s.queue.(jobs := SetState(s.queue.jobs, head, state));
    SetStateRow(s.queue.jobs, head, state, head);
    SetStateDistinct(s.queue.jobs, head, state);
    RowOfMember(s.queue.jobs, head);
    DistinctRowsCount(queue.jobs);
    TrimKeeps(queue, if TerminalCount(queue.jobs) > 256 then TerminalCount(queue.jobs) - 256 else 0, head);
    assert Trim(queue, 0) == queue by { NothingTrimmed(queue); }
    if RowOf(s.queue.jobs, head).Some? {
      BoundKeepsCaller(s.(queue := queue), head, at);
    } else {
      BoundHeads(s.(queue := queue), head, at);
    }
  }

  lemma NothingTrimmed(queue: Queue)
    ensures Trim(queue, 0) == queue
  {
  }

  lemma BoundHeads(s: State, head: Key, at: Setting)
    requires DistinctHeads(s.queue.jobs) && RowOf(s.queue.jobs, head).None?
    ensures RowOf(Bound(s, Some(head), at).queue.jobs, head).None?
    ensures DistinctHeads(Bound(s, Some(head), at).queue.jobs)
  {
    hide Bound, RowOf, ActiveCount;
    BoundHolds(s, Some(head), at);
    RowOfMember(s.queue.jobs, head);
    RowOfMember(Bound(s, Some(head), at).queue.jobs, head);
  }

  /** How many of the walk's commits are demanded: no more than the ceiling, the demanded depth and the walk allow. */
  ghost predicate Demanded(p: Sessions.Plan, o: Outside, n: nat) {
    && n <= o.justified && n <= p.ceiling && n <= |p.walk|
    && (n == o.justified || n == p.ceiling || n == |p.walk|)
  }

  /**
   * What a turn leaves in the row of its head. At the end of the walk it is ready; else, when the service stops, paused
   * for the shutdown; else without any demand obsolete, and beyond the demand paused for it. Otherwise the next commits
   * are staged: refused, the row is paused for capacity; stored, it counts them and is running, or ready once the
   * demand is met. Only a ready, obsolete or demand-paused row may be trimmed at once.
   */
  lemma TurnLeaves(s: State, p: Sessions.Plan, position: nat, o: Outside, at: Setting, n: nat, end: nat)
    requires DistinctHeads(s.queue.jobs) && Demanded(p, o, n)
    requires position < n ==> end == if position + 64 < n then position + 64 else n
    ensures var (t, next) := TurnStep(s, p, position, o, at);
            var before, after := RowOf(s.queue.jobs, Key(p.repo, p.head)), RowOf(t.queue.jobs, Key(p.repo, p.head));
            && (position >= |p.walk| ==>
                  next == position
                  && (after.Some? ==> before.Some? && Moved(before.value, after.value, Ready)))
            && (position < |p.walk| && o.stopping ==>
                  next == position && (after.Some? <==> before.Some?)
                  && (after.Some? ==> Moved(before.value, after.value, PausedShutdown)))
            && (position < |p.walk| && !o.stopping && n == 0 ==>
                  next == position
                  && (after.Some? ==> before.Some? && Moved(before.value, after.value, Obsolete)))
            && (position < |p.walk| && !o.stopping && 0 < n <= position ==>
                  next == position
                  && (after.Some? ==> before.Some? && Moved(before.value, after.value, PausedDemand)))
            && (position < n && !o.stopping && o.collected.None? ==> next == position && t == s)
            && (position < n && !o.stopping && o.collected.Some? ==>
                  var facts := o.collected.value;
                  && (next == position || next == end)
                  && (next == position ==> after.Some? && after.value.state == PausedCapacity)
                  && (next == end && after.Some? ==>
                        && after.value.state == (if end < n then Running else Ready)
                        && after.value.completed == end && after.value.ceiling == n
                        && (facts != [] ==> after.value.checkpoint == Some(facts[|facts| - 1].oid)))
                  && (next == end && end < n ==> after.Some?))
  {
    hide Stage, ChangeState, RowOf, DistinctHeads, RequestFor;
    var head := HeadKey(p);
    assert Target(p, o) == n;
    assert position < n ==> TurnEnd(p, position, o) == end;
    match TurnOp(p, position, o)
    case None =>
    case Some(StageOp(r)) =>
      CallerSurvives(s, r, at);
      RequestMeans(p, position, o, o.collected.value);
      StateChangeRow(Stage(s, r, at).state, head, Ready, at);
    case Some(StateOp(_, state)) =>
      StateChangeRow(s, head, state, at);
    case _ =>
  }

  lemma RequestMeans(p: Sessions.Plan, position: nat, o: Outside, facts: seq<BatchFact>)
    ensures var r := RequestFor(p, position, o, facts);
            && r.head == p.head && r.ceiling == Target(p, o) && r.completed == TurnEnd(p, position, o)
            && r.batch.repo == p.repo && r.batch.facts == facts && r.quota == o.quota
  {
  }
}
