/** Runs in which one head is staged by sessions only, interleaved with any other operations on the tables. */
module SessionRuns {
  import opened Batches
  import opened Conservation
  import opened Prefix
  import opened Quota
  import opened Results
  import opened Sessions
  import opened Staging

  /** A turn of the session, the start of a new session of the same head, or another operation. */
  datatype Event =
    | TurnEvent(outside: Outside)
    | StartEvent(plan: Sessions.Plan, position: nat)
    | OtherEvent(op: Op)

  datatype Timed = Timed(event: Event, at: Setting)

  /** The tables, and the plan and position of the head's current session. */
  datatype World = World(state: State, plan: Sessions.Plan, position: nat) {
    ghost function Row(whole: Sessions.Plan): Option<Job> {
      RowOf(state.queue.jobs, HeadKey(whole))
    }
  }

  /** A session may walk a shorter part of the whole walk, under another ceiling. */
  ghost predicate Shortens(p: Sessions.Plan, whole: Sessions.Plan) {
    && HeadKey(p) == HeadKey(whole)
    && p.walk <= whole.walk
    && forall oid :: oid in p.walk ==> ParentKeys(p.repo, p.parents, oid) == ParentKeys(whole.repo, whole.parents, oid)
  }

  ghost function Happens(world: World, e: Timed): World {
    match e.event
    case TurnEvent(o) =>
      var (s, position) := TurnStep(world.state, world.plan, world.position, o, e.at);
      World(s, world.plan, position)
    case StartEvent(plan, position) => World(world.state, plan, position)
    case OtherEvent(op) => World(Apply(world.state, Move(op, e.at)), world.plan, world.position)
  }

  ghost function After(world: World, events: seq<Timed>): World {
    if events == [] then world else Happens(After(world, events[..|events| - 1]), events[|events| - 1])
  }

  /**
   * A turn collects the facts it asked for; a session starts where it resumes, on a part of the whole walk that its
   * target selects; and nothing else stages for this head.
   */
  ghost predicate Proper(world: World, whole: Sessions.Plan, e: Timed) {
    match e.event
    case TurnEvent(o) => Collected(world.plan, world.position, o)
    case StartEvent(plan, position) => Shortens(plan, whole) && Resumes(plan, world.state, position)
    case OtherEvent(op) => op.StageOp? ==> op.request.Caller() != HeadKey(whole)
  }

  ghost predicate AllProper(world: World, whole: Sessions.Plan, events: seq<Timed>) {
    forall i :: 0 <= i < |events| ==> Proper(After(world, events[..i]), whole, events[i])
  }

  /** The turn writes the row of the head. */
  ghost predicate Writes(world: World, e: Timed) {
    e.event.TurnEvent? && var op := TurnOp(world.plan, world.position, e.event.outside); op.Some? && op.value.StageOp?
  }

  /** A row that is there, or is written by this event, is there afterwards, and is not retired. */
  ghost predicate Lives(world: World, whole: Sessions.Plan, e: Timed) {
    var after := Happens(world, e);
    && (world.Row(whole).Some? || Writes(world, e) ==> after.Row(whole).Some?)
    && (after.Row(whole).Some? ==> Pins(after.Row(whole).value.state))
  }

  /** The row of the head, once written, is neither retired nor deleted. */
  ghost predicate StaysLive(world: World, whole: Sessions.Plan, events: seq<Timed>) {
    forall i :: 0 <= i < |events| ==> Lives(After(world, events[..i]), whole, events[i])
  }

  /** The session is never ahead of its row, and the row counts stored commits only. */
  ghost predicate Behind(world: World, whole: Sessions.Plan) {
    && DistinctHeads(world.state.queue.jobs)
    && Shortens(world.plan, whole)
    && Claim(world.state.raw, world.state.queue.jobs, WalkOf(whole))
    && match world.Row(whole)
       case None => world.position == 0
       case Some(row) => Pins(row.state) && world.position <= row.completed
  }

  // ---------------------------------------------------------------- other operations leave the counter alone

  lemma BoundRow(s: State, caller: Option<Key>, at: Setting, head: Key)
    requires DistinctHeads(s.queue.jobs)
    ensures var before, after := RowOf(s.queue.jobs, head), RowOf(Bound(s, caller, at).queue.jobs, head);
            && (before.None? <==> after.None?)
            && (after.Some? && Pins(after.value.state) ==> after == before)
  {
    hide Bound, RowOf, OnlyRetires, ActiveCount;
    BoundHolds(s, caller, at);
    RetiresRow(s.queue.jobs, Bound(s, caller, at).queue.jobs, head);
  }

  /** The row is absent on both sides, or a live row afterwards counts what the row before counted. */
  ghost predicate SameCounter(before: seq<Job>, after: seq<Job>, head: Key) {
    && (RowOf(before, head).None? ==> RowOf(after, head).None?)
    && (RowOf(after, head).Some? && Pins(RowOf(after, head).value.state) ==>
          RowOf(before, head).Some? && RowOf(after, head).value.completed == RowOf(before, head).value.completed)
  }

  lemma OtherStageCounter(s: State, r: Request, at: Setting, head: Key)
    requires DistinctHeads(s.queue.jobs) && r.Caller() != head
    ensures SameCounter(s.queue.jobs, Stage(s, r, at).state.queue.jobs, head)
  {
    hide Settle, Fits, Bound, PlanFor, AddPlan, ProduceFacts, UpsertRow, PauseRow, RowOf, DistinctHeads, OnlyRetires,
      OnlyRemoves;
    SettleKeeps(s, r, at, 0);
    SettledHeads(s, r, at);
    var t := Settle(s, r, at, 0);
    RetiresRow(s.queue.jobs, t.queue.jobs, head);
    if Fits(t, r) {
      OtherRowsStay(t.queue.jobs, RunningRow(r), head);
      UpsertShape(t.queue.jobs, RunningRow(r));
      BoundRow(Insert(t, r, PlanFor(t, r), at.now), Some(r.Caller()), at, head);
    } else {
      OtherRowsStay(t.queue.jobs, PausedRow(r), head);
      PauseShape(t.queue.jobs, PausedRow(r));
      BoundRow(t.(queue := t.queue.(jobs := PauseRow(t.queue.jobs, PausedRow(r)))), Some(r.Caller()), at, head);
    }
  }

  lemma StateCounter(s: State, target: Key, state: JobState, at: Setting, head: Key)
    requires DistinctHeads(s.queue.jobs)
    ensures SameCounter(s.queue.jobs, ChangeState(s, target, state, at).queue.jobs, head)
  {
    hide Bound, Trim, SetState, TerminalCount, RowOf, DistinctHeads, Victims, Charge;
    var queue := s.queue.(jobs := SetState(s.queue.jobs, target, state));
    SetStateRow(s.queue.jobs, target, state, head);
    SetStateDistinct(s.queue.jobs, target, state);
    var count := TerminalCount(queue.jobs);
    var n: nat := if count > MAX_TERMINAL then count - MAX_TERMINAL else 0;
    TrimKeeps(queue, n, head);
    BoundRow(s.(queue := queue), Some(target), at, head);
  }

  lemma OtherCounter(s: State, move: Move, head: Key)
    requires DistinctHeads(s.queue.jobs) && (move.op.StageOp? ==> move.op.request.Caller() != head)
    ensures SameCounter(s.queue.jobs, Apply(s, move).queue.jobs, head)
  {
    hide Stage, ChangeState, Bound, RowOf, DistinctHeads, Victims, Charge, AddBatch, Reuse, Demands;
    match move.op
    case StageOp(r) => OtherStageCounter(s, r, move.at, head);
    case StateOp(target, state) => StateCounter(s, target, state, move.at, head);
    case ReconcileOp => BoundRow(s, None, move.at, head);
    case _ =>
  }

  // ---------------------------------------------------------------- each event

  lemma OtherKeepsBehind(world: World, whole: Sessions.Plan, op: Op, at: Setting)
    requires Topological(WalkOf(whole)) && Behind(world, whole)
    requires op.StageOp? ==> op.request.Caller() != HeadKey(whole)
    requires Lives(world, whole, Timed(OtherEvent(op), at))
    ensures Behind(Happens(world, Timed(OtherEvent(op), at)), whole)
  {
    hide Apply, Claim, Topological, DistinctHeads, RowOf, Segment, Shortens;
    OtherCounter(world.state, Move(op, at), HeadKey(whole));
    StepKeepsClaim(world.state, Move(op, at), WalkOf(whole));
    StepKeepsHeads(world.state, Move(op, at));
  }

  /** A segment of a shorter walk is a segment of the whole one. */
  lemma ShorterSegment(p: Sessions.Plan, whole: Sessions.Plan, r: Request)
    requires Shortens(p, whole) && Segment(r, WalkOf(p))
    ensures Segment(r, WalkOf(whole))
  {
    var short, long := WalkOf(p), WalkOf(whole);
    forall k | 0 <= k < |r.batch.facts| ensures SegmentAt(r, long, k) {
      var i := r.completed - |r.batch.facts| + k;
      assert SegmentAt(r, short, k);
      assert p.walk[i] == whole.walk[i] && p.walk[i] in p.walk && whole.walk[i] in whole.walk;
      assert long.Parents(i) == short.Parents(i);
    }
  }

  /** A staged turn leaves a live row that counts at least as far as the session. */
  lemma StagedTurn(world: World, whole: Sessions.Plan, o: Outside, at: Setting)
    requires Topological(WalkOf(whole)) && Behind(world, whole) && Collected(world.plan, world.position, o)
    requires TurnOp(world.plan, world.position, o).Some? && TurnOp(world.plan, world.position, o).value.StageOp?
    ensures var p, r := world.plan, TurnOp(world.plan, world.position, o).value.request;
            var done := Stage(world.state, r, at);
            var position := if done.stored then TurnEnd(p, world.position, o) else world.position;
            && Behind(World(done.state, p, position), whole)
            && RowOf(done.state.queue.jobs, HeadKey(whole)).Some?
  {
    hide Stage, Claim, Topological, DistinctHeads, RowOf, Segment, Shortens;
    var r := TurnOp(world.plan, world.position, o).value.request;
    SameHead(world.plan, whole);
    TurnIsSegment(world.plan, world.position, o);
    ShorterSegment(world.plan, whole, r);
    StagedOwn(world.state, r, at, WalkOf(whole));
    CallerSurvives(world.state, r, at);
    if !Stage(world.state, r, at).stored {
      RefusedRow(world.state, r, at);
    }
  }

  lemma SameHead(p: Sessions.Plan, whole: Sessions.Plan)
    requires Shortens(p, whole)
    ensures HeadKey(p) == HeadKey(whole)
  {
  }

  /** A refused turn keeps the counter of the row, or starts one at the position before the batch. */
  lemma RefusedRow(s: State, r: Request, at: Setting)
    requires DistinctHeads(s.queue.jobs) && !Stage(s, r, at).stored
    ensures var row := RowOf(Stage(s, r, at).state.queue.jobs, r.Caller());
            && row.Some?
            && row.value.completed == match RowOf(s.queue.jobs, r.Caller())
                                      case None => PausedRow(r).completed
                                      case Some(before) => before.completed
  {
    hide Settle, Fits, Bound, PauseRow, RowOf, DistinctHeads, OnlyRetires, OnlyRemoves;
    SettledHeads(s, r, at);
    SettleKeeps(s, r, at, 0);
    var t := Settle(s, r, at, 0);
    RetiresRow(s.queue.jobs, t.queue.jobs, r.Caller());
    PauseShape(t.queue.jobs, PausedRow(r));
    BoundKeepsCaller(t.(queue := t.queue.(jobs := PauseRow(t.queue.jobs, PausedRow(r)))), r.Caller(), at);
  }

  lemma TurnKeepsBehind(world: World, whole: Sessions.Plan, o: Outside, at: Setting)
    requires Topological(WalkOf(whole)) && Behind(world, whole) && Collected(world.plan, world.position, o)
    requires Lives(world, whole, Timed(TurnEvent(o), at))
    ensures Behind(Happens(world, Timed(TurnEvent(o), at)), whole)
  {
    hide Stage, Apply, Claim, Topological, DistinctHeads, RowOf, Collected, Target, TurnEnd, Shortens;
    var p := world.plan;
    SameHead(p, whole);
    var op := TurnOp(p, world.position, o);
    if op.Some? && op.value.StageOp? {
      var done := Stage(world.state, op.value.request, at);
      StagedTurn(world, whole, o, at);
      if done.stored && TurnEnd(p, world.position, o) >= Target(p, o) {
        AppliedState(done.state, HeadKey(p), Ready, at);
        OtherKeepsBehind(World(done.state, p, TurnEnd(p, world.position, o)), whole, StateOp(HeadKey(p), Ready), at);
      }
    } else if op.Some? {
      OtherKeepsBehind(world, whole, op.value, at);
    }
  }

  lemma AppliedState(s: State, head: Key, state: JobState, at: Setting)
    ensures Apply(s, Move(StateOp(head, state), at)) == ChangeState(s, head, state, at)
  {
  }

  lemma EventKeepsBehind(world: World, whole: Sessions.Plan, e: Timed)
    requires Topological(WalkOf(whole)) && Behind(world, whole) && Proper(world, whole, e) && Lives(world, whole, e)
    ensures Behind(Happens(world, e), whole)
  {
    hide Topological, Lives, Shortens, Claim, DistinctHeads, RowOf, Resumes;
    match e.event
    case TurnEvent(o) => TurnKeepsBehind(world, whole, o, e.at);
    case StartEvent(plan, position) =>
      SameHead(plan, whole);
      StartsBehind(plan, world.state, position);
    case OtherEvent(op) => OtherKeepsBehind(world, whole, op, e.at);
  }

  lemma StartsBehind(p: Sessions.Plan, s: State, position: nat)
    requires Resumes(p, s, position)
    ensures position <= ClaimedCount(s.queue.jobs, HeadKey(p))
  {
    ResumesWithinClaim(p, s.queue.jobs);
  }

  // ---------------------------------------------------------------- the run

  lemma {:induction false} RunKeepsBehind(world: World, whole: Sessions.Plan, events: seq<Timed>)
    requires Topological(WalkOf(whole)) && Behind(world, whole) && AllProper(world, whole, events)
    requires StaysLive(world, whole, events)
    ensures Behind(After(world, events), whole)
  {
    hide Behind, Topological, Proper, Happens, Lives;
    if events != [] {
      var before := events[..|events| - 1];
      forall i | 0 <= i < |before|
        ensures Proper(After(world, before[..i]), whole, before[i])
        ensures Lives(After(world, before[..i]), whole, before[i])
      {
        assert before[..i] == events[..i];
      }
      RunKeepsBehind(world, whole, before);
      EventKeepsBehind(After(world, before), whole, events[|events| - 1]);
    }
  }

  /** What the invariant says of the facts. */
  lemma BehindIsStored(world: World, whole: Sessions.Plan)
    requires Behind(world, whole)
    ensures match world.Row(whole)
            case None => world.position == 0
            case Some(row) =>
              world.position <= row.completed <= |whole.walk| && HasFacts(whole, world.state.raw, row.completed)
  {
    hide RowOf, Shortens;
    var w := WalkOf(whole);
    if world.Row(whole).Some? {
      forall i | 0 <= i < world.Row(whole).value.completed
        ensures Key(whole.repo, whole.walk[i]) in world.state.raw.facts
      {
        assert StoredAt(world.state.raw, w, i);
        assert w.commits[i] == Key(whole.repo, whole.walk[i]);
      }
    }
  }

  /**
   * From tables without a row for the head, over every run of its sessions' turns, of restarts under any target, and of
   * any other operations in which the row, once written, is neither retired nor deleted: every commit that the row
   * counts is stored, and the session never gets ahead of the row.
   */
  lemma {:induction false} SessionKeepsPrefix(s: State, whole: Sessions.Plan, events: seq<Timed>)
    requires Topological(WalkOf(whole)) && DistinctHeads(s.queue.jobs) && RowOf(s.queue.jobs, HeadKey(whole)).None?
    requires AllProper(World(s, whole, 0), whole, events) && StaysLive(World(s, whole, 0), whole, events)
    ensures var t := After(World(s, whole, 0), events);
            match t.Row(whole)
            case None => t.position == 0
            case Some(row) => t.position <= row.completed <= |whole.walk| && HasFacts(whole, t.state.raw, row.completed)
  {
    hide Topological, AllProper, StaysLive, After, DistinctHeads, RowOf;
    RunKeepsBehind(World(s, whole, 0), whole, events);
    BehindIsStored(After(World(s, whole, 0), events), whole);
  }
}
