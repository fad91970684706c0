/** The prefetch service: the queue of keys, the session of each known key, and the staging tables, over whole runs. */
module ServiceRuns {
  import opened Batches
  import opened Conservation
  import opened Prefix
  import opened Quota
  import opened Results
  import opened SessionRuns
  import opened Sessions
  import opened Staging
  import PrefetchQueue
  import TurnOutcomes

  /** A session in memory, with the demanded depth it was started for. */
  datatype Session = Session(plan: Sessions.Plan, target: nat, position: nat)

  datatype Service = Service(state: State, queue: PrefetchQueue.Queue, sessions: map<Key, Session>)

  const IDLE: PrefetchQueue.Queue := PrefetchQueue.Queue([], {}, None)

  /**
   * `Popped` takes the first waiting key; `Started`, `Advanced`, `GivenUp` and `Unwanted` are about that key. A session
   * is given up when it cannot be started, and unwanted when its key is no longer demanded.
   */
  datatype Action =
    | Admitted(key: Key)
    | Popped
    | Started(plan: Sessions.Plan, target: nat, position: nat)
    | Advanced(outside: Outside)
    | GivenUp
    | Unwanted
    | Restarted
    | Elsewhere(op: Op)

  datatype Event = Event(action: Action, at: Setting)

  ghost function Finish(v: Service, state: State, more: Option<Session>): Service {
    match v.queue.flight
    case None => v
    case Some(key) =>
      Service(state, PrefetchQueue.FinishTurn(v.queue, more.Some?),
              match more case None => v.sessions - {key} case Some(session) => v.sessions[key := session])
  }

  /** One turn of the session of the key in flight. It is kept when more of its walk is demanded. */
  ghost function Advance(v: Service, session: Session, o: Outside, at: Setting): Service {
    var (state, position) := TurnStep(v.state, session.plan, session.position, o, at);
    var more := TurnMore(v.state, session.plan, session.position, o, at);
    Finish(v, state, if more then Some(session.(position := position)) else None)
  }

  ghost function Happens(v: Service, e: Event): Service {
    var flight := v.queue.flight;
    match e.action
    case Admitted(key) => v.(queue := PrefetchQueue.Admit(v.queue, key))
    case Popped => v.(queue := PrefetchQueue.Pop(v.queue))
    case Started(plan, target, position) =>
      if flight != Some(HeadKey(plan)) then v
      else v.(sessions := v.sessions[HeadKey(plan) := Session(plan, target, position)])
    case Advanced(o) =>
      if flight.Some? && flight.value in v.sessions then Advance(v, v.sessions[flight.value], o, e.at) else v
    case GivenUp => Finish(v, v.state, None)
    case Unwanted =>
      if flight.Some? && flight.value in v.sessions
      then Finish(v, ChangeState(v.state, flight.value, PausedDemand, e.at), None)
      else Finish(v, v.state, None)
    case Restarted => Service(Reconcile(v.state, e.at), IDLE, map[])
    case Elsewhere(op) => v.(state := Apply(v.state, Move(op, e.at)))
  }

  ghost function After(v: Service, events: seq<Event>): Service {
    if events == [] then v else Happens(After(v, events[..|events| - 1]), events[|events| - 1])
  }

  /**
   * A session starts, where it resumes, when its key has none or one for another target; a turn collects what it asked
   * for; other writers publish, record uses and evict trails. `walks` gives the whole walk of each head.
   */
  ghost predicate Proper(v: Service, walks: map<Key, Sessions.Plan>, e: Event) {
    match e.action
    case Started(plan, target, position) =>
      var key := HeadKey(plan);
      && v.queue.flight == Some(key)
      && (key in v.sessions ==> v.sessions[key].target != target)
      && key in walks && Shortens(plan, walks[key])
      && Resumes(plan, v.state, position)
    case Advanced(o) =>
      && v.queue.flight.Some? && v.queue.flight.value in v.sessions
      && var session := v.sessions[v.queue.flight.value]; Collected(session.plan, session.position, o)
    case Elsewhere(op) => op.PublishOp? || op.UseOp? || op.EvictOp?
    case _ => true
  }

  ghost predicate AllProper(v: Service, walks: map<Key, Sessions.Plan>, events: seq<Event>) {
    forall i :: 0 <= i < |events| ==> Proper(After(v, events[..i]), walks, events[i])
  }

  // ---------------------------------------------------------------- sessions and keys

  /** Each session belongs to a known key and walks its head. */
  ghost predicate Sound(v: Service) {
    && PrefetchQueue.Sound(v.queue)
    && v.sessions.Keys <= v.queue.known
    && forall key :: key in v.sessions ==> HeadKey(v.sessions[key].plan) == key
  }

  lemma StepKeepsSound(v: Service, e: Event)
    requires Sound(v)
    ensures Sound(Happens(v, e))
  {
    hide PrefetchQueue.Sound, PrefetchQueue.Admit, PrefetchQueue.Pop, PrefetchQueue.FinishTurn, TurnStep, TurnMore,
      ChangeState, Apply, Reconcile, Finish, HeadKey;
    QueueKeeps(v.queue);
    match e.action
    case Admitted(key) => AdmitKeepsKnown(v.queue, key);
    case Advanced(o) =>
      if v.queue.flight.Some? && v.queue.flight.value in v.sessions {
        var session := v.sessions[v.queue.flight.value];
        var (state, position) := TurnStep(v.state, session.plan, session.position, o, e.at);
        FinishKeepsSound(v, state, None);
        FinishKeepsSound(v, state, Some(session.(position := position)));
      }
    case GivenUp => FinishKeepsSound(v, v.state, None);
    case Unwanted =>
      FinishKeepsSound(v, v.state, None);
      if v.queue.flight.Some? {
        FinishKeepsSound(v, ChangeState(v.state, v.queue.flight.value, PausedDemand, e.at), None);
      }
    case _ =>
  }

  /** The turn of the key in flight is over: it waits again behind all others, or is forgotten with its session. */
  ghost predicate TurnEnds(v: Service, u: Service, key: Key, more: bool) {
    && u.queue.flight.None?
    && u.queue.ready == v.queue.ready + (if more then [key] else [])
    && u.queue.known == (if more then v.queue.known else v.queue.known - {key})
    && (key in u.sessions <==> more)
    && (forall other :: other != key ==>
          && (other in u.sessions <==> other in v.sessions)
          && (other in v.sessions ==> u.sessions[other] == v.sessions[other]))
  }

  /**
   * What admissions, the taking of a key, and a started session do. A new key waits last while fewer than 32 are known;
   * the first waiting key is taken when none is in flight; a session starts for the key in flight. A restart forgets
   * every key and session, and other writers touch neither.
   */
  lemma QueueEvents(v: Service, e: Event)
    ensures var u, flight := Happens(v, e), v.queue.flight;
            match e.action
            case Admitted(key) =>
              && u.state == v.state && u.sessions == v.sessions && u.queue.flight == flight
              && (key in v.queue.known || |v.queue.known| >= 32 ==> u == v)
              && (key !in v.queue.known && |v.queue.known| < 32 ==>
                    u.queue.ready == v.queue.ready + [key] && u.queue.known == v.queue.known + {key})
            case Popped =>
              && u.state == v.state && u.sessions == v.sessions && u.queue.known == v.queue.known
              && (v.queue.ready == [] || flight.Some? ==> u == v)
              && (v.queue.ready != [] && flight.None? ==>
                    u.queue.flight == Some(v.queue.ready[0]) && u.queue.ready == v.queue.ready[1..])
            case Started(plan, target, position) =>
              && u.state == v.state && u.queue == v.queue
              && (flight == Some(Key(plan.repo, plan.head)) ==>
                    u.sessions == v.sessions[Key(plan.repo, plan.head) := Session(plan, target, position)])
            case Restarted => u.queue.known == {} && u.queue.ready == [] && u.queue.flight.None? && u.sessions == map[]
            case Elsewhere(op) => u.queue == v.queue && u.sessions == v.sessions
            case _ => true
  {
    hide TurnStep, TurnMore, ChangeState, Apply, Reconcile, Advance, Finish;
  }

  /**
   * What the end of a turn does. The session is kept, at the position that the turn reached, exactly while more of its
   * walk is demanded; a session given up or unwanted is forgotten, and an unwanted one leaves its row paused for
   * demand.
   */
  lemma TurnEvents(v: Service, e: Event)
    requires v.queue.flight.Some? && DistinctHeads(v.state.queue.jobs)
    ensures var u, key := Happens(v, e), v.queue.flight.value;
            match e.action
            case Advanced(o) =>
              key in v.sessions ==>
                var session := v.sessions[key];
                var step := TurnStep(v.state, session.plan, session.position, o, e.at);
                var more := TurnMore(v.state, session.plan, session.position, o, e.at);
                && u.state == step.0
                && TurnEnds(v, u, key, more)
                && (more ==> u.sessions[key] == Session(session.plan, session.target, step.1))
            case GivenUp => u.state == v.state && TurnEnds(v, u, key, false)
            case Unwanted =>
              && TurnEnds(v, u, key, false)
              && (key !in v.sessions ==> u.state == v.state)
              && (key in v.sessions ==>
                    var before, after := RowOf(v.state.queue.jobs, key), RowOf(u.state.queue.jobs, key);
                    after.Some? ==> before.Some? && TurnOutcomes.Moved(before.value, after.value, PausedDemand))
            case _ => true
  {
    hide TurnStep, TurnMore, ChangeState, Apply, Reconcile, RowOf, DistinctHeads;
    TurnOutcomes.StateChangeRow(v.state, v.queue.flight.value, PausedDemand, e.at);
  }

  lemma AdmitKeepsKnown(q: PrefetchQueue.Queue, key: Key)
    requires PrefetchQueue.Sound(q)
    ensures PrefetchQueue.Sound(PrefetchQueue.Admit(q, key)) && q.known <= PrefetchQueue.Admit(q, key).known
  {
    PrefetchQueue.AdmitKeeps(q, key);
  }

  lemma FinishKeepsSound(v: Service, state: State, more: Option<Session>)
    requires Sound(v)
    requires more.Some? ==> v.queue.flight == Some(HeadKey(more.value.plan))
    ensures Sound(Finish(v, state, more))
  {
    hide PrefetchQueue.Sound, HeadKey;
    QueueKeeps(v.queue);
  }

  lemma QueueKeeps(q: PrefetchQueue.Queue)
    requires PrefetchQueue.Sound(q)
    ensures PrefetchQueue.Sound(PrefetchQueue.Pop(q)) && PrefetchQueue.Pop(q).known == q.known
    ensures PrefetchQueue.Sound(PrefetchQueue.FinishTurn(q, true))
    ensures PrefetchQueue.Sound(PrefetchQueue.FinishTurn(q, false))
    ensures q.flight.Some? ==> q.flight.value in q.known
    ensures PrefetchQueue.Sound(IDLE)
  {
    PrefetchQueue.PopKeeps(q);
    PrefetchQueue.FinishKeeps(q, true);
    PrefetchQueue.FinishKeeps(q, false);
  }

  /** Over every run each session in memory belongs to one of at most 32 known keys. */
  lemma {:induction false} SessionsAreKnown(v: Service, events: seq<Event>)
    requires Sound(v)
    ensures Sound(After(v, events)) && |After(v, events).sessions| <= PrefetchQueue.MAX_KNOWN
  {
    hide Sound, Happens;
    if events != [] {
      SessionsAreKnown(v, events[..|events| - 1]);
      StepKeepsSound(After(v, events[..|events| - 1]), events[|events| - 1]);
    }
    FewSessions(After(v, events));
  }

  lemma FewSessions(v: Service)
    requires Sound(v)
    ensures |v.sessions| <= PrefetchQueue.MAX_KNOWN
  {
    var others := v.queue.known - v.sessions.Keys;
    assert v.queue.known == v.sessions.Keys + others;
    assert |v.sessions| == |v.sessions.Keys|;
  }

  // ---------------------------------------------------------------- one head of the service

  /** What the run of one head sees. Without a session the next one starts anew. */
  ghost function View(v: Service, whole: Sessions.Plan): World {
    var key := HeadKey(whole);
    if key in v.sessions then World(v.state, v.sessions[key].plan, v.sessions[key].position)
    else World(v.state, whole, 0)
  }

  ghost function Row(v: Service, whole: Sessions.Plan): Option<Job> {
    RowOf(v.state.queue.jobs, HeadKey(whole))
  }

  /** The event writes the row of this head. */
  ghost predicate Writes(v: Service, whole: Sessions.Plan, e: Event) {
    var key := HeadKey(whole);
    && e.action.Advanced? && v.queue.flight == Some(key) && key in v.sessions
    && var op := TurnOp(v.sessions[key].plan, v.sessions[key].position, e.action.outside); op.Some? && op.value.StageOp?
  }

  /** The row of this head, if it is there or is written, is there afterwards and is not retired. */
  ghost predicate Lives(v: Service, whole: Sessions.Plan, e: Event) {
    var after := Row(Happens(v, e), whole);
    && (Row(v, whole).Some? || Writes(v, whole, e) ==> after.Some?)
    && (after.Some? ==> Pins(after.value.state))
  }

  ghost predicate StaysLive(v: Service, whole: Sessions.Plan, events: seq<Event>) {
    forall i :: 0 <= i < |events| ==> Lives(After(v, events[..i]), whole, events[i])
  }

  /** Dropping the session leaves the invariant. */
  lemma DroppedBehind(world: World, whole: Sessions.Plan)
    requires Behind(world, whole)
    ensures Behind(World(world.state, whole, 0), whole)
  {
    hide Claim, DistinctHeads, RowOf;
  }

  lemma OtherOpKeeps(v: Service, whole: Sessions.Plan, op: Op, at: Setting)
    requires Topological(WalkOf(whole)) && Behind(View(v, whole), whole)
    requires op.StageOp? ==> op.request.Caller() != HeadKey(whole)
    requires var after := RowOf(Apply(v.state, Move(op, at)).queue.jobs, HeadKey(whole));
             (Row(v, whole).Some? ==> after.Some?) && (after.Some? ==> Pins(after.value.state))
    ensures Behind(View(v.(state := Apply(v.state, Move(op, at))), whole), whole)
  {
    hide Behind, Topological, Apply, RowOf;
    OtherKeepsBehind(View(v, whole), whole, op, at);
  }

  /** A change of another head's state leaves a row that stays as it was. */
  lemma OtherStateRow(s: State, other: Key, state: JobState, at: Setting, head: Key)
    requires DistinctHeads(s.queue.jobs) && other != head
    ensures var before, after := RowOf(s.queue.jobs, head), RowOf(ChangeState(s, other, state, at).queue.jobs, head);
            && (after.Some? ==> before.Some?)
            && (after.Some? && Pins(after.value.state) ==> after == before)
  {
    hide Bound, Trim, SetState, TerminalCount, RowOf, DistinctHeads, Victims, Charge;
    var queue := s.queue.(jobs := SetState(s.queue.jobs, other, state));
    SetStateRow(s.queue.jobs, other, state, head);
    SetStateDistinct(s.queue.jobs, other, state);
    var count := TerminalCount(queue.jobs);
    TrimKeeps(queue, if count > MAX_TERMINAL then count - MAX_TERMINAL else 0, head);
    BoundRow(s.(queue := queue), Some(other), at, head);
  }

  lemma StageKeepsRow(s: State, r: Request, at: Setting, head: Key)
    requires DistinctHeads(s.queue.jobs) && r.Caller() != head
    ensures DistinctHeads(Stage(s, r, at).state.queue.jobs)
    ensures RowOf(s.queue.jobs, head).Some? ==> RowOf(Stage(s, r, at).state.queue.jobs, head).Some?
  {
    hide Settle, Fits, Bound, PlanFor, AddPlan, ProduceFacts, UpsertRow, PauseRow, RowOf, DistinctHeads, OnlyRetires,
      OnlyRemoves, ActiveCount;
    CallerSurvives(s, r, at);
    SettleKeeps(s, r, at, 0);
    SettledHeads(s, r, at);
    var t := Settle(s, r, at, 0);
    RetiresRow(s.queue.jobs, t.queue.jobs, head);
    if Fits(t, r) {
      OtherRowsStay(t.queue.jobs, RunningRow(r), head);
      UpsertShape(t.queue.jobs, RunningRow(r));
      BoundRow(Insert(t, r, PlanFor(t, r), at.now), Some(r.Caller()), at, head);
    } else {
      OtherRowsStay(t.queue.jobs, PausedRow(r), head);
      PauseShape(t.queue.jobs, PausedRow(r));
      BoundRow(t.(queue := t.queue.(jobs := PauseRow(t.queue.jobs, PausedRow(r)))), Some(r.Caller()), at, head);
    }
  }

  /** A turn of another head. */
  lemma OtherTurnKeeps(v: Service, whole: Sessions.Plan, other: Session, o: Outside, at: Setting)
    requires Topological(WalkOf(whole)) && Behind(View(v, whole), whole) && HeadKey(other.plan) != HeadKey(whole)
    requires var after := RowOf(TurnStep(v.state, other.plan, other.position, o, at).0.queue.jobs, HeadKey(whole));
             (Row(v, whole).Some? ==> after.Some?) && (after.Some? ==> Pins(after.value.state))
    ensures Behind(View(v.(state := TurnStep(v.state, other.plan, other.position, o, at).0), whole), whole)
  {
    hide Topological, Stage, ChangeState, Apply, RowOf, DistinctHeads, Claim, Shortens;
    var op := TurnOp(other.plan, other.position, o);
    if op.Some? && op.value.StageOp? {
      var r := op.value.request;
      var done := Stage(v.state, r, at);
      assert Apply(v.state, Move(op.value, at)) == done.state by { AppliedStage(v.state, r, at); }
      StageKeepsRow(v.state, r, at, HeadKey(whole));
      if done.stored && TurnEnd(other.plan, other.position, o) >= Target(other.plan, o) {
        OtherStageCounter(v.state, r, at, HeadKey(whole));
        OtherStateRow(done.state, HeadKey(other.plan), Ready, at, HeadKey(whole));
        OtherOpKeeps(v, whole, op.value, at);
        AppliedState(done.state, HeadKey(other.plan), Ready, at);
        OtherOpKeeps(v.(state := done.state), whole, StateOp(HeadKey(other.plan), Ready), at);
      } else {
        OtherOpKeeps(v, whole, op.value, at);
      }
    } else if op.Some? {
      OtherOpKeeps(v, whole, op.value, at);
    }
  }

  lemma AppliedStage(s: State, r: Request, at: Setting)
    ensures Apply(s, Move(StageOp(r), at)) == Stage(s, r, at).state
  {
  }

  /** A turn of this head. */
  lemma OwnTurnKeeps(v: Service, whole: Sessions.Plan, o: Outside, at: Setting)
    requires Topological(WalkOf(whole)) && Behind(View(v, whole), whole) && v.queue.flight == Some(HeadKey(whole))
    requires HeadKey(whole) in v.sessions && Proper(v, map[HeadKey(whole) := whole], Event(Advanced(o), at))
    requires Lives(v, whole, Event(Advanced(o), at))
    ensures Behind(View(Happens(v, Event(Advanced(o), at)), whole), whole)
  {
    hide Topological, TurnStep, TurnMore, TurnOp, RowOf, Behind, Collected;
    var world := View(v, whole);
    TurnKeepsBehind(world, whole, o, at);
    DroppedBehind(SessionRuns.Happens(world, Timed(TurnEvent(o), at)), whole);
  }

  lemma EventKeepsHead(v: Service, walks: map<Key, Sessions.Plan>, whole: Sessions.Plan, e: Event)
    requires Topological(WalkOf(whole)) && Sound(v) && Behind(View(v, whole), whole)
    requires HeadKey(whole) in walks && walks[HeadKey(whole)] == whole
    requires Proper(v, walks, e) && Lives(v, whole, e)
    ensures Behind(View(Happens(v, e), whole), whole)
  {
    hide Topological, TurnStep, TurnMore, RowOf, Behind, Collected, Apply, ChangeState, Reconcile, Resumes, Shortens,
      PrefetchQueue.Sound, TurnOp;
    var key := HeadKey(whole);
    DroppedBehind(View(v, whole), whole);
    match e.action
    case Started(plan, target, position) =>
      if HeadKey(plan) == key {
        StartKeeps(v, plan, whole, position, e.at);
      }
    case Advanced(o) =>
      var flight := v.queue.flight.value;
      if flight == key {
        OwnTurnKeeps(v, whole, o, e.at);
      } else {
        OtherTurnKeeps(v, whole, v.sessions[flight], o, e.at);
      }
    case Unwanted =>
      if v.queue.flight.Some? && v.queue.flight.value in v.sessions {
        AppliedState(v.state, v.queue.flight.value, PausedDemand, e.at);
        OtherOpKeeps(v, whole, StateOp(v.queue.flight.value, PausedDemand), e.at);
        DroppedBehind(View(v.(state := ChangeState(v.state, v.queue.flight.value, PausedDemand, e.at)), whole), whole);
      }
    case Restarted =>
      AppliedReconcile(v.state, e.at);
      OtherOpKeeps(v, whole, ReconcileOp, e.at);
      DroppedBehind(View(v.(state := Reconcile(v.state, e.at)), whole), whole);
    case Elsewhere(op) =>
      OtherOpKeeps(v, whole, op, e.at);
    case _ =>
  }

  lemma AppliedReconcile(s: State, at: Setting)
    ensures Apply(s, Move(ReconcileOp, at)) == Reconcile(s, at)
  {
  }

  lemma StartKeeps(v: Service, plan: Sessions.Plan, whole: Sessions.Plan, position: nat, at: Setting)
    requires Topological(WalkOf(whole)) && Behind(View(v, whole), whole)
    requires Shortens(plan, whole) && Resumes(plan, v.state, position)
    ensures Behind(World(v.state, plan, position), whole)
  {
    hide Topological, RowOf, Claim, DistinctHeads, Resumes, Shortens;
    SameHead(plan, whole);
    StartsBehind(plan, v.state, position);
  }

  // ---------------------------------------------------------------- the run

  lemma {:induction false} RunKeepsHead(v: Service, walks: map<Key, Sessions.Plan>, whole: Sessions.Plan,
      events: seq<Event>)
    requires Topological(WalkOf(whole)) && Sound(v) && Behind(View(v, whole), whole)
    requires HeadKey(whole) in walks && walks[HeadKey(whole)] == whole
    requires AllProper(v, walks, events) && StaysLive(v, whole, events)
    ensures Behind(View(After(v, events), whole), whole)
  {
    hide Behind, Topological, Proper, Happens, Lives, Sound, View;
    if events != [] {
      var before := events[..|events| - 1];
      forall i | 0 <= i < |before|
        ensures Proper(After(v, before[..i]), walks, before[i]) && Lives(After(v, before[..i]), whole, before[i])
      {
        assert before[..i] == events[..i];
      }
      RunKeepsHead(v, walks, whole, before);
      SessionsAreKnown(v, before);
      EventKeepsHead(After(v, before), walks, whole, events[|events| - 1]);
    }
  }

  /**
   * The service keeps every prefix. From an idle service without a row for the head, over every run of admissions,
   * turns and restarts of any sessions, stops, restarts of the service and other writers, in which this head's row,
   * once written, is neither retired nor deleted: each commit that the row counts is stored, and a session of the head
   * is never ahead of the row.
   */
  lemma {:induction false} ServiceKeepsPrefix(s: State, walks: map<Key, Sessions.Plan>, head: Key, events: seq<Event>)
    requires head in walks && HeadKey(walks[head]) == head && Topological(WalkOf(walks[head]))
    requires DistinctHeads(s.queue.jobs) && RowOf(s.queue.jobs, head).None?
    requires AllProper(Service(s, IDLE, map[]), walks, events)
    requires StaysLive(Service(s, IDLE, map[]), walks[head], events)
    ensures var v, whole := After(Service(s, IDLE, map[]), events), walks[head];
            match Row(v, whole)
            case None => head in v.sessions ==> v.sessions[head].position == 0
            case Some(row) =>
              && row.completed <= |whole.walk|
              && HasFacts(whole, v.state.raw, row.completed)
              && (head in v.sessions ==> v.sessions[head].position <= row.completed)
  {
    hide Topological, AllProper, StaysLive, After, DistinctHeads, RowOf;
    var v, whole := Service(s, IDLE, map[]), walks[head];
    RunKeepsHead(v, walks, whole, events);
    BehindIsStored(View(After(v, events), whole), whole);
  }
}
