/** How a job ends: over the steps of its worker, whatever other requests and workers do between them. */
module JobOutcomes {
  import opened Jobs
  import opened JobSafety
  import opened Results

  /** A step of a request or of another worker. */
  predicate Foreign(op: Op, worker: nat) {
    match op
    case AdmitOp(_, _, _, _) => true
    case RetryOp(_, _) => true
    case CrashOp => false
    case _ => op.worker != worker
  }

  /** The worker's locals, its job and the row of its job are the same in both tables. */
  ghost predicate SameWork(t: Table, u: Table, worker: nat)
    requires worker in t.work
  {
    var w := t.work[worker];
    && worker in u.work && u.work[worker] == w
    && w.key in t.jobs && w.key in u.jobs && u.jobs[w.key] == t.jobs[w.key]
    && w.id in t.db && w.id in u.db && u.db[w.id] == t.db[w.id]
  }

  /** What soundness says of one worker and of any other job. */
  lemma WorkerFacts(t: Table, worker: nat, capacity: nat)
    requires Sound(t, capacity) && worker in t.work
    ensures var w := t.work[worker];
            && w.key in t.jobs && t.jobs[w.key].state == Running && t.jobs[w.key].id == w.id
            && w.id in t.byId && t.byId[w.id] == w.key && w.id in t.db
            && (forall key :: key in t.jobs && t.jobs[key].id == w.id ==> key == w.key)
            && (forall v :: v in t.work && v != worker ==> t.work[v].key != w.key && t.work[v].id != w.id)
  {
    hide ReadyExact, Tracked, PendingKeys;
  }

  lemma AdmitIsForeign(t: Table, op: Op, worker: nat, capacity: nat)
    requires Sound(t, capacity) && worker in t.work && op.AdmitOp? && Allowed(t, op)
    ensures SameWork(t, Step(t, op), worker)
  {
    hide Sound, AdmitNew, EvictionLost;
    WorkerFacts(t, worker, capacity);
    var u := Searched(t, op.key);
    SearchIsForeign(t, op.key, worker);
    if op.key !in u.jobs {
      NewIsForeign(u, op.key, op.created, op.pick, op.writes, worker);
    }
  }

  /** A worker holds a running job that has a row. */
  ghost predicate Holds(t: Table, worker: nat) {
    && worker in t.work
    && var w := t.work[worker];
       && w.key in t.jobs && t.jobs[w.key].state == Running && t.jobs[w.key].id == w.id && w.id in t.db
       && forall key :: key in t.jobs && t.jobs[key].id == w.id ==> key == w.key
  }

  lemma SearchIsForeign(t: Table, wanted: JobKey, worker: nat)
    requires Holds(t, worker)
    ensures Holds(Searched(t, wanted), worker) && SameWork(t, Searched(t, wanted), worker)
    ensures wanted in Searched(t, wanted).jobs <==> wanted in t.jobs && t.jobs[wanted].state != Ready
    ensures forall id :: id in Searched(t, wanted).byId ==> id in t.byId
  {
  }

  lemma NewIsForeign(t: Table, wanted: JobKey, id: string, pick: Option<JobKey>, w: Writes, worker: nat)
    requires Holds(t, worker) && wanted !in t.jobs && FirstEvictable(t, pick) && id != t.work[worker].id
    ensures SameWork(t, AdmitNew(t, wanted, id, pick, w).table, worker)
  {
  }

  lemma RetryIsForeign(t: Table, id: string, ok: bool, worker: nat)
    requires Holds(t, worker) && (id in t.byId && t.byId[id] in t.jobs ==> t.jobs[t.byId[id]].id == id)
    ensures SameWork(t, Retry(t, id, ok).table, worker)
  {
  }

  /** Two workers hold different jobs. */
  ghost predicate Apart(t: Table, worker: nat, other: nat) {
    && Holds(t, worker)
    && (other in t.work ==> t.work[other].key != t.work[worker].key && t.work[other].id != t.work[worker].id)
  }

  lemma PopIsForeign(t: Table, other: nat, worker: nat)
    requires Holds(t, worker) && other != worker
    requires forall key :: key in t.ready && key in t.jobs ==> t.jobs[key].state == Queued
    ensures SameWork(t, Pop(t, other), worker)
  {
  }

  lemma BeginIsForeign(t: Table, other: nat, ok: bool, worker: nat)
    requires other != worker && Apart(t, worker, other)
    ensures SameWork(t, Begin(t, other, ok), worker)
  {
  }

  lemma SyncIsForeign(t: Table, other: nat, outcome: Result<string, string>, ok: bool, worker: nat)
    requires other != worker && Apart(t, worker, other)
    requires other in t.work && t.work[other].key in t.jobs ==> t.jobs[t.work[other].key].id == t.work[other].id
    ensures SameWork(t, Sync(t, other, outcome, ok), worker)
  {
  }

  lemma EndIsForeign(t: Table, other: nat, ok: bool, worker: nat)
    requires other != worker && Apart(t, worker, other)
    ensures SameWork(t, Persist(t, other, ok), worker) && SameWork(t, Finish(t, other), worker)
  {
  }

  lemma ReadyAreQueued(t: Table, capacity: nat)
    requires Sound(t, capacity)
    ensures forall key :: key in t.ready ==> key in t.jobs && t.jobs[key].state == Queued
    ensures forall id :: id in t.byId ==> t.byId[id] in t.jobs && t.jobs[t.byId[id]].id == id
  {
    hide Tracked, PendingKeys, Staffed, RowsMatch;
  }

  /** A step of a request or of another worker leaves a worker's locals, job and row alone. */
  lemma ForeignLeaves(t: Table, op: Op, worker: nat, capacity: nat)
    requires Sound(t, capacity) && worker in t.work && Allowed(t, op) && Foreign(op, worker)
    ensures SameWork(t, Step(t, op), worker)
  {
    hide Sound, Step, SameWork, Allowed, Restart, DistinctRows;
    WorkerFacts(t, worker, capacity);
    ReadyAreQueued(t, capacity);
    match op
    case AdmitOp(_, _, _, _) => AdmitIsForeign(t, op, worker, capacity);
    case RetryOp(id, ok) =>
      RetryIsForeign(t, id, ok, worker);
      assert Step(t, op) == Retry(t, id, ok).table by { RetryStep(t, id, ok); }
    case CrashOp =>
    case _ =>
      if op.worker in t.work {
        WorkerFacts(t, op.worker, capacity);
      }
      OtherIsForeign(t, op, worker);
  }

  lemma OtherIsForeign(t: Table, op: Op, worker: nat)
    requires op.PopOp? || op.BeginOp? || op.SyncOp? || op.PersistOp? || op.FinishOp?
    requires op.worker != worker && Apart(t, worker, op.worker)
    requires forall key :: key in t.ready && key in t.jobs ==> t.jobs[key].state == Queued
    requires op.worker in t.work && t.work[op.worker].key in t.jobs ==>
      t.jobs[t.work[op.worker].key].id == t.work[op.worker].id
    ensures SameWork(t, Step(t, op), worker)
  {
    hide Pop, Begin, Sync, Persist, Finish, SameWork, Holds;
    match op
    case PopOp(w) => PopIsForeign(t, w, worker);
    case BeginOp(w, ok) => BeginIsForeign(t, w, ok, worker);
    case SyncOp(w, outcome, ok) => SyncIsForeign(t, w, outcome, ok, worker);
    case PersistOp(w, ok) => EndIsForeign(t, w, ok, worker);
    case FinishOp(w) => EndIsForeign(t, w, true, worker);
  }

  lemma RetryStep(t: Table, id: string, ok: bool)
    ensures Step(t, RetryOp(id, ok)) == Retry(t, id, ok).table
  {
  }

  ghost predicate AllForeign(ops: seq<Op>, worker: nat) {
    forall op :: op in ops ==> Foreign(op, worker)
  }

  /** Between two of its own steps a worker's locals, job and row stay as they are. */
  lemma {:induction false} ForeignRunLeaves(t: Table, ops: seq<Op>, worker: nat, capacity: nat)
    requires Sound(t, capacity) && worker in t.work && AllAllowed(t, ops) && AllForeign(ops, worker)
    ensures Sound(Run(t, ops), capacity) && SameWork(t, Run(t, ops), worker)
  {
    hide Sound, Step, Allowed, Foreign;
    WorkerFacts(t, worker, capacity);
    if ops != [] {
      var before, op := ops[..|ops| - 1], ops[|ops| - 1];
      assert op in ops;
      AllowedPrefix(t, ops);
      ForeignRunLeaves(t, before, worker, capacity);
      ForeignLeaves(Run(t, before), op, worker, capacity);
      StepKeeps(Run(t, before), op, capacity);
    }
  }

  // ---------------------------------------------------------------- the worker's own steps

  const NO_ROW := "could not persist indexing state"

  const NO_KEY := "could not update the job key"

  /** The worker is at this phase of this job, whose table entry and row say the rest. */
  ghost predicate At(t: Table, worker: nat, phase: Phase, failure: Option<string>, job: Job, state: JobState,
      row: Option<string>)
  {
    && Holds(t, worker)
    && t.work[worker].phase == phase && t.work[worker].failure == failure
    && t.work[worker].id == job.id && t.jobs[t.work[worker].key] == job
    && t.db[job.id].state == state && t.db[job.id].failure == row
  }

  lemma {:induction false} Waits(t: Table, ops: seq<Op>, worker: nat, capacity: nat, phase: Phase,
      failure: Option<string>, job: Job, state: JobState, row: Option<string>)
    requires Sound(t, capacity) && At(t, worker, phase, failure, job, state, row)
    requires AllAllowed(t, ops) && AllForeign(ops, worker)
    ensures Sound(Run(t, ops), capacity) && At(Run(t, ops), worker, phase, failure, job, state, row)
  {
    hide Sound, Run, AllAllowed, AllForeign;
    ForeignRunLeaves(t, ops, worker, capacity);
    WorkerFacts(Run(t, ops), worker, capacity);
  }

  lemma Takes(t: Table, worker: nat, capacity: nat)
    requires Sound(t, capacity) && t.ready != [] && worker !in t.work
    ensures t.ready[0] in t.jobs && t.jobs[t.ready[0]].id in t.db
    ensures var job := t.jobs[t.ready[0]];
            At(Pop(t, worker), worker, Claimed, None, Job(job.id, Running, job.failure), t.db[job.id].state,
               t.db[job.id].failure)
  {
    hide Sound;
    ReadyAreQueued(t, capacity);
    RowsAndJobs(t, capacity);
    ReadyJob(t, capacity, t.ready[0]);
  }

  lemma ReadyJob(t: Table, capacity: nat, key: JobKey)
    requires Sound(t, capacity) && key in t.jobs
    ensures t.jobs[key].id in t.db
    ensures forall other :: other in t.jobs && t.jobs[other].id == t.jobs[key].id ==> other == key
  {
    hide Tracked, PendingKeys, Staffed, ReadyExact;
  }

  lemma Begins(t: Table, worker: nat, job: Job, state: JobState, row: Option<string>)
    requires At(t, worker, Claimed, None, job, state, row)
    ensures At(Begin(t, worker, true), worker, Working, None, job, Running, None)
    ensures var u := Begin(t, worker, false);
            && worker !in u.work
            && t.work[worker].key in u.jobs && u.jobs[t.work[worker].key] == Job(job.id, Failed, Some(NO_ROW))
            && u.db == t.db
  {
  }

  /** The key of the job after a synchronization that observed this generation, when the write succeeds. */
  ghost predicate Moves(t: Table, worker: nat, generation: string)
    requires worker in t.work
  {
    t.work[worker].key.generation != generation && t.work[worker].key.(generation := generation) !in t.jobs
  }

  lemma Synchronizes(t: Table, worker: nat, outcome: Result<string, string>, ok: bool, job: Job)
    requires At(t, worker, Working, None, job, Running, None)
    ensures var u := Sync(t, worker, outcome, ok);
            match outcome
            case Failure(error) => At(u, worker, Synced, Some(error), job, Running, None)
            case Success(generation) =>
              var failed := Moves(t, worker, generation) && !ok;
              At(u, worker, Synced, if failed then Some(NO_KEY) else None, job, Running, None)
    ensures outcome.Success? && Moves(t, worker, outcome.value) && ok ==>
      var u, key := Sync(t, worker, outcome, ok), t.work[worker].key.(generation := outcome.value);
      && u.work[worker].key == key && key in u.jobs && t.work[worker].key !in u.jobs
      && job.id in u.byId && u.byId[job.id] == key && u.db[job.id].key == key
    ensures !(outcome.Success? && Moves(t, worker, outcome.value) && ok) ==>
      var u := Sync(t, worker, outcome, ok); u.work[worker].key == t.work[worker].key && u.jobs == t.jobs
  {
  }

  /** What a failure leaves: failed with that error; without one: ready, with no new error. */
  ghost predicate Ended(state: JobState, shown: Option<string>, failure: Option<string>, before: Option<string>) {
    if failure.Some? then state == Failed && shown == failure else state == Ready && shown == before
  }

  lemma Persists(t: Table, worker: nat, ok: bool, failure: Option<string>, job: Job)
    requires At(t, worker, Synced, failure, job, Running, None)
    ensures var u := Persist(t, worker, ok);
            && worker in u.work && job.id in u.db
            && At(u, worker, Persisted, failure, job, u.db[job.id].state, u.db[job.id].failure)
            && (ok ==> Ended(u.db[job.id].state, u.db[job.id].failure, failure, None))
            && (!ok ==> u.db[job.id].state == Running && u.db[job.id].failure == None)
  {
  }

  lemma Finishes(t: Table, worker: nat, failure: Option<string>, job: Job, state: JobState, row: Option<string>)
    requires At(t, worker, Persisted, failure, job, state, row)
    ensures var u, key := Finish(t, worker), t.work[worker].key;
            && worker !in u.work && u.db == t.db
            && key in u.jobs && u.jobs[key].id == job.id
            && Ended(u.jobs[key].state, u.jobs[key].failure, failure, job.failure)
  {
  }

  /** What other requests and workers do between the steps of one worker. */
  datatype Between = Between(claimed: seq<Op>, working: seq<Op>, synced: seq<Op>, persisted: seq<Op>)

  ghost function Claim(t: Table, worker: nat, others: Between): Table {
    Run(Pop(t, worker), others.claimed)
  }

  ghost function AtWork(t: Table, worker: nat, others: Between): Table {
    Run(Begin(Claim(t, worker, others), worker, true), others.working)
  }

  ghost function Answered(t: Table, worker: nat, others: Between, outcome: Result<string, string>, kept: bool): Table {
    Run(Sync(AtWork(t, worker, others), worker, outcome, kept), others.synced)
  }

  ghost function Done(t: Table, worker: nat, others: Between, outcome: Result<string, string>, kept: bool, wrote: bool)
    : Table
  {
    Run(Persist(Answered(t, worker, others, outcome, kept), worker, wrote), others.persisted)
  }

  ghost predicate Quiet(t: Table, ops: seq<Op>, worker: nat) {
    AllAllowed(t, ops) && AllForeign(ops, worker)
  }

  /** The error with which the job ends, if any: that of the synchronization, or that its new key was not written. */
  ghost function Error(t: Table, worker: nat, outcome: Result<string, string>, kept: bool): Option<string>
    requires worker in t.work
  {
    match outcome
    case Failure(error) => Some(error)
    case Success(generation) => if Moves(t, worker, generation) && !kept then Some(NO_KEY) else None
  }

  /**
   * How a job ends. A worker takes the first ready job, writes that it runs, synchronizes, writes the result and
   * finishes, with any requests and other workers in between. Without an error the job is then ready and shows no new
   * failure; with one it is failed and shows it; and its row says the same if the last write succeeded, else that it is
   * running.
   */
  lemma {:induction false} WorkerOutcome(t: Table, worker: nat, others: Between, outcome: Result<string, string>,
      kept: bool, wrote: bool, capacity: nat)
    requires Sound(t, capacity) && t.ready != [] && worker !in t.work
    requires Quiet(Pop(t, worker), others.claimed, worker)
    requires Quiet(Begin(Claim(t, worker, others), worker, true), others.working, worker)
    requires Quiet(Sync(AtWork(t, worker, others), worker, outcome, kept), others.synced, worker)
    requires Quiet(Persist(Answered(t, worker, others, outcome, kept), worker, wrote), others.persisted, worker)
    ensures t.ready[0] in t.jobs && worker in AtWork(t, worker, others).work
    ensures var job, u := t.jobs[t.ready[0]], Done(t, worker, others, outcome, kept, wrote);
            var error := Error(AtWork(t, worker, others), worker, outcome, kept);
            && worker in u.work
            && var key, after := u.work[worker].key, Finish(u, worker);
               && key in after.jobs && after.jobs[key].id == job.id
               && Ended(after.jobs[key].state, after.jobs[key].failure, error, job.failure)
               && job.id in after.db
               && (wrote ==> Ended(after.db[job.id].state, after.db[job.id].failure, error, None))
               && (!wrote ==> after.db[job.id].state == Running && after.db[job.id].failure == None)
  {
    hide Sound, Run, AllAllowed, AllForeign, Pop, Begin, Sync, Persist, Finish, Ended, Moves;
    Takes(t, worker, capacity);
    PopKeeps(t, worker, capacity);
    var job := Job(t.jobs[t.ready[0]].id, Running, t.jobs[t.ready[0]].failure);
    var state, row := t.db[job.id].state, t.db[job.id].failure;
    Waits(Pop(t, worker), others.claimed, worker, capacity, Claimed, None, job, state, row);
    var a := Claim(t, worker, others);
    Begins(a, worker, job, state, row);
    BeginKeeps(a, worker, true, capacity);
    Waits(Begin(a, worker, true), others.working, worker, capacity, Working, None, job, Running, None);
    var b, error := AtWork(t, worker, others), Error(AtWork(t, worker, others), worker, outcome, kept);
    Synchronizes(b, worker, outcome, kept, job);
    SyncKeeps(b, worker, outcome, kept, capacity);
    Waits(Sync(b, worker, outcome, kept), others.synced, worker, capacity, Synced, error, job, Running, None);
    var c := Answered(t, worker, others, outcome, kept);
    Persists(c, worker, wrote, error, job);
    PersistKeeps(c, worker, wrote, capacity);
    var d := Persist(c, worker, wrote);
    Waits(d, others.persisted, worker, capacity, Persisted, error, job, d.db[job.id].state, d.db[job.id].failure);
    Finishes(Done(t, worker, others, outcome, kept, wrote), worker, error, job, d.db[job.id].state,
      d.db[job.id].failure);
  }

  /**
   * A job whose start is not written is failed at once and shows that; its row stays as it was, and the worker is free.
   */
  lemma {:induction false} UnwrittenStartFails(t: Table, worker: nat, others: seq<Op>, capacity: nat)
    requires Sound(t, capacity) && t.ready != [] && worker !in t.work && Quiet(Pop(t, worker), others, worker)
    ensures t.ready[0] in t.jobs && t.jobs[t.ready[0]].id in t.db
    ensures var id, u := t.jobs[t.ready[0]].id, Run(Pop(t, worker), others);
            && worker in u.work
            && var key, after := u.work[worker].key, Begin(u, worker, false);
               && worker !in after.work
               && key in after.jobs && after.jobs[key] == Job(id, Failed, Some(NO_ROW))
               && id in after.db && after.db[id].state == t.db[id].state && after.db[id].failure == t.db[id].failure
  {
    hide Sound, Run, AllAllowed, AllForeign, Pop, Begin;
    Takes(t, worker, capacity);
    PopKeeps(t, worker, capacity);
    var job := Job(t.jobs[t.ready[0]].id, Running, t.jobs[t.ready[0]].failure);
    var state, row := t.db[job.id].state, t.db[job.id].failure;
    Waits(Pop(t, worker), others, worker, capacity, Claimed, None, job, state, row);
    Begins(Run(Pop(t, worker), others), worker, job, state, row);
  }

  // ---------------------------------------------------------------- what an admission answers

  /** The job of this key may still be needed: it is not ready, so the admission returns it. */
  predicate Returns(t: Table, key: JobKey) {
    key in t.jobs && t.jobs[key].state != Ready
  }

  /** A new job has no room: 256 others are listed, each of them queued, running or failed. */
  predicate NoRoom(t: Table, key: JobKey) {
    |t.jobs.Keys - {key}| >= 256
    && forall other :: other in t.jobs && other != key ==> t.jobs[other].state in {Queued, Running, Failed}
  }

  lemma SearchedShape(t: Table, key: JobKey)
    requires !Returns(t, key)
    ensures Searched(t, key).jobs.Keys == t.jobs.Keys - {key}
    ensures forall other :: other in t.jobs && other != key ==> Searched(t, key).jobs[other] == t.jobs[other]
  {
  }

  /**
   * What an admission answers when no job of its key is returned. It is refused as busy at 32 waiting jobs, and for
   * want of capacity exactly when there is no room. Otherwise the job is listed, and only when 256 others were is one
   * other job missing afterwards, which was ready or obsolete.
   */
  lemma AdmissionAnswers(t: Table, key: JobKey, id: string, pick: Option<JobKey>, w: Writes)
    requires FirstEvictable(Searched(t, key), pick) && !Returns(t, key) && (key in t.jobs ==> w.remove)
    ensures var reply := Admit(t, key, id, pick, w); var others := t.jobs.Keys - {key};
            && (reply.result == Failure(Busy) <==> |t.ready| >= 32)
            && (reply.result == Failure(CapacityFull) <==> |t.ready| < 32 && NoRoom(t, key))
            && (reply.result.Failure? ==> reply.result.error in {Busy, CapacityFull, WriteFailed})
            && (reply.result == Failure(WriteFailed) ==> !w.insert || !w.evict)
            && (reply.result.Success? ==> reply.result.value == Job(id, Queued, None))
            && (reply.result.Success? && |others| < 256 ==> reply.table.jobs.Keys == others + {key})
            && (reply.result.Success? && |others| >= 256 ==>
                  exists victim :: victim in others && t.jobs[victim].state in {Ready, Obsolete}
                    && reply.table.jobs.Keys == others - {victim} + {key})
            && (forall other :: other in reply.table.jobs && other != key ==>
                  other in t.jobs && reply.table.jobs[other] == t.jobs[other])
  {
    hide Searched, AdmitNew, Admit, FirstEvictable;
    SearchedShape(t, key);
    var u := Searched(t, key);
    AdmitAdvances(t, key, id, pick, w);
    NewAnswers(u, key, id, pick, w);
    PickIsEvictable(u, pick);
    NewTable(u, key, id, pick, w);
  }

  lemma NewAnswers(t: Table, key: JobKey, id: string, pick: Option<JobKey>, w: Writes)
    requires FirstEvictable(t, pick) && key !in t.jobs
    ensures var reply := AdmitNew(t, key, id, pick, w);
            && (reply.result == Failure(Busy) <==> |t.ready| >= 32)
            && (reply.result == Failure(CapacityFull) <==>
                  |t.ready| < 32 && |t.jobs.Keys| >= 256
                  && forall other :: other in t.jobs ==> t.jobs[other].state in {Queued, Running, Failed})
            && (reply.result.Failure? ==> reply.result.error in {Busy, CapacityFull, WriteFailed})
            && (reply.result == Failure(WriteFailed) ==> !w.insert || !w.evict)
            && (reply.result.Success? ==> reply.result.value == Job(id, Queued, None))
  {
    hide Enqueue, Forget;
    assert |t.jobs| == |t.jobs.Keys|;
  }

  lemma ListedAfterwards(t: Table, key: JobKey, id: string, ok: bool)
    ensures Insert(t, key, id, ok).result.Success? <==> ok
    ensures var u := Insert(t, key, id, ok).table;
            && (if ok then Adds(t, u, key) else u == t)
            && OthersStay(t, u, key)
  {
  }

  lemma ForgottenIsGone(t: Table, key: JobKey)
    requires key in t.jobs
    ensures var u := Forget(t, key);
            && u.jobs.Keys == t.jobs.Keys - {key}
            && forall other :: other in u.jobs ==> u.jobs[other] == t.jobs[other]
  {
  }

  lemma NewTable(t: Table, key: JobKey, id: string, pick: Option<JobKey>, w: Writes)
    requires key !in t.jobs && (pick.Some? ==> pick.value in t.jobs && Evictable(t.jobs[pick.value].state))
    ensures var reply := AdmitNew(t, key, id, pick, w);
            && (reply.result.Success? && |t.jobs| < 256 ==> Adds(t, reply.table, key))
            && (reply.result.Success? && |t.jobs| >= 256 ==> Replaces(t, reply.table, key))
            && OthersStay(t, reply.table, key)
  {
    hide Insert, Forget, Adds, Replaces, OthersStay;
    RemovedStays(t, key, pick);
    ListedAfterwards(t, key, id, w.insert);
    if pick.Some? {
      Replaced(t, key, id, pick.value, w.insert);
    }
  }

  ghost predicate Adds(t: Table, u: Table, key: JobKey) {
    u.jobs.Keys == t.jobs.Keys + {key}
  }

  /** One ready or obsolete job is gone, and the new one is listed. */
  ghost predicate Replaces(t: Table, u: Table, key: JobKey) {
    exists victim :: victim in t.jobs && t.jobs[victim].state in {Ready, Obsolete}
      && u.jobs.Keys == t.jobs.Keys - {victim} + {key}
  }

  ghost predicate OthersStay(t: Table, u: Table, key: JobKey) {
    forall other :: other in u.jobs && other != key ==> other in t.jobs && u.jobs[other] == t.jobs[other]
  }

  lemma RemovedStays(t: Table, key: JobKey, pick: Option<JobKey>)
    ensures OthersStay(t, t, key)
    ensures pick.Some? ==> OthersStay(t, t.(jobs := t.jobs - {pick.value}), key)
  {
  }

  lemma PickIsEvictable(t: Table, pick: Option<JobKey>)
    requires FirstEvictable(t, pick)
    ensures pick.Some? ==> pick.value in t.jobs && Evictable(t.jobs[pick.value].state)
  {
  }

  lemma Replaced(t: Table, key: JobKey, id: string, victim: JobKey, ok: bool)
    requires key !in t.jobs && victim in t.jobs && Evictable(t.jobs[victim].state)
    ensures t.jobs[victim].state in {Ready, Obsolete}
    ensures var reply := Insert(Forget(t, victim), key, id, ok);
            && (reply.result.Success? <==> ok)
            && (ok ==> Replaces(t, reply.table, key))
            && OthersStay(t, reply.table, key)
  {
    hide Insert, Forget;
    ForgottenIsGone(t, victim);
    ListedAfterwards(Forget(t, victim), key, id, ok);
  }

  // ---------------------------------------------------------------- the order in which jobs start

  /** This step takes a job. */
  predicate TakesOne(t: Table, op: Op) {
    op.PopOp? && t.ready != [] && op.worker !in t.work && t.ready[0] in t.jobs
  }

  ghost function Taken(t: Table, ops: seq<Op>): nat {
    if ops == [] then 0
    else Taken(t, ops[..|ops| - 1]) + if TakesOne(Run(t, ops[..|ops| - 1]), ops[|ops| - 1]) then 1 else 0
  }

  /** The queue of ready keys only loses its first key, to a taker, and only gains keys at its end. */
  ghost predicate Advances(before: seq<JobKey>, after: seq<JobKey>, taken: bool) {
    if taken then before != [] && after == before[1..] else before <= after
  }

  lemma NewAdvances(t: Table, key: JobKey, id: string, pick: Option<JobKey>, w: Writes)
    ensures var reply := AdmitNew(t, key, id, pick, w);
            && Advances(t.ready, reply.table.ready, false)
            && (reply.result.Success? ==>
                 && reply.table.ready == t.ready + [key]
                 && key in reply.table.jobs && reply.table.jobs[key] == Job(id, Queued, None)
                 && id in reply.table.byId && reply.table.byId[id] == key
                 && id in reply.table.db && reply.table.db[id] == Row(key, Queued, None))
  {
  }

  lemma AdmitAdvances(t: Table, key: JobKey, id: string, pick: Option<JobKey>, w: Writes)
    ensures Advances(t.ready, Admit(t, key, id, pick, w).table.ready, false)
    ensures Searched(t, key).ready == t.ready
    ensures !(key in t.jobs && t.jobs[key].state != Ready) && (key in t.jobs ==> w.remove) ==>
      Admit(t, key, id, pick, w) == AdmitNew(Searched(t, key), key, id, pick, w)
    ensures key in t.jobs && t.jobs[key].state == Ready && !w.remove ==> Admit(t, key, id, pick, w).result.Failure?
  {
    hide AdmitNew;
    NewAdvances(Searched(t, key), key, id, pick, w);
  }

  lemma RetryAdvances(t: Table, id: string, ok: bool)
    ensures var reply := Retry(t, id, ok);
            && Advances(t.ready, reply.table.ready, false)
            && (reply.result.Success? ==>
                 && id in t.byId && t.byId[id] in t.jobs && t.jobs[t.byId[id]].state == Failed
                 && reply.table.ready == t.ready + [t.byId[id]]
                 && t.byId[id] in reply.table.jobs
                 && reply.table.jobs[t.byId[id]] == Job(t.jobs[t.byId[id]].id, Queued, None)
                 && (id in t.db ==> id in reply.table.db && reply.table.db[id] == Row(t.db[id].key, Queued, None)))
  {
  }

  lemma WorkerAdvances(t: Table, op: Op)
    requires op.BeginOp? || op.SyncOp? || op.PersistOp? || op.FinishOp?
    ensures Step(t, op).ready == t.ready
  {
    hide Admit, Retry, Restart, Pop, SetRow;
  }

  lemma StepAdvances(t: Table, op: Op)
    requires !op.CrashOp?
    ensures Advances(t.ready, Step(t, op).ready, TakesOne(t, op))
  {
    hide Admit, Retry;
    match op
    case AdmitOp(key, id, pick, writes) => AdmitAdvances(t, key, id, pick, writes);
    case RetryOp(id, ok) => RetryAdvances(t, id, ok);
    case PopOp(worker) =>
    case _ => WorkerAdvances(t, op);
  }

  lemma StepMovesUp(t: Table, op: Op, i: nat)
    requires i < |t.ready| && !op.CrashOp? && (TakesOne(t, op) ==> i > 0)
    ensures var now, j := Step(t, op).ready, if TakesOne(t, op) then i - 1 else i; j < |now| && now[j] == t.ready[i]
  {
    hide Step, TakesOne;
    StepAdvances(t, op);
  }

  /** A queued job moves one place forward with each job that is taken, whatever is admitted or retried meanwhile. */
  lemma {:induction false} QueuedMovesUp(t: Table, ops: seq<Op>, i: nat)
    requires i < |t.ready| && Taken(t, ops) <= i && forall op :: op in ops ==> !op.CrashOp?
    ensures var now := Run(t, ops).ready; i - Taken(t, ops) < |now| && now[i - Taken(t, ops)] == t.ready[i]
  {
    hide Step, TakesOne;
    if ops != [] {
      assert ops[|ops| - 1] in ops;
      QueuedMovesUp(t, ops[..|ops| - 1], i);
      StepMovesUp(Run(t, ops[..|ops| - 1]), ops[|ops| - 1], i - Taken(t, ops[..|ops| - 1]));
    }
  }

  /**
   * A job that an admission creates or a retry revives is queued, with no failure, behind all others, and so is its
   * row.
   */
  lemma GrantedWaitsLast(t: Table, op: Op, id: string, capacity: nat)
    requires Sound(t, capacity) && Allowed(t, op) && Grants(t, op, id)
    ensures var u := Step(t, op);
            && u.ready != [] && u.ready[..|u.ready| - 1] == t.ready
            && var key := u.ready[|u.ready| - 1];
               && key in u.jobs && u.jobs[key] == Job(id, Queued, None)
               && (op.AdmitOp? ==> key == op.key)
               && id in u.db && u.db[id] == Row(key, Queued, None)
  {
    hide Sound, Admit, AdmitNew, Retry, Searched;
    match op
    case AdmitOp(key, created, pick, writes) =>
      AdmissionReturnsExisting(t, key, created, pick, writes, capacity);
      AdmitAdvances(t, key, created, pick, writes);
      NewAdvances(Searched(t, key), key, created, pick, writes);
    case RetryOp(retried, ok) =>
      RetryAdvances(t, retried, ok);
      RowsAndJobs(t, capacity);
      assert (t.ready + [t.byId[id]])[..|t.ready|] == t.ready;
      assert Step(t, op) == Retry(t, id, ok).table by { RetryStep(t, id, ok); }
    case _ =>
  }

  lemma RowsAndJobs(t: Table, capacity: nat)
    requires Sound(t, capacity)
    ensures forall id :: id in t.byId ==>
      t.byId[id] in t.jobs && t.jobs[t.byId[id]].id == id && id in t.db && t.db[id].key == t.byId[id]
  {
    hide Tracked, PendingKeys, Staffed, ReadyExact;
  }
}
