/** The job coordinator: each function is one step taken under the queue lock, or one write of a worker outside it. */
module Jobs {
  import opened Results

  datatype JobKey = JobKey(
    path: string, reference: Option<string>, observed: string, commitLimit: Option<int>, nodeLimit: Option<int>,
    generation: string)

  datatype JobState = Queued | Running | Ready | Failed | Obsolete

  datatype Job = Job(id: string, state: JobState, failure: Option<string>)

  /** A row of `index_jobs`, keyed by its id. */
  datatype Row = Row(key: JobKey, state: JobState, failure: Option<string>)

  datatype Phase = Claimed | Working | Synced | Persisted

  /** The locals of one worker thread between two steps. */
  datatype Work = Work(key: JobKey, id: string, phase: Phase, failure: Option<string>)

  datatype Table = Table(
    jobs: map<JobKey, Job>, byId: map<string, JobKey>, ready: seq<JobKey>, demand: int, db: map<string, Row>,
    work: map<nat, Work>)

  datatype Refusal = Busy | CapacityFull | WriteFailed | UnknownJob | NotFailed

  datatype Reply = Reply(table: Table, result: Result<Job, Refusal>)

  /** Which of the writes of one admission succeed. */
  datatype Writes = Writes(remove: bool, evict: bool, insert: bool)

  const MAX_READY: nat := 32
  const MAX_JOBS: nat := 256

  const INTERRUPTED := "indexing was interrupted; hook execution may be uncertain"

  predicate Pending(state: JobState) {
    state == Queued || state == Running
  }

  predicate Undone(state: JobState) {
    Pending(state) || state == Failed
  }

  predicate Evictable(state: JobState) {
    state == Ready || state == Obsolete
  }

  // ---------------------------------------------------------------- steps

  function Interrupted(row: Row): Row {
    if Pending(row.state) then row.(state := Failed, failure := Some(INTERRUPTED)) else row
  }

  ghost predicate DistinctRows(db: map<string, Row>) {
    forall a, b :: a in db && b in db && db[a].key == db[b].key ==> a == b
  }

  function RecoverRows(db: map<string, Row>): map<string, Row> {
    map id | id in db :: Interrupted(db[id])
  }

  ghost function JobsOf(rows: map<string, Row>): map<JobKey, Job>
    requires DistinctRows(rows)
  {
    map id | id in rows :: rows[id].key := Job(id, rows[id].state, rows[id].failure)
  }

  function KeysOf(rows: map<string, Row>): map<string, JobKey> {
    map id | id in rows :: rows[id].key
  }

  ghost function Restart(db: map<string, Row>): Table
    requires DistinctRows(db)
  {
    var rows := RecoverRows(db);
    Table(JobsOf(rows), KeysOf(rows), [], 0, rows, map[])
  }

  function Forget(t: Table, key: JobKey): Table
    requires key in t.jobs
  {
    var id := t.jobs[key].id;
    t.(jobs := t.jobs - {key}, byId := t.byId - {id}, db := t.db - {id})
  }

  function Enqueue(t: Table, key: JobKey, id: string): Table {
    t.(jobs := t.jobs[key := Job(id, Queued, None)], byId := t.byId[id := key], ready := t.ready + [key],
       demand := t.demand + 1, db := t.db[id := Row(key, Queued, None)])
  }

  function Insert(t: Table, key: JobKey, id: string, ok: bool): Reply {
    if ok then Reply(Enqueue(t, key, id), Success(Job(id, Queued, None))) else Reply(t, Failure(WriteFailed))
  }

  /** `pick` is the evictable job that the search over the hash map meets first. */
  function AdmitNew(t: Table, key: JobKey, id: string, pick: Option<JobKey>, w: Writes): Reply {
    if |t.ready| >= MAX_READY then Reply(t, Failure(Busy))
    else if |t.jobs| < MAX_JOBS then Insert(t, key, id, w.insert)
    else if pick.None? || pick.value !in t.jobs then Reply(t, Failure(CapacityFull))
    else if !w.evict then Reply(t.(jobs := t.jobs - {pick.value}), Failure(WriteFailed))
    else Insert(Forget(t, pick.value), key, id, w.insert)
  }

  function Admit(t: Table, key: JobKey, id: string, pick: Option<JobKey>, w: Writes): Reply {
    if key !in t.jobs then AdmitNew(t, key, id, pick, w)
    else if t.jobs[key].state != Ready then Reply(t, Success(t.jobs[key]))
    else if !w.remove then Reply(t, Failure(WriteFailed))
    else AdmitNew(Forget(t, key), key, id, pick, w)
  }

  /** The table in which the admission of `key` looks for a job to evict. */
  function Searched(t: Table, key: JobKey): Table {
    if key in t.jobs && t.jobs[key].state == Ready then Forget(t, key) else t
  }

  predicate FirstEvictable(t: Table, pick: Option<JobKey>) {
    match pick
    case None => forall key :: key in t.jobs ==> !Evictable(t.jobs[key].state)
    case Some(key) => key in t.jobs && Evictable(t.jobs[key].state)
  }

  function Retry(t: Table, id: string, ok: bool): Reply {
    if id !in t.byId then Reply(t, Failure(UnknownJob))
    else
      var key := t.byId[id];
      if key !in t.jobs || t.jobs[key].state != Failed then Reply(t, Failure(NotFailed))
      else if |t.ready| >= MAX_READY then Reply(t, Failure(Busy))
      else if !ok then Reply(t, Failure(WriteFailed))
      else
        var job := t.jobs[key].(state := Queued, failure := None);
        Reply(t.(jobs := t.jobs[key := job], ready := t.ready + [key], demand := t.demand + 1,
                 db := SetRow(t.db, id, Queued, None)),
              Success(job))
  }

  function SetRow(db: map<string, Row>, id: string, state: JobState, failure: Option<string>): map<string, Row> {
    if id in db then db[id := db[id].(state := state, failure := failure)] else db
  }

  /** A free worker takes the first ready job. */
  function Pop(t: Table, worker: nat): Table {
    if t.ready == [] || worker in t.work || t.ready[0] !in t.jobs then t
    else
      var key := t.ready[0];
      var job := t.jobs[key];
      t.(ready := t.ready[1..], jobs := t.jobs[key := job.(state := Running)],
         work := t.work[worker := Work(key, job.id, Claimed, None)])
  }

  function Close(t: Table, worker: nat, state: JobState, failure: Option<string>): Table
    requires worker in t.work
  {
    var key := t.work[worker].key;
    t.(jobs := if key in t.jobs
               then
                 var shown := if failure.Some? then failure else t.jobs[key].failure;
                 t.jobs[key := t.jobs[key].(state := state, failure := shown)]
               else t.jobs,
       demand := t.demand - 1, work := t.work - {worker})
  }

  function Begin(t: Table, worker: nat, ok: bool): Table {
    if worker !in t.work || t.work[worker].phase != Claimed then t
    else if !ok then Close(t, worker, Failed, Some("could not persist indexing state"))
    else
      t.(db := SetRow(t.db, t.work[worker].id, Running, None),
        work := t.work[worker := t.work[worker].(phase := Working)])
  }

  /** The key moves to the refined generation, unless that key is taken or the write fails. */
  function Refine(t: Table, worker: nat, generation: string, ok: bool): Table
    requires worker in t.work
  {
    var w := t.work[worker];
    var refined := w.key.(generation := generation);
    if w.key.generation == generation || refined in t.jobs || w.key !in t.jobs then
      t.(work := t.work[worker := w.(phase := Synced)])
    else if !ok then t.(work := t.work[worker := w.(phase := Synced, failure := Some("could not update the job key"))])
    else
      var job := t.jobs[w.key];
      t.(jobs := (t.jobs - {w.key})[refined := job], byId := t.byId[job.id := refined],
         db := if job.id in t.db then t.db[job.id := t.db[job.id].(key := refined)] else t.db,
         work := t.work[worker := w.(key := refined, phase := Synced)])
  }

  /** The synchronization ended: with the generation it observed, or with an error. */
  function Sync(t: Table, worker: nat, outcome: Result<string, string>, ok: bool): Table {
    if worker !in t.work || t.work[worker].phase != Working then t
    else
      match outcome
      case Failure(error) => t.(work := t.work[worker := t.work[worker].(phase := Synced, failure := Some(error))])
      case Success(generation) => Refine(t, worker, generation, ok)
  }

  function Final(w: Work): JobState {
    if w.failure.Some? then Failed else Ready
  }

  function Persist(t: Table, worker: nat, ok: bool): Table {
    if worker !in t.work || t.work[worker].phase != Synced then t
    else
      var w := t.work[worker];
      t.(db := if ok then SetRow(t.db, w.id, Final(w), w.failure) else t.db,
         work := t.work[worker := w.(phase := Persisted)])
  }

  function Finish(t: Table, worker: nat): Table {
    if worker !in t.work || t.work[worker].phase != Persisted then t
    else Close(t, worker, Final(t.work[worker]), t.work[worker].failure)
  }

  // ---------------------------------------------------------------- invariant

  ghost predicate Inverse(jobs: map<JobKey, Job>, byId: map<string, JobKey>) {
    && (forall key :: key in jobs ==> jobs[key].id in byId && byId[jobs[key].id] == key)
    && (forall id :: id in byId ==> byId[id] in jobs && jobs[byId[id]].id == id)
  }

  ghost predicate ReadyExact(jobs: map<JobKey, Job>, ready: seq<JobKey>) {
    && (forall key :: key in ready <==> key in jobs && jobs[key].state == Queued)
    && (forall i, j :: 0 <= i < j < |ready| ==> ready[i] != ready[j])
  }

  ghost function PendingKeys(jobs: map<JobKey, Job>): set<JobKey> {
    set key | key in jobs && Pending(jobs[key].state)
  }

  /** Each worker holds its own running job, and every running job has a worker. */
  ghost predicate Staffed(jobs: map<JobKey, Job>, work: map<nat, Work>) {
    && (forall w :: w in work ==>
          work[w].key in jobs && jobs[work[w].key].state == Running && jobs[work[w].key].id == work[w].id)
    && (forall v, w :: v in work && w in work && work[v].key == work[w].key ==> v == w)
    && (forall key :: key in jobs && jobs[key].state == Running ==> Holder(work, key))
  }

  ghost predicate Holder(work: map<nat, Work>, key: JobKey) {
    exists w :: w in work && work[w].key == key
  }

  /** The rows have the ids and keys of the table. */
  ghost predicate RowsMatch(byId: map<string, JobKey>, db: map<string, Row>) {
    && db.Keys == byId.Keys
    && forall id :: id in db ==> db[id].key == byId[id]
  }

  /** A job not yet finished is recorded as unfinished, and a failed one is never recorded as done. */
  ghost predicate Tracked(jobs: map<JobKey, Job>, db: map<string, Row>, work: map<nat, Work>) {
    && (forall key :: key in jobs && jobs[key].state == Queued ==>
          jobs[key].id in db && db[jobs[key].id].state == Queued)
    && (forall w :: w in work && work[w].phase != Persisted ==> work[w].id in db && Pending(db[work[w].id].state))
    && (forall key :: key in jobs && jobs[key].state == Failed ==> jobs[key].id in db && Undone(db[jobs[key].id].state))
    && (forall w :: w in work && work[w].failure.Some? ==> work[w].id in db && Undone(db[work[w].id].state))
  }

  /** `capacity` is 256, or the number of recovered jobs if that was larger. */
  ghost predicate Sound(t: Table, capacity: nat) {
    && Inverse(t.jobs, t.byId)
    && ReadyExact(t.jobs, t.ready)
    && t.demand == |PendingKeys(t.jobs)|
    && |t.ready| <= MAX_READY
    && MAX_JOBS <= capacity && |t.jobs| <= capacity
    && Staffed(t.jobs, t.work)
    && RowsMatch(t.byId, t.db)
    && Tracked(t.jobs, t.db, t.work)
  }
}
