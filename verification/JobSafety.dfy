/** What every interleaving of the job coordinator keeps, and that no job runs without an admission or a retry. */
module JobSafety {
  import opened Jobs
  import opened Results

  // ---------------------------------------------------------------- the number of pending jobs

  lemma PendingGrows(jobs: map<JobKey, Job>, key: JobKey, job: Job)
    requires key in jobs ==> !Pending(jobs[key].state)
    requires Pending(job.state)
    ensures |PendingKeys(jobs[key := job])| == |PendingKeys(jobs)| + 1
  {
    assert PendingKeys(jobs[key := job]) == PendingKeys(jobs) + {key};
  }

  lemma PendingSame(jobs: map<JobKey, Job>, key: JobKey, job: Job)
    requires key in jobs && Pending(jobs[key].state) && Pending(job.state)
    ensures PendingKeys(jobs[key := job]) == PendingKeys(jobs)
  {
  }

  lemma PendingShrinks(jobs: map<JobKey, Job>, key: JobKey, job: Job)
    requires key in jobs && Pending(jobs[key].state) && !Pending(job.state)
    ensures |PendingKeys(jobs[key := job])| == |PendingKeys(jobs)| - 1
  {
    assert PendingKeys(jobs[key := job]) == PendingKeys(jobs) - {key};
  }

  lemma PendingRenamed(jobs: map<JobKey, Job>, previous: JobKey, key: JobKey)
    requires previous in jobs && key !in jobs && Pending(jobs[previous].state)
    ensures |PendingKeys((jobs - {previous})[key := jobs[previous]])| == |PendingKeys(jobs)|
  {
    assert PendingKeys((jobs - {previous})[key := jobs[previous]]) == PendingKeys(jobs) - {previous} + {key};
  }

  // ---------------------------------------------------------------- a job leaves

  lemma ForgetStaffed(jobs: map<JobKey, Job>, work: map<nat, Work>, key: JobKey)
    requires Staffed(jobs, work) && key in jobs && jobs[key].state != Running
    ensures Staffed(jobs - {key}, work)
  {
  }

  lemma {:induction false} ForgetInverse(jobs: map<JobKey, Job>, byId: map<string, JobKey>, ready: seq<JobKey>,
      key: JobKey)
    requires Inverse(jobs, byId) && ReadyExact(jobs, ready) && key in jobs && jobs[key].state != Queued
    ensures jobs[key].id in byId && Inverse(jobs - {key}, byId - {jobs[key].id})
    ensures ReadyExact(jobs - {key}, ready)
  {
  }

  lemma ForgetKeeps(t: Table, key: JobKey, capacity: nat)
    requires Sound(t, capacity) && key in t.jobs && Evictable(t.jobs[key].state)
    ensures Sound(Forget(t, key), capacity) && |Forget(t, key).jobs| == |t.jobs| - 1
  {
    hide Inverse, ReadyExact, Staffed, Tracked;
    ForgetInverse(t.jobs, t.byId, t.ready, key);
    ForgetStaffed(t.jobs, t.work, key);
    ForgetTracked(t.jobs, t.byId, t.db, t.work, key);
    assert PendingKeys(t.jobs - {key}) == PendingKeys(t.jobs) by {
      assert !Pending(t.jobs[key].state);
    }
    assert (t.jobs - {key}).Keys == t.jobs.Keys - {key};
  }

  lemma ForgetTracked(jobs: map<JobKey, Job>, byId: map<string, JobKey>, db: map<string, Row>, work: map<nat, Work>,
      key: JobKey)
    requires Inverse(jobs, byId) && Staffed(jobs, work) && Tracked(jobs, db, work)
    requires key in jobs && Evictable(jobs[key].state)
    ensures Tracked(jobs - {key}, db - {jobs[key].id}, work)
  {
  }

  // ---------------------------------------------------------------- a job arrives

  lemma EnqueueInverse(jobs: map<JobKey, Job>, byId: map<string, JobKey>, key: JobKey, id: string)
    requires Inverse(jobs, byId) && key !in jobs && id !in byId
    ensures Inverse(jobs[key := Job(id, Queued, None)], byId[id := key])
  {
  }

  lemma EnqueueTracked(jobs: map<JobKey, Job>, byId: map<string, JobKey>, db: map<string, Row>, work: map<nat, Work>,
      key: JobKey, id: string)
    requires Inverse(jobs, byId) && Tracked(jobs, db, work) && key !in jobs && id !in byId && id !in db
    ensures Tracked(jobs[key := Job(id, Queued, None)], db[id := Row(key, Queued, None)], work)
  {
  }

  lemma {:induction false} EnqueueReady(jobs: map<JobKey, Job>, ready: seq<JobKey>, key: JobKey, id: string)
    requires ReadyExact(jobs, ready) && key !in jobs
    ensures ReadyExact(jobs[key := Job(id, Queued, None)], ready + [key])
  {
  }

  lemma EnqueueStaffed(jobs: map<JobKey, Job>, work: map<nat, Work>, key: JobKey, id: string)
    requires Staffed(jobs, work) && key !in jobs
    ensures Staffed(jobs[key := Job(id, Queued, None)], work)
  {
  }

  lemma EnqueueKeeps(t: Table, key: JobKey, id: string, capacity: nat)
    requires Sound(t, capacity) && key !in t.jobs && id !in t.byId && |t.ready| < MAX_READY && |t.jobs| < capacity
    ensures Sound(Enqueue(t, key, id), capacity)
  {
    hide Inverse, ReadyExact, Staffed, Tracked;
    PendingGrows(t.jobs, key, Job(id, Queued, None));
    EnqueueReady(t.jobs, t.ready, key, id);
    EnqueueStaffed(t.jobs, t.work, key, id);
    EnqueueInverse(t.jobs, t.byId, key, id);
    EnqueueTracked(t.jobs, t.byId, t.db, t.work, key, id);
  }

  lemma InsertKeeps(t: Table, key: JobKey, id: string, ok: bool, capacity: nat)
    requires Sound(t, capacity) && key !in t.jobs && id !in t.byId && |t.ready| < MAX_READY && |t.jobs| < capacity
    ensures Sound(Insert(t, key, id, ok).table, capacity)
  {
    hide Sound, Enqueue;
    if ok {
      EnqueueKeeps(t, key, id, capacity);
    }
  }

  lemma AdmitNewKeeps(t: Table, key: JobKey, id: string, pick: Option<JobKey>, w: Writes, capacity: nat)
    requires Sound(t, capacity) && key !in t.jobs && id !in t.byId && FirstEvictable(t, pick)
    requires w.evict
    ensures Sound(AdmitNew(t, key, id, pick, w).table, capacity)
  {
    hide Insert, Inverse, ReadyExact, Staffed, RowsMatch, Tracked, PendingKeys;
    if |t.ready| < MAX_READY {
      if |t.jobs| < MAX_JOBS {
        InsertKeeps(t, key, id, w.insert, capacity);
      } else if pick.Some? {
        ForgetKeeps(t, pick.value, capacity);
        InsertKeeps(Forget(t, pick.value), key, id, w.insert, capacity);
      }
    }
  }

  // ---------------------------------------------------------------- a job changes state

  lemma RetryKeeps(t: Table, id: string, ok: bool, capacity: nat)
    requires Sound(t, capacity)
    ensures Sound(Retry(t, id, ok).table, capacity)
  {
    hide Staffed, Tracked, ReadyExact, Inverse, RowsMatch, PendingKeys, SetRow;
    if Retry(t, id, ok).result.Success? {
      var key := t.byId[id];
      var job := t.jobs[key].(state := Queued, failure := None);
      PendingGrows(t.jobs, key, job);
      RetryInverse(t.jobs, t.byId, t.db, id, job);
      RetryReady(t.jobs, t.ready, key, job);
      RetryStaffed(t.jobs, t.work, key, job);
      RetryTracked(t.jobs, t.byId, t.db, t.work, key, job);
    }
  }

  lemma {:induction false} RetryReady(jobs: map<JobKey, Job>, ready: seq<JobKey>, key: JobKey, job: Job)
    requires ReadyExact(jobs, ready) && key in jobs && jobs[key].state == Failed && job.state == Queued
    ensures ReadyExact(jobs[key := job], ready + [key])
  {
  }

  lemma RetryStaffed(jobs: map<JobKey, Job>, work: map<nat, Work>, key: JobKey, job: Job)
    requires Staffed(jobs, work) && key in jobs && jobs[key].state == Failed && job.state == Queued
    ensures Staffed(jobs[key := job], work)
  {
  }

  lemma RetryInverse(jobs: map<JobKey, Job>, byId: map<string, JobKey>, db: map<string, Row>, id: string, job: Job)
    requires Inverse(jobs, byId) && RowsMatch(byId, db)
    requires id in byId && byId[id] in jobs && job.id == jobs[byId[id]].id
    ensures job.id == id
    ensures Inverse(jobs[byId[id] := job], byId) && RowsMatch(byId, SetRow(db, id, Queued, None))
  {
  }

  lemma RetryTracked(jobs: map<JobKey, Job>, byId: map<string, JobKey>, db: map<string, Row>, work: map<nat, Work>,
      key: JobKey, job: Job)
    requires Inverse(jobs, byId) && RowsMatch(byId, db) && Staffed(jobs, work) && Tracked(jobs, db, work)
    requires key in jobs && jobs[key].state == Failed && job.state == Queued && job.id == jobs[key].id
    ensures Tracked(jobs[key := job], SetRow(db, job.id, Queued, None), work)
  {
  }

  lemma PopKeeps(t: Table, worker: nat, capacity: nat)
    requires Sound(t, capacity)
    ensures Sound(Pop(t, worker), capacity)
  {
    hide Staffed, Tracked, ReadyExact;
    if Pop(t, worker) != t {
      var key := t.ready[0];
      PopReady(t.jobs, t.ready);
      var job := t.jobs[key].(state := Running);
      PendingSame(t.jobs, key, job);
      PopStaffed(t.jobs, t.work, worker, key);
      PopTracked(t.jobs, t.byId, t.db, t.work, worker, key);
    }
  }

  lemma {:induction false} PopReady(jobs: map<JobKey, Job>, ready: seq<JobKey>)
    requires ReadyExact(jobs, ready) && ready != []
    ensures ready[0] in jobs && jobs[ready[0]].state == Queued
    ensures ReadyExact(jobs[ready[0] := jobs[ready[0]].(state := Running)], ready[1..])
  {
  }

  lemma PopStaffed(jobs: map<JobKey, Job>, work: map<nat, Work>, worker: nat, key: JobKey)
    requires Staffed(jobs, work) && worker !in work && key in jobs && jobs[key].state == Queued
    ensures Staffed(jobs[key := jobs[key].(state := Running)], work[worker := Work(key, jobs[key].id, Claimed, None)])
  {
    var more := work[worker := Work(key, jobs[key].id, Claimed, None)];
    var after := jobs[key := jobs[key].(state := Running)];
    forall k | k in after && after[k].state == Running ensures Holder(more, k) {
      if k == key {
        assert more[worker].key == k;
      } else {
        assert Holder(work, k);
        var w :| w in work && work[w].key == k;
        assert more[w].key == k;
      }
    }
  }

  lemma PopTracked(jobs: map<JobKey, Job>, byId: map<string, JobKey>, db: map<string, Row>, work: map<nat, Work>,
      worker: nat, key: JobKey)
    requires Tracked(jobs, db, work) && worker !in work && key in jobs && jobs[key].state == Queued
    ensures Tracked(jobs[key := jobs[key].(state := Running)], db,
      work[worker := Work(key, jobs[key].id, Claimed, None)])
  {
  }

  lemma CloseKeeps(t: Table, worker: nat, state: JobState, failure: Option<string>, capacity: nat)
    requires Sound(t, capacity) && worker in t.work && !Pending(state)
    requires state == Failed ==> t.work[worker].phase != Persisted || t.work[worker].failure.Some?
    ensures Sound(Close(t, worker, state, failure), capacity)
  {
    hide Tracked, Staffed, ReadyExact;
    var key := t.work[worker].key;
    WorkerHoldsJob(t.jobs, t.work, worker);
    var u := Close(t, worker, state, failure);
    var job := u.jobs[key];
    PendingShrinks(t.jobs, key, job);
    CloseReady(t.jobs, t.ready, key, job);
    CloseStaffed(t.jobs, t.work, worker, job);
    CloseTracked(t.jobs, t.db, t.work, worker, job);
    assert u.jobs.Keys == t.jobs.Keys;
  }

  lemma WorkerHoldsJob(jobs: map<JobKey, Job>, work: map<nat, Work>, worker: nat)
    requires Staffed(jobs, work) && worker in work
    ensures work[worker].key in jobs
    ensures jobs[work[worker].key].state == Running && jobs[work[worker].key].id == work[worker].id
  {
  }

  lemma {:induction false} CloseReady(jobs: map<JobKey, Job>, ready: seq<JobKey>, key: JobKey, job: Job)
    requires ReadyExact(jobs, ready) && key in jobs && jobs[key].state != Queued && job.state != Queued
    ensures ReadyExact(jobs[key := job], ready)
  {
  }

  lemma CloseStaffed(jobs: map<JobKey, Job>, work: map<nat, Work>, worker: nat, job: Job)
    requires Staffed(jobs, work) && worker in work && !Pending(job.state)
    ensures Staffed(jobs[work[worker].key := job], work - {worker})
  {
    var after, rest := jobs[work[worker].key := job], work - {worker};
    forall k | k in after && after[k].state == Running ensures Holder(rest, k) {
      assert Holder(work, k);
      var w :| w in work && work[w].key == k;
      assert w in rest;
    }
  }

  lemma CloseTracked(jobs: map<JobKey, Job>, db: map<string, Row>, work: map<nat, Work>, worker: nat, job: Job)
    requires Tracked(jobs, db, work) && worker in work && !Pending(job.state) && job.id == work[worker].id
    requires job.state == Failed ==> work[worker].phase != Persisted || work[worker].failure.Some?
    ensures Tracked(jobs[work[worker].key := job], db, work - {worker})
  {
  }

  /** The row of one job after a write of its worker. */
  ghost predicate RowWritten(db: map<string, Row>, after: map<string, Row>, now: Work) {
    after == db || exists state, failure :: after == SetRow(db, now.id, state, failure) && Says(now, state)
  }

  predicate Says(now: Work, state: JobState) {
    (now.phase != Persisted ==> Pending(state)) && (now.failure.Some? ==> Undone(state))
  }

  /** A worker moves on: its phase and failure change, and its row may change state. */
  lemma PhaseKeeps(t: Table, worker: nat, db: map<string, Row>, now: Work, capacity: nat)
    requires Sound(t, capacity) && worker in t.work
    requires now.key == t.work[worker].key && now.id == t.work[worker].id && RowWritten(t.db, db, now)
    requires t.work[worker].phase == Persisted ==> now.phase == Persisted && now.failure == t.work[worker].failure
    ensures Sound(t.(db := db, work := t.work[worker := now]), capacity)
  {
    hide Tracked, Staffed, Inverse, ReadyExact;
    PhaseStaffed(t.jobs, t.work, worker, now);
    PhaseTracked(t.jobs, t.byId, t.db, db, t.work, worker, now);
  }

  lemma PhaseStaffed(jobs: map<JobKey, Job>, work: map<nat, Work>, worker: nat, now: Work)
    requires Staffed(jobs, work) && worker in work && now.key == work[worker].key && now.id == work[worker].id
    ensures Staffed(jobs, work[worker := now])
  {
    var after := work[worker := now];
    forall k | k in jobs && jobs[k].state == Running ensures Holder(after, k) {
      assert Holder(work, k);
      var w :| w in work && work[w].key == k;
      assert w in after && after[w].key == k;
    }
  }

  lemma PhaseTracked(
    jobs: map<JobKey, Job>, byId: map<string, JobKey>, db: map<string, Row>, after: map<string, Row>,
    work: map<nat, Work>,
    worker: nat, now: Work)
    requires Inverse(jobs, byId) && Staffed(jobs, work) && Tracked(jobs, db, work) && worker in work
    requires now.key == work[worker].key && now.id == work[worker].id
    requires work[worker].phase == Persisted ==> now.phase == Persisted && now.failure == work[worker].failure
    requires RowWritten(db, after, now)
    ensures Tracked(jobs, after, work[worker := now])
  {
  }

  lemma WroteRow(db: map<string, Row>, state: JobState, failure: Option<string>, now: Work)
    requires Says(now, state)
    ensures RowWritten(db, SetRow(db, now.id, state, failure), now)
  {
  }

  lemma BeginKeeps(t: Table, worker: nat, ok: bool, capacity: nat)
    requires Sound(t, capacity)
    ensures Sound(Begin(t, worker, ok), capacity)
  {
    hide Sound, SetRow;
    if worker in t.work && t.work[worker].phase == Claimed {
      if ok {
        var u := Begin(t, worker, ok);
        WroteRow(t.db, Running, None, u.work[worker]);
        PhaseKeeps(t, worker, u.db, u.work[worker], capacity);
      } else {
        CloseKeeps(t, worker, Failed, Some("could not persist indexing state"), capacity);
      }
    }
  }

  lemma PersistKeeps(t: Table, worker: nat, ok: bool, capacity: nat)
    requires Sound(t, capacity)
    ensures Sound(Persist(t, worker, ok), capacity)
  {
    hide Sound, SetRow;
    if worker in t.work && t.work[worker].phase == Synced {
      var u := Persist(t, worker, ok);
      WroteRow(t.db, Final(t.work[worker]), t.work[worker].failure, u.work[worker]);
      PhaseKeeps(t, worker, u.db, u.work[worker], capacity);
    }
  }

  lemma FinishKeeps(t: Table, worker: nat, capacity: nat)
    requires Sound(t, capacity)
    ensures Sound(Finish(t, worker), capacity)
  {
    hide Sound;
    if worker in t.work && t.work[worker].phase == Persisted {
      CloseKeeps(t, worker, Final(t.work[worker]), t.work[worker].failure, capacity);
    }
  }

  // ---------------------------------------------------------------- a job moves to another key

  lemma RenameInverse(jobs: map<JobKey, Job>, byId: map<string, JobKey>, previous: JobKey, key: JobKey)
    requires Inverse(jobs, byId) && previous in jobs && key !in jobs
    ensures Inverse((jobs - {previous})[key := jobs[previous]], byId[jobs[previous].id := key])
  {
  }

  lemma RenameRows(jobs: map<JobKey, Job>, byId: map<string, JobKey>, db: map<string, Row>, from: JobKey, key: JobKey)
    requires Inverse(jobs, byId) && RowsMatch(byId, db) && from in jobs
    ensures var id := jobs[from].id; id in db && RowsMatch(byId[id := key], db[id := db[id].(key := key)])
  {
  }

  lemma {:induction false} RenameReady(jobs: map<JobKey, Job>, ready: seq<JobKey>, previous: JobKey, key: JobKey)
    requires ReadyExact(jobs, ready) && previous in jobs && key !in jobs && jobs[previous].state == Running
    ensures ReadyExact((jobs - {previous})[key := jobs[previous]], ready)
  {
  }

  lemma RenameStaffed(jobs: map<JobKey, Job>, work: map<nat, Work>, worker: nat, key: JobKey, now: Work)
    requires Staffed(jobs, work) && worker in work && key !in jobs && now.key == key && now.id == work[worker].id
    ensures Staffed((jobs - {work[worker].key})[key := jobs[work[worker].key]], work[worker := now])
  {
    var after, more := (jobs - {work[worker].key})[key := jobs[work[worker].key]], work[worker := now];
    forall k | k in after && after[k].state == Running ensures Holder(more, k) {
      if k == key {
        assert more[worker].key == k;
      } else {
        assert Holder(work, k);
        var w :| w in work && work[w].key == k;
        assert w != worker && more[w].key == k;
      }
    }
  }

  lemma RenameTracked(
    jobs: map<JobKey, Job>, byId: map<string, JobKey>, db: map<string, Row>, work: map<nat, Work>, worker: nat,
    key: JobKey, now: Work)
    requires Inverse(jobs, byId) && Staffed(jobs, work) && RowsMatch(byId, db) && Tracked(jobs, db, work)
    requires worker in work && key !in jobs && now.id == work[worker].id && work[worker].phase != Persisted
    ensures var id := now.id;
            && id in db
            && Tracked((jobs - {work[worker].key})[key := jobs[work[worker].key]], db[id := db[id].(key := key)],
                       work[worker := now])
  {
    hide RowsMatch;
    assert work[worker].id in db by { RowsOfJobs(jobs, byId, db, work[worker].key); }
    forall k | k in jobs ensures jobs[k].id in db {
      RowsOfJobs(jobs, byId, db, k);
    }
  }

  lemma RowsOfJobs(jobs: map<JobKey, Job>, byId: map<string, JobKey>, db: map<string, Row>, key: JobKey)
    requires Inverse(jobs, byId) && RowsMatch(byId, db) && key in jobs
    ensures jobs[key].id in db
  {
  }

  predicate Renames(t: Table, w: Work, refined: JobKey, ok: bool) {
    w.key.generation != refined.generation && refined !in t.jobs && w.key in t.jobs && ok
  }

  lemma RefineKeeps(t: Table, worker: nat, generation: string, ok: bool, capacity: nat)
    requires Sound(t, capacity) && worker in t.work && t.work[worker].phase == Working
    ensures Sound(Refine(t, worker, generation, ok), capacity)
  {
    hide Inverse, ReadyExact, Staffed, Tracked, RowsMatch, PendingKeys;
    WorkerHoldsJob(t.jobs, t.work, worker);
    var w := t.work[worker];
    var refined := w.key.(generation := generation);
    var u := Refine(t, worker, generation, ok);
    if !Renames(t, w, refined, ok) {
      PhaseKeeps(t, worker, u.db, u.work[worker], capacity);
    } else {
      PendingRenamed(t.jobs, w.key, refined);
      RenameInverse(t.jobs, t.byId, w.key, refined);
      RenameRows(t.jobs, t.byId, t.db, w.key, refined);
      RenameReady(t.jobs, t.ready, w.key, refined);
      RenameStaffed(t.jobs, t.work, worker, refined, u.work[worker]);
      RenameTracked(t.jobs, t.byId, t.db, t.work, worker, refined, u.work[worker]);
      assert u.jobs.Keys == t.jobs.Keys - {w.key} + {refined};
    }
  }

  // ---------------------------------------------------------------- restart

  ghost predicate Mirrors(jobs: map<JobKey, Job>, rows: map<string, Row>) {
    && (forall id :: id in rows ==>
          && rows[id].key in jobs
          && jobs[rows[id].key] == Job(id, rows[id].state, rows[id].failure))
    && (forall key :: key in jobs ==> jobs[key].id in rows && rows[jobs[key].id].key == key)
  }

  lemma JobsMirrorRows(rows: map<string, Row>)
    requires DistinctRows(rows)
    ensures Mirrors(JobsOf(rows), rows)
  {
  }

  lemma MirrorIsSound(jobs: map<JobKey, Job>, rows: map<string, Row>)
    requires Mirrors(jobs, rows) && forall id :: id in rows ==> !Pending(rows[id].state)
    ensures Inverse(jobs, KeysOf(rows)) && RowsMatch(KeysOf(rows), rows)
    ensures ReadyExact(jobs, []) && Staffed(jobs, map[]) && Tracked(jobs, rows, map[])
    ensures PendingKeys(jobs) == {}
  {
  }

  /**
   * After a restart nothing is queued or running: rows of queued and running jobs have become failed and say that they
   * were interrupted, the others are as they were, and the table lists every row.
   */
  lemma RestartShape(db: map<string, Row>)
    requires DistinctRows(db)
    ensures var u := Restart(db);
            && Inverse(u.jobs, u.byId) && RowsMatch(u.byId, u.db)
            && ReadyExact(u.jobs, u.ready) && Staffed(u.jobs, u.work) && Tracked(u.jobs, u.db, u.work)
            && PendingKeys(u.jobs) == {}
            && u.byId.Keys == db.Keys && u.db.Keys == db.Keys
            && (forall id :: id in db ==>
                 && u.byId[id] == db[id].key
                 && db[id].key in u.jobs
                 && u.jobs[db[id].key] == Job(id, u.db[id].state, u.db[id].failure)
                 && (db[id].state !in {Queued, Running} ==> u.db[id] == db[id])
                 && (db[id].state in {Queued, Running} ==>
                       u.db[id] == Row(db[id].key, Failed,
                                       Some("indexing was interrupted; hook execution may be uncertain"))))
  {
    hide Inverse, RowsMatch, ReadyExact, Staffed, Tracked, PendingKeys, JobsOf, RecoverRows, DistinctRows;
    var rows := RecoverRows(db);
    RecoveredMeans(db);
    JobsMirrorRows(rows);
    MirrorIsSound(JobsOf(rows), rows);
    forall id | id in db
      ensures rows[id].key in JobsOf(rows) && JobsOf(rows)[rows[id].key] == Job(id, rows[id].state, rows[id].failure)
    {
    }
  }

  lemma RecoveredMeans(db: map<string, Row>)
    requires DistinctRows(db)
    ensures var rows := RecoverRows(db);
            && rows.Keys == db.Keys && DistinctRows(rows)
            && forall id :: id in db ==>
                 && rows[id].key == db[id].key && !Pending(rows[id].state)
                 && (db[id].state !in {Queued, Running} ==> rows[id] == db[id])
                 && (db[id].state in {Queued, Running} ==>
                       rows[id].state == Failed
                       && rows[id].failure == Some("indexing was interrupted; hook execution may be uncertain"))
  {
  }

  lemma RowsAreDistinct(t: Table, capacity: nat)
    requires Sound(t, capacity)
    ensures DistinctRows(t.db)
    ensures forall key :: key in t.jobs <==> exists id :: id in t.db && t.db[id].key == key
  {
  }

  lemma RestartKeeps(t: Table, capacity: nat)
    requires Sound(t, capacity)
    ensures DistinctRows(t.db) && Sound(Restart(t.db), capacity)
  {
    hide Inverse, Staffed, ReadyExact, Tracked, PendingKeys, RowsMatch, Restart, DistinctRows;
    RowsAreDistinct(t, capacity);
    RestartShape(t.db);
    RestartIsIdle(t.db);
    SameKeys(t, capacity);
  }

  lemma RestartIsIdle(db: map<string, Row>)
    requires DistinctRows(db)
    ensures Restart(db).ready == [] && Restart(db).demand == 0
  {
  }

  lemma SameKeys(t: Table, capacity: nat)
    requires Sound(t, capacity) && DistinctRows(t.db)
    ensures Restart(t.db).jobs.Keys == t.jobs.Keys
  {
    hide Sound, JobsOf;
    RowsAreDistinct(t, capacity);
    var rows := RecoverRows(t.db);
    JobsMirrorRows(rows);
    var after := JobsOf(rows);
    assert Restart(t.db).jobs == after;
    forall key | key in t.jobs ensures key in after {
      var id :| id in t.db && t.db[id].key == key;
      assert id in rows && rows[id].key == key;
    }
    forall key | key in after ensures key in t.jobs {
      var id := after[key].id;
      assert id in t.db && t.db[id].key == key;
    }
  }

  /** A coordinator that starts on persisted rows with distinct keys satisfies the invariant. */
  lemma StartIsSound(db: map<string, Row>, capacity: nat)
    requires DistinctRows(db) && MAX_JOBS <= capacity && |Restart(db).jobs| <= capacity
    ensures Sound(Restart(db), capacity) && forall id :: !HasState(Restart(db), id, Queued)
  {
    hide Inverse, RowsMatch, ReadyExact, Staffed, Tracked, PendingKeys, HasState;
    RestartShape(db);
    forall id ensures !HasState(Restart(db), id, Queued) {
      RestartQueuesNothing(db, id);
    }
  }

  // ---------------------------------------------------------------- admission

  /** The write that removes an evicted job fails after the job left the table. */
  predicate EvictionLost(t: Table, key: JobKey, pick: Option<JobKey>, w: Writes) {
    var u := Searched(t, key);
    && (key in t.jobs ==> t.jobs[key].state == Ready && w.remove)
    && |u.ready| < MAX_READY
    && |u.jobs| >= MAX_JOBS
    && pick.Some?
    && !w.evict
  }

  /** An admission keeps the invariant exactly when it does not lose the write of its eviction. */
  lemma AdmitKeepsExactly(t: Table, key: JobKey, id: string, pick: Option<JobKey>, w: Writes, capacity: nat)
    requires Sound(t, capacity) && id !in t.byId && FirstEvictable(Searched(t, key), pick)
    ensures Sound(Admit(t, key, id, pick, w).table, capacity) <==> !EvictionLost(t, key, pick, w)
  {
    hide Sound, AdmitNew, FirstEvictable;
    if key !in t.jobs {
      AdmitNewExactly(t, key, id, pick, w, capacity);
    } else if t.jobs[key].state == Ready && w.remove {
      ForgetKeeps(t, key, capacity);
      AdmitNewExactly(Forget(t, key), key, id, pick, w, capacity);
    }
  }

  lemma AdmitNewExactly(t: Table, key: JobKey, id: string, pick: Option<JobKey>, w: Writes, capacity: nat)
    requires Sound(t, capacity) && key !in t.jobs && id !in t.byId && FirstEvictable(t, pick)
    ensures Sound(AdmitNew(t, key, id, pick, w).table, capacity) <==>
            !(|t.ready| < MAX_READY && |t.jobs| >= MAX_JOBS && pick.Some? && !w.evict)
  {
    hide Insert, ReadyExact, Staffed, RowsMatch, Tracked, PendingKeys;
    if |t.ready| < MAX_READY && |t.jobs| >= MAX_JOBS && pick.Some? && !w.evict {
      var lost := t.jobs[pick.value].id;
      assert lost in AdmitNew(t, key, id, pick, w).table.byId;
    } else {
      AdmitNewKeeps(t, key, id, pick, w.(evict := true), capacity);
    }
  }

  /**
   * After a lost eviction the id index still names the removed job, so a status query misses and a retry has no job.
   */
  lemma LostEvictionLeavesDanglingId(t: Table, key: JobKey, id: string, pick: Option<JobKey>, w: Writes, capacity: nat)
    requires Sound(t, capacity) && id !in t.byId && FirstEvictable(Searched(t, key), pick)
      && EvictionLost(t, key, pick, w)
    ensures var reply := Admit(t, key, id, pick, w);
            && reply.result == Failure(WriteFailed)
            && exists lost :: lost in reply.table.byId && reply.table.byId[lost] !in reply.table.jobs
  {
    hide ReadyExact, Staffed, RowsMatch, Tracked, PendingKeys;
    var u := Searched(t, key);
    if key in t.jobs {
      ForgetKeeps(t, key, capacity);
    }
    var lost := u.jobs[pick.value].id;
    assert u.byId[lost] == pick.value;
    assert lost in Admit(t, key, id, pick, w).table.byId;
  }

  // ---------------------------------------------------------------- runs

  datatype Op =
    | AdmitOp(key: JobKey, created: string, pick: Option<JobKey>, writes: Writes)
    | RetryOp(id: string, ok: bool)
    | PopOp(worker: nat)
    | BeginOp(worker: nat, ok: bool)
    | SyncOp(worker: nat, outcome: Result<string, string>, ok: bool)
    | PersistOp(worker: nat, ok: bool)
    | FinishOp(worker: nat)
    | CrashOp

  ghost function Step(t: Table, op: Op): Table {
    match op
    case AdmitOp(key, id, pick, writes) => Admit(t, key, id, pick, writes).table
    case RetryOp(id, ok) => Retry(t, id, ok).table
    case PopOp(w) => Pop(t, w)
    case BeginOp(w, ok) => Begin(t, w, ok)
    case SyncOp(w, outcome, ok) => Sync(t, w, outcome, ok)
    case PersistOp(w, ok) => Persist(t, w, ok)
    case FinishOp(w) => Finish(t, w)
    case CrashOp => if DistinctRows(t.db) then Restart(t.db) else t
  }

  /** New ids are unused, the search finds an evictable job if there is one, and eviction writes succeed. */
  ghost predicate Allowed(t: Table, op: Op) {
    op.AdmitOp? ==>
      && op.created !in t.byId
      && FirstEvictable(Searched(t, op.key), op.pick)
      && !EvictionLost(t, op.key, op.pick, op.writes)
  }

  lemma SyncKeeps(t: Table, worker: nat, outcome: Result<string, string>, ok: bool, capacity: nat)
    requires Sound(t, capacity)
    ensures Sound(Sync(t, worker, outcome, ok), capacity)
  {
    hide Sound, Refine;
    if worker in t.work && t.work[worker].phase == Working {
      match outcome
      case Success(generation) =>
        RefineKeeps(t, worker, generation, ok, capacity);
      case Failure(error) =>
        var u := Sync(t, worker, outcome, ok);
        PhaseKeeps(t, worker, t.db, u.work[worker], capacity);
        assert u == t.(db := t.db, work := t.work[worker := u.work[worker]]);
    }
  }

  lemma StepKeeps(t: Table, op: Op, capacity: nat)
    requires Sound(t, capacity) && Allowed(t, op)
    ensures Sound(Step(t, op), capacity)
  {
    hide Sound, Admit, Retry, Pop, Begin, Sync, Persist, Finish, Restart;
    match op
    case AdmitOp(key, id, pick, writes) => AdmitKeepsExactly(t, key, id, pick, writes, capacity);
    case RetryOp(id, ok) => RetryKeeps(t, id, ok, capacity);
    case PopOp(w) => PopKeeps(t, w, capacity);
    case BeginOp(w, ok) => BeginKeeps(t, w, ok, capacity);
    case SyncOp(w, outcome, ok) => SyncKeeps(t, w, outcome, ok, capacity);
    case PersistOp(w, ok) => PersistKeeps(t, w, ok, capacity);
    case FinishOp(w) => FinishKeeps(t, w, capacity);
    case CrashOp => RestartKeeps(t, capacity);
  }

  ghost function Run(t: Table, ops: seq<Op>): Table {
    if ops == [] then t else Step(Run(t, ops[..|ops| - 1]), ops[|ops| - 1])
  }

  ghost predicate AllAllowed(t: Table, ops: seq<Op>) {
    forall i :: 0 <= i < |ops| ==> Allowed(Run(t, ops[..i]), ops[i])
  }

  lemma {:induction false} AllowedPrefix(t: Table, ops: seq<Op>)
    requires AllAllowed(t, ops) && ops != []
    ensures AllAllowed(t, ops[..|ops| - 1]) && Allowed(Run(t, ops[..|ops| - 1]), ops[|ops| - 1])
  {
    hide Allowed, Run;
    var before := ops[..|ops| - 1];
    forall i | 0 <= i < |before| ensures Allowed(Run(t, before[..i]), before[i]) {
      assert before[..i] == ops[..i];
    }
  }

  /** The job-table invariant holds after every interleaving of requests, workers and crash-restarts. */
  lemma {:induction false} RunKeeps(t: Table, ops: seq<Op>, capacity: nat)
    requires Sound(t, capacity) && AllAllowed(t, ops)
    ensures Sound(Run(t, ops), capacity)
  {
    hide Sound, Allowed, AllAllowed, Step;
    if ops != [] {
      AllowedPrefix(t, ops);
      RunKeeps(t, ops[..|ops| - 1], capacity);
      StepKeeps(Run(t, ops[..|ops| - 1]), ops[|ops| - 1], capacity);
    }
  }

  // ---------------------------------------------------------------- no implicit rerun

  ghost predicate HasState(t: Table, id: string, state: JobState) {
    exists key :: key in t.jobs && t.jobs[key].id == id && t.jobs[key].state == state
  }

  ghost function Flag(b: bool): nat {
    if b then 1 else 0
  }

  /** This step hands the job with this id to a worker. */
  ghost predicate Starts(t: Table, op: Op, id: string) {
    && op.PopOp?
    && t.ready != []
    && op.worker !in t.work
    && t.ready[0] in t.jobs
    && t.jobs[t.ready[0]].id == id
  }

  /** This step is a successful admission that created this id, or a successful retry of it. */
  ghost predicate Grants(t: Table, op: Op, id: string) {
    match op
    case AdmitOp(key, created, pick, writes) =>
      created == id && Admit(t, key, created, pick, writes).result == Success(Job(created, Queued, None))
    case RetryOp(retried, ok) => retried == id && Retry(t, id, ok).result.Success?
    case _ => false
  }

  lemma ForgetQueuesNothing(t: Table, key: JobKey, id: string)
    requires key in t.jobs && HasState(Forget(t, key), id, Queued)
    ensures HasState(t, id, Queued)
  {
  }

  lemma AdmitNewQueues(t: Table, key: JobKey, created: string, pick: Option<JobKey>, w: Writes, id: string)
    requires HasState(AdmitNew(t, key, created, pick, w).table, id, Queued) && !HasState(t, id, Queued)
    ensures created == id && AdmitNew(t, key, created, pick, w).result == Success(Job(created, Queued, None))
  {
  }

  lemma AdmitQueues(t: Table, key: JobKey, created: string, pick: Option<JobKey>, w: Writes, id: string)
    requires HasState(Admit(t, key, created, pick, w).table, id, Queued) && !HasState(t, id, Queued)
    ensures Grants(t, AdmitOp(key, created, pick, w), id)
  {
    hide AdmitNew, Forget, HasState;
    if key !in t.jobs {
      AdmitNewQueues(t, key, created, pick, w, id);
    } else if t.jobs[key].state == Ready && w.remove {
      if HasState(Forget(t, key), id, Queued) {
        ForgetQueuesNothing(t, key, id);
      }
      AdmitNewQueues(Forget(t, key), key, created, pick, w, id);
    }
  }

  lemma RetryQueues(t: Table, retried: string, ok: bool, id: string, capacity: nat)
    requires Sound(t, capacity) && HasState(Retry(t, retried, ok).table, id, Queued) && !HasState(t, id, Queued)
    ensures Grants(t, RetryOp(retried, ok), id)
  {
    hide ReadyExact, Staffed, RowsMatch, Tracked, PendingKeys;
    var u := Retry(t, retried, ok).table;
    var k :| k in u.jobs && u.jobs[k].id == id && u.jobs[k].state == Queued;
    assert k !in t.jobs || u.jobs[k] != t.jobs[k];
  }

  lemma PopStarts(t: Table, worker: nat, id: string, capacity: nat)
    requires Sound(t, capacity)
    ensures Flag(Starts(t, PopOp(worker), id)) + Flag(HasState(Pop(t, worker), id, Queued))
      <= Flag(HasState(t, id, Queued))
  {
    hide Staffed, RowsMatch, Tracked, PendingKeys;
    var u := Pop(t, worker);
    if HasState(u, id, Queued) {
      var k :| k in u.jobs && u.jobs[k].id == id && u.jobs[k].state == Queued;
      assert k in t.jobs && t.jobs[k] == u.jobs[k];
      assert t.byId[id] == k;
    }
  }

  lemma RestartQueuesNothing(db: map<string, Row>, id: string)
    ensures DistinctRows(db) ==> !HasState(Restart(db), id, Queued)
  {
  }

  /** A worker queues nothing; it may only move its job to another key. */
  lemma WorkerQueuesNothing(t: Table, op: Op, id: string)
    requires op.BeginOp? || op.SyncOp? || op.PersistOp? || op.FinishOp?
    requires HasState(Step(t, op), id, Queued)
    ensures HasState(t, id, Queued)
  {
  }

  lemma StepStarts(t: Table, op: Op, id: string, capacity: nat)
    requires Sound(t, capacity)
    ensures Flag(Starts(t, op, id)) + Flag(HasState(Step(t, op), id, Queued))
         <= Flag(Grants(t, op, id)) + Flag(HasState(t, id, Queued))
  {
    hide Sound, HasState, Grants, Admit, Retry, Pop, Begin, Sync, Persist, Finish, Restart;
    if HasState(Step(t, op), id, Queued) && !HasState(t, id, Queued) {
      match op
      case AdmitOp(key, created, pick, writes) => AdmitQueues(t, key, created, pick, writes, id);
      case RetryOp(retried, ok) => RetryQueues(t, retried, ok, id, capacity);
      case PopOp(w) => PopStarts(t, w, id, capacity);
      case CrashOp => RestartQueuesNothing(t.db, id);
      case _ => WorkerQueuesNothing(t, op, id);
    }
    if op.PopOp? {
      PopStarts(t, op.worker, id, capacity);
    }
  }

  ghost function StartCount(t: Table, ops: seq<Op>, id: string): nat {
    if ops == [] then 0
    else StartCount(t, ops[..|ops| - 1], id) + Flag(Starts(Run(t, ops[..|ops| - 1]), ops[|ops| - 1], id))
  }

  ghost function GrantCount(t: Table, ops: seq<Op>, id: string): nat {
    if ops == [] then 0
    else GrantCount(t, ops[..|ops| - 1], id) + Flag(Grants(Run(t, ops[..|ops| - 1]), ops[|ops| - 1], id))
  }

  /**
   * No implicit rerun. Over any interleaving, a job id starts at most as often as it was admitted or successfully
   * retried, plus one if it was already queued at the start.
   */
  lemma {:induction false} StartsAreGranted(t: Table, ops: seq<Op>, id: string, capacity: nat)
    requires Sound(t, capacity) && AllAllowed(t, ops)
    ensures StartCount(t, ops, id) + Flag(HasState(Run(t, ops), id, Queued))
         <= GrantCount(t, ops, id) + Flag(HasState(t, id, Queued))
  {
    hide Sound, Allowed, AllAllowed, Step, HasState, Starts, Grants;
    if ops != [] {
      AllowedPrefix(t, ops);
      StartsAreGranted(t, ops[..|ops| - 1], id, capacity);
      RunKeeps(t, ops[..|ops| - 1], capacity);
      StepStarts(Run(t, ops[..|ops| - 1]), ops[|ops| - 1], id, capacity);
    }
  }

  ghost function RetryCount(t: Table, ops: seq<Op>, id: string): nat {
    if ops == [] then 0
    else
      var op := ops[|ops| - 1];
      RetryCount(t, ops[..|ops| - 1], id) + Flag(op.RetryOp? && Grants(Run(t, ops[..|ops| - 1]), op, id))
  }

  ghost predicate Creates(ops: seq<Op>, id: string) {
    exists i :: 0 <= i < |ops| && ops[i].AdmitOp? && ops[i].created == id
  }

  ghost predicate DistinctIds(ops: seq<Op>) {
    forall i, j :: 0 <= i < j < |ops| && ops[i].AdmitOp? && ops[j].AdmitOp? ==> ops[i].created != ops[j].created
  }

  lemma {:induction false} OneAdmission(t: Table, ops: seq<Op>, id: string)
    requires DistinctIds(ops)
    ensures GrantCount(t, ops, id) <= RetryCount(t, ops, id) + Flag(Creates(ops, id))
  {
    hide Step, Run;
    if ops != [] {
      var before, op := ops[..|ops| - 1], ops[|ops| - 1];
      OneAdmission(t, before, id);
      if Creates(before, id) {
        var i :| 0 <= i < |before| && before[i].AdmitOp? && before[i].created == id;
        assert ops[i] == before[i];
        assert op.AdmitOp? ==> op.created != id;
      }
      if op.AdmitOp? && op.created == id {
        assert Creates(ops, id);
      }
    }
  }

  /** With ids that are never drawn twice, a job starts at most once plus once per successful retry of it. */
  lemma {:induction false} StartsOncePlusRetries(t: Table, ops: seq<Op>, id: string, capacity: nat)
    requires Sound(t, capacity) && AllAllowed(t, ops) && DistinctIds(ops) && !HasState(t, id, Queued)
    ensures StartCount(t, ops, id) <= 1 + RetryCount(t, ops, id)
  {
    hide Sound, AllAllowed, HasState, DistinctIds, Run;
    StartsAreGranted(t, ops, id, capacity);
    OneAdmission(t, ops, id);
  }

  // ---------------------------------------------------------------- failed jobs stay failed

  /**
   * A failed job leaves that state only by a successful retry of its own id: no admission, worker or restart revives
   * it.
   */
  lemma FailedStaysFailed(t: Table, op: Op, id: string, capacity: nat)
    requires Sound(t, capacity) && Allowed(t, op) && HasState(t, id, Failed)
    requires !(op.RetryOp? && Grants(t, op, id))
    ensures HasState(Step(t, op), id, Failed)
  {
    hide Sound, Allowed, Admit, Retry, Pop, Begin, Sync, Persist, Finish, Restart, Grants;
    var key :| key in t.jobs && t.jobs[key].id == id && t.jobs[key].state == Failed;
    match op
    case AdmitOp(k, created, pick, writes) => AdmitSparesFailed(t, op, key);
    case RetryOp(other, ok) => RetrySparesFailed(t, other, ok, key, capacity);
    case PopOp(w) => PopSparesFailed(t, w, key, capacity);
    case CrashOp =>
      RestartKeeps(t, capacity);
      FailedIsRecorded(t, key, capacity);
      RestartFailed(t.db, id);
    case _ => WorkerSparesFailed(t, op, key, capacity);
  }

  lemma AdmitSparesFailed(t: Table, op: Op, key: JobKey)
    requires op.AdmitOp? && Allowed(t, op) && key in t.jobs && t.jobs[key].state == Failed
    ensures key in Step(t, op).jobs && Step(t, op).jobs[key] == t.jobs[key]
  {
    hide AdmitNew, EvictionLost, Forget;
    var u := Searched(t, op.key);
    SearchSparesFailed(t, op.key, key);
    if op.key !in u.jobs {
      AdmitNewSparesFailed(u, op.key, op.created, op.pick, op.writes, key);
    }
  }

  lemma SearchSparesFailed(t: Table, wanted: JobKey, key: JobKey)
    requires key in t.jobs && t.jobs[key].state == Failed
    ensures var u := Searched(t, wanted); key in u.jobs && u.jobs[key] == t.jobs[key]
    ensures wanted in Searched(t, wanted).jobs <==> wanted in t.jobs && t.jobs[wanted].state != Ready
  {
  }

  lemma AdmitNewSparesFailed(t: Table, wanted: JobKey, id: string, pick: Option<JobKey>, w: Writes, key: JobKey)
    requires key in t.jobs && t.jobs[key].state == Failed && FirstEvictable(t, pick)
    requires wanted !in t.jobs
    ensures var u := AdmitNew(t, wanted, id, pick, w).table; key in u.jobs && u.jobs[key] == t.jobs[key]
  {
  }

  lemma RetrySparesFailed(t: Table, other: string, ok: bool, key: JobKey, capacity: nat)
    requires Sound(t, capacity) && key in t.jobs && t.jobs[key].state == Failed
    requires !Grants(t, RetryOp(other, ok), t.jobs[key].id)
    ensures var u := Retry(t, other, ok).table; key in u.jobs && u.jobs[key] == t.jobs[key]
  {
    hide ReadyExact, Staffed, RowsMatch, Tracked, PendingKeys;
  }

  lemma PopSparesFailed(t: Table, worker: nat, key: JobKey, capacity: nat)
    requires Sound(t, capacity) && key in t.jobs && t.jobs[key].state == Failed
    ensures var u := Pop(t, worker); key in u.jobs && u.jobs[key] == t.jobs[key]
  {
    hide Inverse, Staffed, RowsMatch, Tracked, PendingKeys;
  }

  lemma WorkerSparesFailed(t: Table, op: Op, key: JobKey, capacity: nat)
    requires op.BeginOp? || op.SyncOp? || op.PersistOp? || op.FinishOp?
    requires Sound(t, capacity) && key in t.jobs && t.jobs[key].state == Failed
    ensures var u := Step(t, op); key in u.jobs && u.jobs[key] == t.jobs[key]
  {
    hide Sound, Begin, Sync, Persist, Finish;
    if op.worker in t.work {
      BusyIsNotFailed(t, op.worker, key, capacity);
      match op
      case BeginOp(worker, ok) => BeginSparesFailed(t, worker, ok, key);
      case SyncOp(worker, outcome, ok) => SyncSparesFailed(t, worker, outcome, ok, key);
      case PersistOp(worker, ok) =>
        PersistSparesFailed(t, worker, ok);
      case FinishOp(worker) => FinishSparesFailed(t, worker, key);
    } else {
      IdleDoesNothing(t, op);
    }
  }

  lemma BusyIsNotFailed(t: Table, worker: nat, key: JobKey, capacity: nat)
    requires Sound(t, capacity) && worker in t.work && key in t.jobs && t.jobs[key].state == Failed
    ensures t.work[worker].key != key
  {
    hide Inverse, ReadyExact, RowsMatch, Tracked, PendingKeys;
  }

  lemma IdleDoesNothing(t: Table, op: Op)
    requires op.BeginOp? || op.SyncOp? || op.PersistOp? || op.FinishOp?
    requires op.worker !in t.work
    ensures Step(t, op) == t
  {
  }

  lemma BeginSparesFailed(t: Table, worker: nat, ok: bool, key: JobKey)
    requires key in t.jobs && worker in t.work && t.work[worker].key != key
    ensures var u := Begin(t, worker, ok); key in u.jobs && u.jobs[key] == t.jobs[key]
  {
  }

  lemma SyncSparesFailed(t: Table, worker: nat, outcome: Result<string, string>, ok: bool, key: JobKey)
    requires key in t.jobs && worker in t.work && t.work[worker].key != key
    ensures var u := Sync(t, worker, outcome, ok); key in u.jobs && u.jobs[key] == t.jobs[key]
  {
  }

  lemma PersistSparesFailed(t: Table, worker: nat, ok: bool)
    ensures Persist(t, worker, ok).jobs == t.jobs
  {
  }

  lemma FinishSparesFailed(t: Table, worker: nat, key: JobKey)
    requires key in t.jobs && worker in t.work && t.work[worker].key != key
    ensures var u := Finish(t, worker); key in u.jobs && u.jobs[key] == t.jobs[key]
  {
  }

  lemma FailedIsRecorded(t: Table, key: JobKey, capacity: nat)
    requires Sound(t, capacity) && key in t.jobs && t.jobs[key].state == Failed
    ensures t.jobs[key].id in t.db && Undone(t.db[t.jobs[key].id].state)
  {
  }

  lemma RestartFailed(db: map<string, Row>, id: string)
    requires DistinctRows(db) && id in db && Undone(db[id].state)
    ensures HasState(Restart(db), id, Failed)
  {
    var rows := RecoverRows(db);
    JobsMirrorRows(rows);
    var key := rows[id].key;
    assert JobsOf(rows)[key].id == id && JobsOf(rows)[key].state == Failed;
  }

  /** An admission that meets a job of the same key that is not done returns that job and changes nothing. */
  lemma AdmissionReturnsExisting(t: Table, key: JobKey, id: string, pick: Option<JobKey>, w: Writes, capacity: nat)
    requires Sound(t, capacity) && id !in t.byId
    ensures var reply := Admit(t, key, id, pick, w);
            (reply.result.Success? && reply.result.value.id != id) <==> (key in t.jobs && t.jobs[key].state != Ready)
    ensures key in t.jobs && t.jobs[key].state != Ready ==> Admit(t, key, id, pick, w) == Reply(t, Success(t.jobs[key]))
  {
    hide Sound, AdmitNew;
    KnownIds(t, key, capacity);
    if !(key in t.jobs && t.jobs[key].state != Ready) {
      NewReply(Searched(t, key), key, id, pick, w);
    }
  }

  lemma KnownIds(t: Table, key: JobKey, capacity: nat)
    requires Sound(t, capacity)
    ensures key in t.jobs ==> t.jobs[key].id in t.byId
  {
    hide ReadyExact, Staffed, RowsMatch, Tracked, PendingKeys;
  }

  lemma NewReply(t: Table, key: JobKey, id: string, pick: Option<JobKey>, w: Writes)
    ensures var reply := AdmitNew(t, key, id, pick, w); reply.result.Success? ==> reply.result.value.id == id
  {
  }
}
