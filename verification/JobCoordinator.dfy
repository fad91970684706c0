/** The coordinator that changes the job table in place. Its `expect`s are the domain checks of these methods. */
module JobCoordinators {
  import opened Jobs
  import opened JobSafety
  import opened Results

  method Recover(rows: map<string, Row>)
    returns (recovered: map<string, Row>, table: map<JobKey, Job>, index: map<string, JobKey>)
    requires DistinctRows(rows)
    ensures recovered == RecoverRows(rows) && DistinctRows(recovered)
    ensures table == JobsOf(recovered) && index == KeysOf(recovered)
    ensures forall key :: key in table ==> !Pending(table[key].state)
  {
    hide Mirrors, RecoverRows, JobsOf, KeysOf, DistinctRows;
    recovered := RecoverRows(rows);
    RecoveredRows(rows);
    var done: map<string, Row>, left := map[], recovered.Keys;
    table, index := map[], map[];
    NothingMirrors();
    while left != {}
      invariant left <= recovered.Keys && done == recovered - left
      invariant index == KeysOf(done) && Mirrors(table, done)
      decreases left
    {
      var id :| id in left;
      var row := recovered[id];
      MirrorGrows(table, done, recovered, id);
      OneMoreRow(recovered, done, left, id);
      index := index[id := row.key];
      table := table[row.key := Job(id, row.state, row.failure)];
      left := left - {id};
      done := done[id := row];
    }
    assert done == recovered - {} == recovered;
    MirrorIsUnique(table, recovered);
    MirrorHasNothingPending(table, recovered);
  }

  class JobCoordinator {
    var jobs: map<JobKey, Job>
    var byId: map<string, JobKey>
    var ready: seq<JobKey>
    var demand: int
    /** The `index_jobs` rows, written through the publication queue. */
    var db: map<string, Row>
    /** The locals of the worker threads. */
    var work: map<nat, Work>

    function State(): Table
      reads this
    {
      Table(jobs, byId, ready, demand, db, work)
    }

    /** `new`: the persisted rows, with interrupted jobs marked failed, become the table. */
    constructor (rows: map<string, Row>)
      requires DistinctRows(rows)
      ensures State() == Restart(rows)
      ensures ready == [] && forall key :: key in jobs ==> !Pending(jobs[key].state)
    {
      hide JobsOf, KeysOf, RecoverRows, DistinctRows;
      var recovered, table, index := Recover(rows);
      jobs, byId, ready, demand, db, work := table, index, [], 0, recovered, map[];
    }

    method Remove(key: JobKey)
      requires key in jobs
      modifies this
      ensures State() == Forget(old(State()), key)
    {
      var id := jobs[key].id;
      db := db - {id};
      jobs := jobs - {key};
      byId := byId - {id};
    }

    /** Some job that may be evicted, in the order of the hash map. */
    method FindEvictable() returns (pick: Option<JobKey>)
      ensures FirstEvictable(State(), pick)
    {
      if key :| key in jobs && Evictable(jobs[key].state) {
        pick := Some(key);
      } else {
        pick := None;
      }
    }

    /** `id` is the new random id, and `w` says which of the writes succeed. */
    method AdmitJob(key: JobKey, id: string, w: Writes)
      returns (result: Result<Job, Refusal>, ghost pick: Option<JobKey>)
      modifies this
      ensures FirstEvictable(Searched(old(State()), key), pick)
      ensures Reply(State(), result) == Admit(old(State()), key, id, pick, w)
      ensures State() == Step(old(State()), AdmitOp(key, id, pick, w))
      ensures forall capacity: nat ::
        old(Sound(State(), capacity)) && id !in old(byId) && !EvictionLost(old(State()), key, pick, w) ==>
          Sound(State(), capacity)
    {
      hide FirstEvictable, Sound, EvictionLost;
      ghost var before := State();
      result, pick := AdmitStep(key, id, w);
      forall capacity: nat | Sound(before, capacity) && id !in before.byId && !EvictionLost(before, key, pick, w)
        ensures Sound(State(), capacity)
      {
        AdmitKeepsExactly(before, key, id, pick, w, capacity);
      }
    }

    method AdmitStep(key: JobKey, id: string, w: Writes)
      returns (result: Result<Job, Refusal>, ghost pick: Option<JobKey>)
      modifies this
      ensures FirstEvictable(Searched(old(State()), key), pick)
      ensures Reply(State(), result) == Admit(old(State()), key, id, pick, w)
    {
      hide FirstEvictable, AdmitNew;
      ghost var before := State();
      if key in jobs {
        if jobs[key].state != Ready {
          result := Success(jobs[key]);
          pick := FindEvictable();
          return;
        }
        if !w.remove {
          result := Failure(WriteFailed);
          pick := FindInSearched(before, key);
          return;
        }
        Remove(key);
      }
      result, pick := AdmitAbsent(key, id, w);
    }

    method AdmitAbsent(key: JobKey, id: string, w: Writes)
      returns (result: Result<Job, Refusal>, ghost pick: Option<JobKey>)
      modifies this
      ensures FirstEvictable(old(State()), pick)
      ensures Reply(State(), result) == AdmitNew(old(State()), key, id, pick, w)
    {
      hide FirstEvictable;
      var found := FindEvictable();
      pick := found;
      if |ready| >= MAX_READY {
        return Failure(Busy), found;
      }
      if |jobs| >= MAX_JOBS {
        FoundIsEvictable(State(), found);
        match found
        case None =>
          return Failure(CapacityFull), found;
        case Some(previous) =>
          if !w.evict {
            jobs := jobs - {previous};
            return Failure(WriteFailed), found;
          }
          Remove(previous);
      }
      result := InsertJob(key, id, w.insert);
    }

    method InsertJob(key: JobKey, id: string, ok: bool) returns (result: Result<Job, Refusal>)
      modifies this
      ensures Reply(State(), result) == Insert(old(State()), key, id, ok)
    {
      if !ok {
        return Failure(WriteFailed);
      }
      var job := Job(id, Queued, None);
      db := db[id := Row(key, Queued, None)];
      byId := byId[id := key];
      ready := ready + [key];
      jobs := jobs[key := job];
      demand := demand + 1;
      return Success(job);
    }

    method RetryJob(id: string, ok: bool, ghost capacity: nat) returns (result: Result<Job, Refusal>)
      requires Sound(State(), capacity)
      modifies this
      ensures Reply(State(), result) == Retry(old(State()), id, ok) && Sound(State(), capacity)
      ensures State() == Step(old(State()), RetryOp(id, ok))
    {
      hide Sound, SetRow;
      RetryKeeps(State(), id, ok, capacity);
      IdsKnow(State(), capacity);
      if id !in byId {
        return Failure(UnknownJob);
      }
      var key := byId[id];
      if jobs[key].state != Failed {
        return Failure(NotFailed);
      }
      if |ready| >= MAX_READY {
        return Failure(Busy);
      }
      if !ok {
        return Failure(WriteFailed);
      }
      db := SetRow(db, id, Queued, None);
      var job := jobs[key].(state := Queued, failure := None);
      jobs := jobs[key := job];
      ready := ready + [key];
      demand := demand + 1;
      return Success(job);
    }

    /** A worker that holds no job takes the first one, if any. */
    method TakeNext(worker: nat, ghost capacity: nat) returns (key: Option<JobKey>)
      requires Sound(State(), capacity) && worker !in work
      modifies this
      ensures State() == Pop(old(State()), worker) == Step(old(State()), PopOp(worker)) && Sound(State(), capacity)
      ensures key == if old(ready) == [] then None else Some(old(ready)[0])
    {
      hide Inverse, Staffed, RowsMatch, Tracked, PendingKeys;
      PopKeeps(State(), worker, capacity);
      if ready == [] {
        return None;
      }
      var first := ready[0];
      ready := ready[1..];
      var job := jobs[first];
      jobs := jobs[first := job.(state := Running)];
      work := work[worker := Work(first, job.id, Claimed, None)];
      return Some(first);
    }

    method CloseJob(worker: nat, state: JobState, failure: Option<string>)
      requires worker in work && work[worker].key in jobs
      modifies this
      ensures State() == Close(old(State()), worker, state, failure)
    {
      var key := work[worker].key;
      var job := jobs[key];
      jobs := jobs[key := job.(state := state, failure := if failure.Some? then failure else job.failure)];
      demand := demand - 1;
      work := work - {worker};
    }

    method PersistRunning(worker: nat, ok: bool, ghost capacity: nat)
      requires Sound(State(), capacity) && worker in work && work[worker].phase == Claimed
      modifies this
      ensures State() == Begin(old(State()), worker, ok) == Step(old(State()), BeginOp(worker, ok))
      ensures Sound(State(), capacity)
    {
      hide Inverse, ReadyExact, RowsMatch, Tracked, PendingKeys, Staffed;
      BeginKeeps(State(), worker, ok, capacity);
      WorkerHoldsJob(jobs, work, worker);
      if ok {
        db := SetRow(db, work[worker].id, Running, None);
        work := work[worker := work[worker].(phase := Working)];
      } else {
        CloseJob(worker, Failed, Some("could not persist indexing state"));
      }
    }

    /** The synchronization returned; on success the job moves to the key of the generation it observed. */
    method Synchronized(worker: nat, outcome: Result<string, string>, ok: bool, ghost capacity: nat)
      requires Sound(State(), capacity) && worker in work && work[worker].phase == Working
      modifies this
      ensures State() == Sync(old(State()), worker, outcome, ok) == Step(old(State()), SyncOp(worker, outcome, ok))
      ensures Sound(State(), capacity)
    {
      hide Sound;
      SyncKeeps(State(), worker, outcome, ok, capacity);
      SoundHoldsJob(State(), worker, capacity);
      var w := work[worker];
      match outcome
      case Failure(error) =>
        work := work[worker := w.(phase := Synced, failure := Some(error))];
      case Success(generation) =>
        var refined := w.key.(generation := generation);
        if w.key.generation == generation || refined in jobs {
          work := work[worker := w.(phase := Synced)];
          return;
        }
        var job := jobs[w.key];
        if !ok {
          work := work[worker := w.(phase := Synced, failure := Some("could not update the job key"))];
          return;
        }
        if job.id in db {
          db := db[job.id := db[job.id].(key := refined)];
        }
        jobs := jobs - {w.key};
        byId := byId[job.id := refined];
        jobs := jobs[refined := job];
        work := work[worker := w.(key := refined, phase := Synced)];
    }

    method PersistResult(worker: nat, ok: bool, ghost capacity: nat)
      requires Sound(State(), capacity) && worker in work && work[worker].phase == Synced
      modifies this
      ensures State() == Persist(old(State()), worker, ok) == Step(old(State()), PersistOp(worker, ok))
      ensures Sound(State(), capacity)
    {
      hide Sound;
      PersistKeeps(State(), worker, ok, capacity);
      var w := work[worker];
      if ok {
        db := SetRow(db, w.id, Final(w), w.failure);
      }
      work := work[worker := w.(phase := Persisted)];
    }

    method FinishJob(worker: nat, ghost capacity: nat)
      requires Sound(State(), capacity) && worker in work && work[worker].phase == Persisted
      modifies this
      ensures State() == Finish(old(State()), worker) == Step(old(State()), FinishOp(worker))
        && Sound(State(), capacity)
    {
      hide Inverse, ReadyExact, RowsMatch, Tracked, PendingKeys, Staffed;
      FinishKeeps(State(), worker, capacity);
      WorkerHoldsJob(jobs, work, worker);
      CloseJob(worker, Final(work[worker]), work[worker].failure);
    }

    /** A job id that the index names always has a job, so a status query never dangles. */
    method Status(id: string, ghost capacity: nat) returns (job: Option<Job>)
      requires Sound(State(), capacity)
      ensures job.Some? <==> exists key :: key in jobs && jobs[key].id == id
      ensures job.Some? ==> job.value.id == id && job.value in jobs.Values
    {
      hide ReadyExact, Staffed, RowsMatch, Tracked, PendingKeys;
      if id in byId && byId[id] in jobs {
        job := Some(jobs[byId[id]]);
      } else {
        job := None;
      }
    }
  }

  lemma IdsKnow(t: Table, capacity: nat)
    requires Sound(t, capacity)
    ensures forall id :: id in t.byId ==> t.byId[id] in t.jobs
  {
    hide ReadyExact, Staffed, RowsMatch, Tracked, PendingKeys;
  }

  lemma SoundHoldsJob(t: Table, worker: nat, capacity: nat)
    requires Sound(t, capacity) && worker in t.work
    ensures t.work[worker].key in t.jobs
  {
    hide Inverse, ReadyExact, RowsMatch, Tracked, PendingKeys;
    WorkerHoldsJob(t.jobs, t.work, worker);
  }

  lemma OneMoreRow(rows: map<string, Row>, done: map<string, Row>, left: set<string>, id: string)
    requires left <= rows.Keys && done == rows - left && id in left
    ensures done[id := rows[id]] == rows - (left - {id})
    ensures KeysOf(done)[id := rows[id].key] == KeysOf(done[id := rows[id]])
  {
  }

  lemma RecoveredRows(rows: map<string, Row>)
    requires DistinctRows(rows)
    ensures DistinctRows(RecoverRows(rows)) && forall id :: id in RecoverRows(rows) ==>
      !Pending(RecoverRows(rows)[id].state)
  {
  }

  lemma NothingMirrors()
    ensures Mirrors(map[], map[]) && KeysOf(map[]) == map[]
  {
  }

  lemma MirrorGrows(table: map<JobKey, Job>, done: map<string, Row>, rows: map<string, Row>, id: string)
    requires Mirrors(table, done) && DistinctRows(rows) && id in rows && id !in done
    requires forall other :: other in done ==> other in rows && done[other] == rows[other]
    ensures Mirrors(table[rows[id].key := Job(id, rows[id].state, rows[id].failure)], done[id := rows[id]])
  {
  }

  lemma MirrorIsUnique(table: map<JobKey, Job>, rows: map<string, Row>)
    requires DistinctRows(rows) && Mirrors(table, rows)
    ensures table == JobsOf(rows)
  {
  }

  lemma MirrorHasNothingPending(table: map<JobKey, Job>, rows: map<string, Row>)
    requires Mirrors(table, rows) && forall id :: id in rows ==> !Pending(rows[id].state)
    ensures forall key :: key in table ==> !Pending(table[key].state)
  {
  }

  lemma FindInSearched(t: Table, key: JobKey) returns (pick: Option<JobKey>)
    ensures FirstEvictable(Searched(t, key), pick)
  {
    var u := Searched(t, key);
    if k :| k in u.jobs && Evictable(u.jobs[k].state) {
      pick := Some(k);
    } else {
      pick := None;
    }
  }

  lemma FoundIsEvictable(t: Table, pick: Option<JobKey>)
    requires FirstEvictable(t, pick)
    ensures pick.Some? ==> pick.value in t.jobs
  {
  }
}
