/** The order in which jobs are evicted and trimmed, said on their demands, creation times and names. */
module EvictionOrder {
  import opened Batches
  import opened Orders
  import opened Quota
  import opened Results
  import opened Staging

  function LastDemand(cohorts: map<Key, Cohort>, head: Key): Option<int> {
    if head in cohorts then cohorts[head].lastDemand else None
  }

  function Created(cohorts: map<Key, Cohort>, head: Key): int {
    if head in cohorts then cohorts[head].created else 0
  }

  /**
   * `head` goes no later than `other`: a head that was never demanded before one that was, then the earlier last
   * demand, then the earlier creation, then the smaller repository, then the smaller OID.
   */
  ghost predicate NoLater(cohorts: map<Key, Cohort>, head: Key, other: Key) {
    var a, b := LastDemand(cohorts, head), LastDemand(cohorts, other);
    || (a.None? && b.Some?)
    || (a.Some? && b.Some? && a.value < b.value)
    || (a == b && (|| Created(cohorts, head) < Created(cohorts, other)
                   || (&& Created(cohorts, head) == Created(cohorts, other)
                       && (|| head.repo < other.repo
                           || (head.repo == other.repo && TextUpTo(head.oid, other.oid))))))
  }

  lemma NotBeforeIsNoLater(cohorts: map<Key, Cohort>, head: Key, other: Key)
    requires !Before(RankOf(other, cohorts), RankOf(head, cohorts))
    ensures NoLater(cohorts, head, other)
  {
    LexTrichotomy(head.oid, other.oid);
    LexMeans(head.oid, other.oid);
  }

  /** Neither running nor already given up, not the caller's own, and not of a repository that is being indexed. */
  predicate MayGo(job: Job, caller: Key, at: Setting) {
    && job.state != Running && job.state != Obsolete && job.state != Failed
    && job.head != caller
    && job.head.repo !in at.indexing
  }

  /**
   * The victim of an eviction is an eligible job than which no eligible job goes sooner. In particular, when it was
   * demanded every eligible one was, and none less recently.
   */
  lemma {:induction false} VictimIsLeastRecentlyUsed(queue: Queue, caller: Key, at: Setting)
    ensures var victim := LruVictim(queue, caller, at);
            && (victim.None? <==> forall job :: job in queue.jobs ==> !MayGo(job, caller, at))
            && (victim.Some? ==>
                 && (exists job :: job in queue.jobs && MayGo(job, caller, at) && job.head == victim.value)
                 && forall job :: job in queue.jobs && MayGo(job, caller, at) ==>
                      && NoLater(queue.cohorts, victim.value, job.head)
                      && (LastDemand(queue.cohorts, victim.value).Some? ==>
                            && LastDemand(queue.cohorts, job.head).Some?
                            && LastDemand(queue.cohorts, victim.value).value
                                 <= LastDemand(queue.cohorts, job.head).value))
  {
    hide Before, RankOf, NoLater, LastDemand, TextUpTo;
    var eligible := (job: Job) => Evictable(job, caller, at);
    LeastFirst(queue.jobs, eligible, queue.cohorts);
    forall job | job in queue.jobs ensures eligible(job) <==> MayGo(job, caller, at) {
    }
    if LruVictim(queue, caller, at).Some? {
      forall job | job in queue.jobs && MayGo(job, caller, at)
        ensures NoLater(queue.cohorts, LruVictim(queue, caller, at).value, job.head)
      {
        assert eligible(job);
      }
      NoLaterDemands(queue.cohorts, LruVictim(queue, caller, at).value);
    }
  }

  lemma NoLaterDemands(cohorts: map<Key, Cohort>, head: Key)
    ensures forall other :: NoLater(cohorts, head, other) && LastDemand(cohorts, head).Some? ==>
      LastDemand(cohorts, other).Some? && LastDemand(cohorts, head).value <= LastDemand(cohorts, other).value
  {
    hide TextUpTo, LastDemand;
  }

  lemma {:induction false} LeastFirst(jobs: seq<Job>, eligible: Job -> bool, cohorts: map<Key, Cohort>)
    ensures var first := First(jobs, eligible, cohorts);
            && (first.None? <==> forall job :: job in jobs ==> !eligible(job))
            && (first.Some? ==>
                 && (exists job :: job in jobs && eligible(job) && job.head == first.value)
                 && forall job :: job in jobs && eligible(job) ==> NoLater(cohorts, first.value, job.head))
  {
    hide Before, RankOf, NoLater;
    FirstIsLeast(jobs, eligible, cohorts);
    var first := First(jobs, eligible, cohorts);
    if first.Some? {
      var k :| 0 <= k < |jobs| && eligible(jobs[k]) && jobs[k].head == first.value;
      assert jobs[k] in jobs;
      forall job | job in jobs && eligible(job) ensures NoLater(cohorts, first.value, job.head) {
        var i :| 0 <= i < |jobs| && jobs[i] == job;
        NotBeforeIsNoLater(cohorts, first.value, job.head);
      }
    } else {
      forall job | job in jobs ensures !eligible(job) {
        var i :| 0 <= i < |jobs| && jobs[i] == job;
      }
    }
  }

  /** One eviction changes only rows of the victim, which no eligible row precedes. */
  lemma {:induction false} OneEvictionInOrder(s: State, caller: Key, at: Setting, i: nat, k: nat)
    requires EvictLru(s, caller, at).Some? && i < |s.queue.jobs| && k < |s.queue.jobs|
    ensures var t := EvictLru(s, caller, at).value;
            && |t.queue.jobs| == |s.queue.jobs| && t.queue.cohorts == s.queue.cohorts
            && t.queue.jobs[i].head == s.queue.jobs[i].head
            && (MayGo(t.queue.jobs[i], caller, at) ==> t.queue.jobs[i] == s.queue.jobs[i])
            && (t.queue.jobs[i] != s.queue.jobs[i] && MayGo(s.queue.jobs[k], caller, at) ==>
                  NoLater(s.queue.cohorts, s.queue.jobs[i].head, s.queue.jobs[k].head))
  {
    hide Victims, Charge, NoLater, First;
    VictimIsLeastRecentlyUsed(s.queue, caller, at);
    assert s.queue.jobs[k] in s.queue.jobs;
  }

  /**
   * Making room for a batch retires jobs in that order, however many it takes: a job that is retired goes no later than
   * any job that is still eligible afterwards.
   */
  lemma {:induction false} MakingRoomInOrder(s: State, r: Request, at: Setting, attempts: nat, i: nat, k: nat)
    requires attempts <= MAX_ATTEMPTS && i < |s.queue.jobs| && k < |s.queue.jobs|
    ensures var t := Settle(s, r, at, attempts);
            && |t.queue.jobs| == |s.queue.jobs|
            && (MayGo(t.queue.jobs[k], r.Caller(), at) ==> t.queue.jobs[k] == s.queue.jobs[k])
            && (t.queue.jobs[i] != s.queue.jobs[i] && MayGo(t.queue.jobs[k], r.Caller(), at) ==>
                  NoLater(s.queue.cohorts, s.queue.jobs[i].head, s.queue.jobs[k].head))
    decreases MAX_ATTEMPTS - attempts
  {
    hide Reclaim, EvictLru, Fits, NoLater, MayGo;
    if Fits(s, r) {
    } else if attempts == 0 {
      ReclaimStep(s, at);
      MakingRoomInOrder(Reclaim(s, at), r, at, 1, i, k);
    } else if attempts < MAX_ATTEMPTS && EvictLru(s, r.Caller(), at).Some? {
      OneEvictionInOrder(s, r.Caller(), at, i, k);
      OneEvictionInOrder(s, r.Caller(), at, k, k);
      MakingRoomInOrder(EvictLru(s, r.Caller(), at).value, r, at, attempts + 1, i, k);
    }
  }

  ghost function Changed(before: seq<Job>, after: seq<Job>): set<nat> {
    set i: nat | i < |before| && i < |after| && after[i] != before[i]
  }

  lemma ChangedTwice(a: seq<Job>, b: seq<Job>, c: seq<Job>)
    requires |a| == |b| == |c|
    ensures |Changed(a, c)| <= |Changed(a, b)| + |Changed(b, c)|
  {
    var both := Changed(a, b) + Changed(b, c);
    assert both == Changed(a, c) + (both - Changed(a, c));
  }

  lemma RetireChangesOne(jobs: seq<Job>, head: Key)
    requires DistinctHeads(jobs)
    ensures |Changed(jobs, Retire(jobs, head))| <= 1 && DistinctHeads(Retire(jobs, head))
  {
    if i: nat :| i < |jobs| && jobs[i].head == head {
      var changed := Changed(jobs, Retire(jobs, head));
      assert changed == if Retire(jobs, head)[i] != jobs[i] then {i} else {};
    } else {
      assert Changed(jobs, Retire(jobs, head)) == {};
    }
  }

  /** Making room for one batch retires at most 256 jobs. */
  lemma {:induction false} RetiresAtMost(s: State, r: Request, at: Setting, attempts: nat)
    requires attempts <= 257 && DistinctHeads(s.queue.jobs)
    ensures var t := Settle(s, r, at, attempts);
            && |t.queue.jobs| == |s.queue.jobs|
            && |Changed(s.queue.jobs, t.queue.jobs)| <= if attempts == 0 then 256 else 257 - attempts
    decreases 257 - attempts
  {
    hide Reclaim, Fits, Retire, First, Changed, DistinctHeads;
    var after := Settle(s, r, at, attempts).queue.jobs;
    if Fits(s, r) {
      NothingChanged(s.queue.jobs);
    } else if attempts == 0 {
      ReclaimStep(s, at);
      RetiresAtMost(Reclaim(s, at), r, at, 1);
    } else if attempts < 257 && EvictLru(s, r.Caller(), at).Some? {
      var head, next := LruVictim(s.queue, r.Caller(), at).value, EvictLru(s, r.Caller(), at).value;
      RetireChangesOne(s.queue.jobs, head);
      RetireShape(s.queue.jobs, head);
      ReclaimStep(s.(queue := s.queue.(jobs := Retire(s.queue.jobs, head))), at);
      RetiresAtMost(next, r, at, attempts + 1);
      ChangedTwice(s.queue.jobs, next.queue.jobs, after);
    } else {
      NothingChanged(s.queue.jobs);
    }
  }

  lemma NothingChanged(jobs: seq<Job>)
    ensures Changed(jobs, jobs) == {}
  {
  }

  // ---------------------------------------------------------------- trimming

  lemma {:induction false} OthersKeepCohorts(queue: Queue, gone: Key, head: Key, other: Key)
    requires head != gone && other != gone
    ensures NoLater(Delete(queue, gone).cohorts, head, other) <==> NoLater(queue.cohorts, head, other)
  {
    hide TextUpTo;
  }

  /** Trimming deletes terminal rows in that order: a row it deletes goes no later than a terminal one it leaves. */
  lemma {:induction false} TrimsInOrder(queue: Queue, n: nat, gone: Job, kept: Job)
    requires DistinctHeads(queue.jobs) && n <= TerminalCount(queue.jobs)
    requires gone in queue.jobs && gone !in Trim(queue, n).jobs && kept in Trim(queue, n).jobs
      && kept.state in {Ready, PausedDemand, Obsolete}
    ensures NoLater(queue.cohorts, gone.head, kept.head)
    decreases n
  {
    hide FirstTerminal, NoLater, DeleteRow, TerminalCount, RowOf, DistinctHeads;
    if n > 0 {
      var rest := OneTrimmed(queue);
      var head := FirstTerminal(queue).value;
      TrimDeletesTerminalRows(rest, n - 1);
      if gone.head != head {
        TrimsInOrder(rest, n - 1, gone, kept);
        OthersKeepCohorts(queue, head, gone.head, kept.head);
      }
    }
  }

  /** A cohort goes exactly with a row of its head, and the others stay as they were. */
  lemma {:induction false} TrimsCohorts(queue: Queue, n: nat, head: Key)
    requires DistinctHeads(queue.jobs) && n <= TerminalCount(queue.jobs)
    ensures var after := Trim(queue, n);
            && (head in after.cohorts <==>
                  head in queue.cohorts && forall job :: job in queue.jobs && job.head == head ==> job in after.jobs)
            && (head in after.cohorts ==> after.cohorts[head] == queue.cohorts[head])
    decreases n
  {
    hide FirstTerminal, DeleteRow, TerminalCount, RowOf, DistinctHeads;
    if n > 0 {
      var rest := OneTrimmed(queue);
      TrimDeletesTerminalRows(rest, n - 1);
      TrimsCohorts(rest, n - 1, head);
      if head == FirstTerminal(queue).value {
        FirstTerminalIsTerminal(queue);
        RowOfMember(queue.jobs, head);
      }
    }
  }

  lemma {:induction false} OneTrimmed(queue: Queue) returns (rest: Queue)
    requires DistinctHeads(queue.jobs) && TerminalCount(queue.jobs) > 0
    ensures FirstTerminal(queue).Some? && rest == Delete(queue, FirstTerminal(queue).value)
    ensures DistinctHeads(rest.jobs) && TerminalCount(rest.jobs) == TerminalCount(queue.jobs) - 1
    ensures forall job :: job in rest.jobs <==> job in queue.jobs && job.head != FirstTerminal(queue).value
    ensures forall job :: job in queue.jobs && Terminal(job.state) ==>
      NoLater(queue.cohorts, FirstTerminal(queue).value, job.head)
  {
    hide DeleteRow, TerminalCount, RowOf, NoLater, First;
    FirstTerminalIsTerminal(queue);
    var head := FirstTerminal(queue).value;
    rest := Delete(queue, head);
    DeleteKeepsDistinct(queue.jobs, head);
    DeleteCount(queue.jobs, head);
    LeastFirst(queue.jobs, (job: Job) => Terminal(job.state), queue.cohorts);
  }
}
