/**
 * The tables of speculative staging and its garbage collector: which raw facts reclaim deletes, and which job eviction
 * retires.
 */
module Staging {
  import opened Graphs
  import opened Orders
  import opened Results
  import opened Totals

  datatype Key = Key(repo: int, oid: string)

  datatype Fact = Fact(bytes: nat, time: int)

  type Edge = (Key, Key)

  datatype Usage = Usage(bytes: nat, firstUse: Option<int>)

  datatype Metrics = Metrics(
    producedFacts: nat, producedBytes: nat, reusedFacts: nat, reusedBytes: nat, unusedEvictedBytes: nat,
    generation: nat)

  datatype JobState = Running | PausedShutdown | PausedCapacity | PausedDemand | Ready | Obsolete | Failed

  datatype Job = Job(head: Key, ceiling: nat, completed: nat, checkpoint: Option<string>, state: JobState)

  datatype Cohort = Cohort(created: int, lastDemand: Option<int>)

  datatype Raw = Raw(facts: map<Key, Fact>, edges: map<Edge, nat>)

  datatype Ledger = Ledger(usage: map<Key, Usage>, metrics: Metrics)

  /** `jobs` lists the rows of `prefetch_jobs` in rowid order. */
  datatype Queue = Queue(jobs: seq<Job>, cohorts: map<Key, Cohort>)

  /** `members` maps each trail to the commits of its membership rows. */
  datatype State = State(raw: Raw, ledger: Ledger, queue: Queue, members: map<string, set<Key>>)

  /** The protection window, the clock, and the repositories with a queued or running index job. */
  datatype Setting = Setting(protection: int, now: int, indexing: set<int>)

  // ---------------------------------------------------------------- reclaim

  predicate Pins(state: JobState) {
    state != Obsolete && state != Failed
  }

  function PinnedHeads(jobs: seq<Job>): set<Key> {
    set job | job in jobs && Pins(job.state) :: job.head
  }

  /** Everything reachable from a pinned head along stored raw edges. */
  ghost function Pinned(raw: Raw, jobs: seq<Job>): set<Key> {
    Reachable(raw.edges.Keys, PinnedHeads(jobs))
  }

  function Held(members: map<string, set<Key>>): set<Key> {
    set trail, key | trail in members && key in members[trail] :: key
  }

  predicate Recent(fact: Fact, at: Setting) {
    at.protection != 0 && fact.time > at.now - at.protection
  }

  ghost function Victims(s: State, at: Setting): set<Key> {
    set key | key in s.raw.facts
              && key !in Pinned(s.raw, s.queue.jobs)
              && key !in Held(s.members)
              && !Recent(s.raw.facts[key], at)
              && key.repo !in at.indexing
  }

  function WithoutFacts(raw: Raw, victims: set<Key>): Raw {
    Raw(raw.facts - victims, map edge | edge in raw.edges && edge.0 !in victims :: raw.edges[edge])
  }

  function Unused(usage: map<Key, Usage>): map<Key, nat> {
    map key | key in usage && usage[key].firstUse.None? :: usage[key].bytes
  }

  function Within(usage: map<Key, Usage>, keys: set<Key>): map<Key, Usage> {
    map key | key in usage && key in keys :: usage[key]
  }

  ghost function Charge(ledger: Ledger, victims: set<Key>): Ledger {
    var m := ledger.metrics;
    Ledger(ledger.usage - victims,
           m.(unusedEvictedBytes := m.unusedEvictedBytes + Total(Unused(Within(ledger.usage, victims))),
              generation := m.generation + if victims == {} then 0 else 1))
  }

  ghost function Reclaim(s: State, at: Setting): State {
    var victims := Victims(s, at);
    s.(raw := WithoutFacts(s.raw, victims), ledger := Charge(s.ledger, victims))
  }

  ghost predicate EdgesHaveFacts(raw: Raw) {
    forall edge :: edge in raw.edges ==> edge.0 in raw.facts
  }

  lemma VictimsArePinnedFree(s: State, at: Setting)
    ensures Victims(s, at) !! Pinned(s.raw, s.queue.jobs)
  {
  }

  /** Deleting facts outside the pinned closure, with the edges that leave them, leaves that closure unchanged. */
  lemma {:induction false} PinnedSurvives(raw: Raw, jobs: seq<Job>, victims: set<Key>)
    requires victims !! Pinned(raw, jobs)
    ensures Pinned(WithoutFacts(raw, victims), jobs) == Pinned(raw, jobs)
  {
    hide Reachable;
    var pinned := Pinned(raw, jobs);
    var after := WithoutFacts(raw, victims).edges.Keys;
    assert Leaving(raw.edges.Keys, pinned) == Leaving(after, pinned) by {
      forall edge | edge in Leaving(raw.edges.Keys, pinned) ensures edge in after {
      }
    }
    ReachableFrame(raw.edges.Keys, after, PinnedHeads(jobs));
  }

  /**
   * Reclaim keeps a fact exactly when it can be reached from the head of a job that is neither obsolete nor failed, is
   * in a trail, was written within the protection window, or is in a repository being indexed. Kept facts and the edges
   * that leave them are unchanged, and so is the pinned closure.
   */
  lemma ReclaimKeeps(s: State, at: Setting)
    ensures var t := Reclaim(s, at);
            && (forall key :: key in s.raw.facts ==>
                  (key in t.raw.facts <==>
                   || (exists job :: job in s.queue.jobs && job.state !in {Obsolete, Failed}
                        && Reaches(s.raw.edges.Keys, job.head, key))
                   || (exists trail :: trail in s.members && key in s.members[trail])
                   || (at.protection != 0 && at.now < s.raw.facts[key].time + at.protection)
                   || key.repo in at.indexing))
            && (forall key :: key in t.raw.facts ==> key in s.raw.facts && t.raw.facts[key] == s.raw.facts[key])
            && (forall edge :: edge in t.raw.edges ==> edge in s.raw.edges && t.raw.edges[edge] == s.raw.edges[edge])
            && (forall edge :: edge in s.raw.edges && (edge.0 in s.raw.facts ==> edge.0 in t.raw.facts) ==>
                  edge in t.raw.edges)
            && Pinned(t.raw, t.queue.jobs) == Pinned(s.raw, s.queue.jobs)
            && t.queue == s.queue && t.members == s.members
  {
    hide Pinned;
    VictimsArePinnedFree(s, at);
    PinnedSurvives(s.raw, s.queue.jobs, Victims(s, at));
    PinnedMeans(s.raw, s.queue.jobs);
  }

  lemma PinnedMeans(raw: Raw, jobs: seq<Job>)
    ensures forall key :: key in Pinned(raw, jobs) <==>
      exists job :: job in jobs && job.state !in {Obsolete, Failed} && Reaches(raw.edges.Keys, job.head, key)
  {
    hide Reaches;
    forall key
      ensures key in Pinned(raw, jobs) <==>
        exists job :: job in jobs && job.state !in {Obsolete, Failed} && Reaches(raw.edges.Keys, job.head, key)
    {
      if job :| job in jobs && job.state !in {Obsolete, Failed} && Reaches(raw.edges.Keys, job.head, key) {
        assert job.head in PinnedHeads(jobs);
        ReachableMember(raw.edges.Keys, PinnedHeads(jobs), job.head, key);
      }
      if key in Pinned(raw, jobs) {
        var head :| head in PinnedHeads(jobs) && Reaches(raw.edges.Keys, head, key);
      }
    }
  }

  lemma ReclaimKeepsEdgesSupported(s: State, at: Setting)
    requires EdgesHaveFacts(s.raw)
    ensures EdgesHaveFacts(Reclaim(s, at).raw)
  {
  }

  /** A second run at the same time finds nothing to delete and changes nothing, not even the metrics. */
  lemma ReclaimIsIdempotent(s: State, at: Setting)
    ensures Reclaim(Reclaim(s, at), at) == Reclaim(s, at)
  {
    hide Pinned;
    VictimsArePinnedFree(s, at);
    PinnedSurvives(s.raw, s.queue.jobs, Victims(s, at));
    var t := Reclaim(s, at);
    assert Victims(t, at) == {};
    assert Unused(Within(t.ledger.usage, {})) == map[];
    assert WithoutFacts(t.raw, {}) == t.raw;
    assert t.ledger.usage - {} == t.ledger.usage;
  }

  // ---------------------------------------------------------------- the order of eviction

  datatype Rank = Rank(demanded: bool, lastDemand: int, created: int, head: Key)

  /** `ORDER BY last_demand IS NOT NULL, last_demand, COALESCE(created,0), repository_id, head_oid`. */
  predicate Before(a: Rank, b: Rank) {
    if a.demanded != b.demanded then b.demanded
    else if a.lastDemand != b.lastDemand then a.lastDemand < b.lastDemand
    else if a.created != b.created then a.created < b.created
    else if a.head.repo != b.head.repo then a.head.repo < b.head.repo
    else LexLess(a.head.oid, b.head.oid)
  }

  function RankOf(head: Key, cohorts: map<Key, Cohort>): Rank {
    if head !in cohorts then Rank(false, 0, 0, head)
    else
      var cohort := cohorts[head];
      var last := if cohort.lastDemand.Some? then cohort.lastDemand.value else 0;
      Rank(cohort.lastDemand.Some?, last, cohort.created, head)
  }

  lemma BeforeTotal(a: Rank, b: Rank)
    ensures Before(a, b) || a == b || Before(b, a)
    ensures !Before(a, a)
  {
    LexTrichotomy(a.head.oid, b.head.oid);
    LexIrreflexive(a.head.oid);
  }

  lemma BeforeTransitive(a: Rank, b: Rank, c: Rank)
    requires Before(a, b) && Before(b, c)
    ensures Before(a, c)
  {
    if a.head.repo == b.head.repo == c.head.repo && LexLess(a.head.oid, b.head.oid) && LexLess(b.head.oid, c.head.oid) {
      LexTransitive(a.head.oid, b.head.oid, c.head.oid);
    }
  }

  /** The eligible head that comes first in the eviction order. */
  function First(jobs: seq<Job>, eligible: Job -> bool, cohorts: map<Key, Cohort>): Option<Key> {
    if jobs == [] then None
    else
      var job := jobs[|jobs| - 1];
      var first := First(jobs[..|jobs| - 1], eligible, cohorts);
      if !eligible(job) then first
      else if first.None? || Before(RankOf(job.head, cohorts), RankOf(first.value, cohorts)) then Some(job.head)
      else first
  }

  /** There is a first head exactly when some job is eligible; it is eligible, and no eligible head comes before it. */
  lemma {:induction false} FirstIsLeast(jobs: seq<Job>, eligible: Job -> bool, cohorts: map<Key, Cohort>)
    ensures First(jobs, eligible, cohorts).Some? <==> exists k :: 0 <= k < |jobs| && eligible(jobs[k])
    ensures var first := First(jobs, eligible, cohorts);
            first.Some? ==>
              && (exists k :: 0 <= k < |jobs| && eligible(jobs[k]) && jobs[k].head == first.value)
              && (forall k :: 0 <= k < |jobs| && eligible(jobs[k]) ==>
                    !Before(RankOf(jobs[k].head, cohorts), RankOf(first.value, cohorts)))
  {
    if jobs != [] {
      var rest := jobs[..|jobs| - 1];
      FirstIsLeast(rest, eligible, cohorts);
      var before := First(rest, eligible, cohorts);
      var first := First(jobs, eligible, cohorts);
      var job := jobs[|jobs| - 1];
      if before.Some? {
        var k :| 0 <= k < |rest| && eligible(rest[k]) && rest[k].head == before.value;
        assert eligible(jobs[k]);
      }
      if first.Some? {
        BeforeTotal(RankOf(job.head, cohorts), RankOf(job.head, cohorts));
        forall k | 0 <= k < |jobs| && eligible(jobs[k])
          ensures !Before(RankOf(jobs[k].head, cohorts), RankOf(first.value, cohorts))
        {
          if k < |rest| && eligible(job) && before.Some? && first.value == job.head {
            var rank, mine := RankOf(rest[k].head, cohorts), RankOf(job.head, cohorts);
            var least := RankOf(before.value, cohorts);
            if Before(rank, mine) && Before(mine, least) {
              BeforeTransitive(rank, mine, least);
            }
            BeforeTotal(rank, least);
            BeforeTotal(mine, least);
          }
        }
      }
    }
  }

  // ---------------------------------------------------------------- retiring jobs

  predicate Evictable(job: Job, caller: Key, at: Setting) {
    && job.state in {Ready, PausedCapacity, PausedDemand, PausedShutdown}
    && job.head != caller
    && job.head.repo !in at.indexing
  }

  function LruVictim(queue: Queue, caller: Key, at: Setting): Option<Key> {
    First(queue.jobs, (job: Job) => Evictable(job, caller, at), queue.cohorts)
  }

  /** Eviction also forgets the progress of the retired job. */
  function Retire(jobs: seq<Job>, head: Key): seq<Job> {
    seq(|jobs|, i requires 0 <= i < |jobs| =>
      if jobs[i].head == head then jobs[i].(state := Obsolete, completed := 0, checkpoint := None) else jobs[i])
  }

  ghost function EvictLru(s: State, caller: Key, at: Setting): Option<State> {
    match LruVictim(s.queue, caller, at)
    case None => None
    case Some(head) => Some(Reclaim(s.(queue := s.queue.(jobs := Retire(s.queue.jobs, head))), at))
  }

  predicate Active(state: JobState) {
    state == Running || state == PausedShutdown || state == PausedCapacity
  }

  function ActiveCount(jobs: seq<Job>): (n: nat)
    ensures n <= |jobs|
  {
    if jobs == [] then 0
    else ActiveCount(jobs[..|jobs| - 1]) + if Active(jobs[|jobs| - 1].state) then 1 else 0
  }

  predicate Droppable(job: Job, caller: Option<Key>) {
    Active(job.state) && Some(job.head) != caller
  }

  /** The oldest `n` active jobs other than the caller's become obsolete; their progress stays as it was. */
  function DropOldest(jobs: seq<Job>, caller: Option<Key>, n: nat): seq<Job>
    decreases |jobs|
  {
    if jobs == [] then []
    else if n > 0 && Droppable(jobs[0], caller)
    then [jobs[0].(state := Obsolete)] + DropOldest(jobs[1..], caller, n - 1)
    else [jobs[0]] + DropOldest(jobs[1..], caller, n)
  }

  const MAX_ACTIVE: nat := 32

  ghost function Bound(s: State, caller: Option<Key>, at: Setting): State {
    var active := ActiveCount(s.queue.jobs);
    if active <= MAX_ACTIVE then s
    else Reclaim(s.(queue := s.queue.(jobs := DropOldest(s.queue.jobs, caller, active - MAX_ACTIVE))), at)
  }

  ghost predicate DistinctHeads(jobs: seq<Job>) {
    forall i, j :: 0 <= i < j < |jobs| ==> jobs[i].head != jobs[j].head
  }

  /** `after` differs from `before` only in rows that became obsolete. */
  ghost predicate OnlyRetires(before: seq<Job>, after: seq<Job>) {
    && |after| == |before|
    && forall i :: 0 <= i < |before| ==>
         after[i].head == before[i].head && (after[i] == before[i] || after[i].state == Obsolete)
  }

  lemma {:induction false} DropOldestShape(jobs: seq<Job>, caller: Option<Key>, n: nat)
    ensures OnlyRetires(jobs, DropOldest(jobs, caller, n))
    ensures forall i :: 0 <= i < |jobs| && Some(jobs[i].head) == caller ==> DropOldest(jobs, caller, n)[i] == jobs[i]
    decreases |jobs|
  {
    if jobs != [] {
      var left := if n > 0 && Droppable(jobs[0], caller) then n - 1 else n;
      DropOldestShape(jobs[1..], caller, left);
      var after, rest := DropOldest(jobs, caller, n), DropOldest(jobs[1..], caller, left);
      forall i | 0 <= i < |jobs|
        ensures after[i].head == jobs[i].head && (after[i] == jobs[i] || after[i].state == Obsolete)
        ensures Some(jobs[i].head) == caller ==> after[i] == jobs[i]
      {
        if i > 0 {
          assert after[i] == rest[i - 1] && jobs[i] == jobs[1..][i - 1];
        }
      }
    }
  }

  /** An active job is dropped only after every older one that may be dropped. */
  lemma {:induction false} DropsOldestFirst(jobs: seq<Job>, caller: Option<Key>, n: nat, i: nat, j: nat)
    requires i < j < |jobs| && Droppable(jobs[i], caller) && Droppable(jobs[j], caller)
    ensures |DropOldest(jobs, caller, n)| == |jobs|
    ensures DropOldest(jobs, caller, n)[j].state == Obsolete ==> DropOldest(jobs, caller, n)[i].state == Obsolete
    decreases |jobs|
  {
    DropOldestShape(jobs, caller, n);
    var left := if n > 0 && Droppable(jobs[0], caller) then n - 1 else n;
    DropOldestShape(jobs[1..], caller, left);
    if i > 0 {
      DropsOldestFirst(jobs[1..], caller, left, i - 1, j - 1);
    } else if n == 0 {
      DropNothing(jobs, caller);
    }
  }

  lemma {:induction false} DropNothing(jobs: seq<Job>, caller: Option<Key>)
    ensures DropOldest(jobs, caller, 0) == jobs
    decreases |jobs|
  {
    if jobs != [] {
      DropNothing(jobs[1..], caller);
    }
  }

  function DroppableCount(jobs: seq<Job>, caller: Option<Key>): nat {
    if jobs == [] then 0 else DroppableCount(jobs[1..], caller) + if Droppable(jobs[0], caller) then 1 else 0
  }

  lemma {:induction false} ActiveCountFront(jobs: seq<Job>)
    requires jobs != []
    ensures ActiveCount(jobs) == ActiveCount(jobs[1..]) + if Active(jobs[0].state) then 1 else 0
    decreases |jobs|
  {
    if |jobs| > 1 {
      ActiveCountFront(jobs[..|jobs| - 1]);
      assert jobs[..|jobs| - 1][1..] == jobs[1..][..|jobs| - 2];
    } else {
      assert jobs[1..] == [] && jobs[..0] == [];
    }
  }

  lemma {:induction false} DropOldestCount(jobs: seq<Job>, caller: Option<Key>, n: nat)
    requires n <= DroppableCount(jobs, caller)
    ensures ActiveCount(DropOldest(jobs, caller, n)) == ActiveCount(jobs) - n
    decreases |jobs|
  {
    if jobs != [] {
      var left := if n > 0 && Droppable(jobs[0], caller) then n - 1 else n;
      DropOldestCount(jobs[1..], caller, left);
      ActiveCountFront(jobs);
      ActiveCountFront(DropOldest(jobs, caller, n));
      assert DropOldest(jobs, caller, n)[1..] == DropOldest(jobs[1..], caller, left);
    }
  }

  lemma {:induction false} AtMostOneCaller(jobs: seq<Job>, caller: Option<Key>)
    requires DistinctHeads(jobs)
    ensures ActiveCount(jobs) <= DroppableCount(jobs, caller) + 1
    ensures (forall i :: 0 <= i < |jobs| ==> Some(jobs[i].head) != caller) ==>
      ActiveCount(jobs) == DroppableCount(jobs, caller)
    decreases |jobs|
  {
    if jobs != [] {
      assert forall i :: 0 <= i < |jobs| - 1 ==> jobs[1..][i] == jobs[i + 1];
      AtMostOneCaller(jobs[1..], caller);
      ActiveCountFront(jobs);
      if Some(jobs[0].head) == caller {
        assert forall i :: 0 <= i < |jobs| - 1 ==> jobs[1..][i].head != jobs[0].head;
      }
    }
  }

  /** After the bound at most 32 jobs are active, the calling job is untouched, and no row but an active one changes. */
  lemma BoundHolds(s: State, caller: Option<Key>, at: Setting)
    requires DistinctHeads(s.queue.jobs)
    ensures var t := Bound(s, caller, at);
            && ActiveCount(t.queue.jobs) <= 32
            && OnlyRetires(s.queue.jobs, t.queue.jobs)
            && (forall i :: 0 <= i < |s.queue.jobs| && Some(s.queue.jobs[i].head) == caller ==>
                  t.queue.jobs[i] == s.queue.jobs[i])
            && (ActiveCount(s.queue.jobs) > 32 ==> ActiveCount(t.queue.jobs) == 32)
  {
    hide Victims, WithoutFacts, Charge, ActiveCount, DropOldest;
    var active := ActiveCount(s.queue.jobs);
    if active > MAX_ACTIVE {
      AtMostOneCaller(s.queue.jobs, caller);
      DropOldestCount(s.queue.jobs, caller, active - MAX_ACTIVE);
      DropOldestShape(s.queue.jobs, caller, active - MAX_ACTIVE);
    }
  }
}
