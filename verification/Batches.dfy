/**
 * Staging operations on the tables: recording a batch under a quota, job states, publication of raw facts, and usage.
 */
module Batches {
  import opened Graphs
  import opened Results
  import opened Staging
  import opened Totals

  datatype BatchFact = BatchFact(oid: string, bytes: nat, time: int)

  /** The `facts` and `parents` of one call, for one repository. */
  datatype Batch = Batch(repo: int, facts: seq<BatchFact>, parents: map<string, seq<string>>)

  datatype NewFact = NewFact(key: Key, fact: Fact, retained: bool)

  datatype NewEdge = NewEdge(edge: Edge, bytes: nat)

  /** What a batch would add: its bytes outside trails, its missing facts, and its missing edges. */
  datatype Plan = Plan(additional: nat, facts: seq<NewFact>, edges: seq<NewEdge>)

  function ParentsOf(batch: Batch, oid: string): seq<string> {
    if oid in batch.parents then batch.parents[oid] else []
  }

  function EdgeBytes(child: string, parent: string): nat {
    |child| + |parent| + 32
  }

  function MissingEdges(raw: Raw, repo: int, child: string, parents: seq<string>): seq<NewEdge> {
    if parents == [] then []
    else
      var parent := parents[|parents| - 1];
      var edge := (Key(repo, child), Key(repo, parent));
      MissingEdges(raw, repo, child, parents[..|parents| - 1])
      + if edge in raw.edges then [] else [NewEdge(edge, EdgeBytes(child, parent))]
  }

  function EdgeTotal(edges: seq<NewEdge>): nat {
    if edges == [] then 0 else EdgeTotal(edges[..|edges| - 1]) + edges[|edges| - 1].bytes
  }

  function PlanFact(raw: Raw, held: set<Key>, batch: Batch, f: BatchFact): Plan {
    var key := Key(batch.repo, f.oid);
    var edges := MissingEdges(raw, batch.repo, f.oid, ParentsOf(batch, f.oid));
    var facts := if key in raw.facts then [] else [NewFact(key, Fact(f.bytes, f.time), key in held)];
    Plan(if key in held then 0 else (if key in raw.facts then 0 else f.bytes) + EdgeTotal(edges), facts, edges)
  }

  function PlanOf(raw: Raw, held: set<Key>, batch: Batch, n: nat): Plan
    requires n <= |batch.facts|
  {
    if n == 0 then Plan(0, [], [])
    else
      var before, mine := PlanOf(raw, held, batch, n - 1), PlanFact(raw, held, batch, batch.facts[n - 1]);
      Plan(before.additional + mine.additional, before.facts + mine.facts, before.edges + mine.edges)
  }

  // ---------------------------------------------------------------- insertion

  /** The bytes charged to a fact: its own and those of the new edges that leave it. */
  function EdgesFrom(edges: seq<NewEdge>, key: Key): nat {
    if edges == [] then 0
    else
      var last := edges[|edges| - 1];
      EdgesFrom(edges[..|edges| - 1], key) + if last.edge.0 == key then last.bytes else 0
  }

  function InsertFact(raw: Raw, key: Key, fact: Fact): Raw {
    if key in raw.facts then raw else raw.(facts := raw.facts[key := fact])
  }

  function InsertEdge(raw: Raw, edge: Edge, bytes: nat): Raw {
    if edge in raw.edges then raw else raw.(edges := raw.edges[edge := bytes])
  }

  function Produce(ledger: Ledger, key: Key, bytes: nat): Ledger {
    var m := ledger.metrics;
    Ledger(if key in ledger.usage then ledger.usage else ledger.usage[key := Usage(bytes, None)],
           m.(producedFacts := m.producedFacts + 1, producedBytes := m.producedBytes + bytes))
  }

  function AddFacts(raw: Raw, facts: seq<NewFact>): Raw {
    if facts == [] then raw
    else InsertFact(AddFacts(raw, facts[..|facts| - 1]), facts[|facts| - 1].key, facts[|facts| - 1].fact)
  }

  function ProduceFacts(ledger: Ledger, facts: seq<NewFact>, edges: seq<NewEdge>): Ledger {
    if facts == [] then ledger
    else
      var before, last := ProduceFacts(ledger, facts[..|facts| - 1], edges), facts[|facts| - 1];
      if last.retained then before else Produce(before, last.key, last.fact.bytes + EdgesFrom(edges, last.key))
  }

  function AddEdges(raw: Raw, edges: seq<NewEdge>): Raw {
    if edges == [] then raw
    else InsertEdge(AddEdges(raw, edges[..|edges| - 1]), edges[|edges| - 1].edge, edges[|edges| - 1].bytes)
  }

  function AddPlan(raw: Raw, plan: Plan): Raw {
    AddEdges(AddFacts(raw, plan.facts), plan.edges)
  }

  // ---------------------------------------------------------------- job rows

  function RowOf(jobs: seq<Job>, head: Key): Option<Job> {
    if jobs == [] then None
    else if jobs[|jobs| - 1].head == head then Some(jobs[|jobs| - 1])
    else RowOf(jobs[..|jobs| - 1], head)
  }

  function SetState(jobs: seq<Job>, head: Key, state: JobState): seq<Job> {
    seq(|jobs|, i requires 0 <= i < |jobs| => if jobs[i].head == head then jobs[i].(state := state) else jobs[i])
  }

  function Replace(jobs: seq<Job>, row: Job): seq<Job> {
    seq(|jobs|, i requires 0 <= i < |jobs| => if jobs[i].head == row.head then row else jobs[i])
  }

  /** On conflict a pause changes the state only. */
  function PauseRow(jobs: seq<Job>, row: Job): seq<Job> {
    if RowOf(jobs, row.head).None? then jobs + [row] else SetState(jobs, row.head, row.state)
  }

  function UpsertRow(jobs: seq<Job>, row: Job): seq<Job> {
    if RowOf(jobs, row.head).None? then jobs + [row] else Replace(jobs, row)
  }

  // ---------------------------------------------------------------- recording a batch

  ghost function OutsideFacts(raw: Raw, held: set<Key>): map<Key, nat> {
    map key | key in raw.facts && key !in held :: raw.facts[key].bytes
  }

  ghost function OutsideEdges(raw: Raw, held: set<Key>): map<Edge, nat> {
    map edge | edge in raw.edges && edge.0 !in held :: raw.edges[edge]
  }

  /** The bytes of facts and edges outside all trails. */
  ghost function Used(raw: Raw, held: set<Key>): nat {
    Total(OutsideFacts(raw, held)) + Total(OutsideEdges(raw, held))
  }

  datatype Request = Request(head: string, ceiling: nat, completed: nat, batch: Batch, quota: nat) {
    function Caller(): Key {
      Key(batch.repo, head)
    }
  }

  datatype Outcome = Outcome(state: State, stored: bool)

  function LastOid(facts: seq<BatchFact>): Option<string> {
    if facts == [] then None else Some(facts[|facts| - 1].oid)
  }

  function PausedRow(r: Request): Job {
    var behind := if r.completed >= |r.batch.facts| then r.completed - |r.batch.facts| else 0;
    Job(r.Caller(), r.ceiling, behind, None, PausedCapacity)
  }

  function RunningRow(r: Request): Job {
    Job(r.Caller(), r.ceiling, r.completed, LastOid(r.batch.facts), Running)
  }

  ghost function Pause(s: State, r: Request, at: Setting): State {
    Bound(s.(queue := s.queue.(jobs := PauseRow(s.queue.jobs, PausedRow(r)))), Some(r.Caller()), at)
  }

  function Insert(s: State, r: Request, plan: Plan, now: int): State {
    State(
      AddPlan(s.raw, plan),
      ProduceFacts(s.ledger, plan.facts, plan.edges),
      Queue(UpsertRow(s.queue.jobs, RunningRow(r)),
            if r.Caller() in s.queue.cohorts then s.queue.cohorts
            else s.queue.cohorts[r.Caller() := Cohort(now, None)]),
      s.members)
  }

  function PlanFor(s: State, r: Request): Plan {
    PlanOf(s.raw, Held(s.members), r.batch, |r.batch.facts|)
  }

  ghost predicate Fits(s: State, r: Request) {
    Used(s.raw, Held(s.members)) + PlanFor(s, r).additional <= r.quota
  }

  const MAX_ATTEMPTS: nat := 257

  /** One reclaim, then up to 256 evictions, until the batch fits or nothing is left to evict. */
  ghost function Settle(s: State, r: Request, at: Setting, attempts: nat): State
    requires attempts <= MAX_ATTEMPTS
    decreases MAX_ATTEMPTS - attempts
  {
    if Fits(s, r) then s
    else if attempts == 0 then Settle(Reclaim(s, at), r, at, 1)
    else if attempts < MAX_ATTEMPTS && EvictLru(s, r.Caller(), at).Some? then
      Settle(EvictLru(s, r.Caller(), at).value, r, at, attempts + 1)
    else s
  }

  /** A batch that fits is stored; otherwise the job pauses. */
  ghost function Conclude(s: State, r: Request, at: Setting): Outcome {
    if Fits(s, r) then Outcome(Bound(Insert(s, r, PlanFor(s, r), at.now), Some(r.Caller()), at), true)
    else Outcome(Pause(s, r, at), false)
  }

  ghost function Stage(s: State, r: Request, at: Setting): Outcome {
    Conclude(Settle(s, r, at, 0), r, at)
  }

  // ---------------------------------------------------------------- other operations

  predicate Terminal(state: JobState) {
    state == Ready || state == Obsolete || state == PausedDemand
  }

  function TerminalCount(jobs: seq<Job>): nat {
    if jobs == [] then 0
    else TerminalCount(jobs[..|jobs| - 1]) + if Terminal(jobs[|jobs| - 1].state) then 1 else 0
  }

  function DeleteRow(jobs: seq<Job>, head: Key): seq<Job> {
    if jobs == [] then []
    else DeleteRow(jobs[..|jobs| - 1], head) + if jobs[|jobs| - 1].head == head then [] else [jobs[|jobs| - 1]]
  }

  function Delete(queue: Queue, head: Key): Queue {
    Queue(DeleteRow(queue.jobs, head), queue.cohorts - {head})
  }

  function FirstTerminal(queue: Queue): Option<Key> {
    First(queue.jobs, (job: Job) => Terminal(job.state), queue.cohorts)
  }

  /** Deletes the `n` terminal rows that come first in the eviction order, with their cohorts. */
  function Trim(queue: Queue, n: nat): Queue
    decreases n
  {
    if n == 0 then queue
    else
      match FirstTerminal(queue)
      case None => queue
      case Some(head) => Trim(Delete(queue, head), n - 1)
  }

  const MAX_TERMINAL: nat := 256

  ghost function ChangeState(s: State, head: Key, state: JobState, at: Setting): State {
    var queue := s.queue.(jobs := SetState(s.queue.jobs, head, state));
    var count := TerminalCount(queue.jobs);
    if Terminal(state) then
      Reclaim(s.(queue := Trim(queue, if count > MAX_TERMINAL then count - MAX_TERMINAL else 0)), at)
    else if Active(state) then Bound(s.(queue := queue), Some(head), at)
    else s.(queue := queue)
  }

  ghost function Reconcile(s: State, at: Setting): State {
    Reclaim(Bound(s, None, at), at)
  }

  function Latest(last: Option<int>, when: nat): int {
    var floor := if last.Some? then last.value else 0;
    if when > floor then when else floor
  }

  /** A cohort is demanded when the trail holds a speculative commit reachable from its head. */
  ghost predicate Demands(raw: Raw, usage: map<Key, Usage>, trail: set<Key>, head: Key) {
    exists key :: key in Reachable(raw.edges.Keys, {head}) && key in trail && key in usage
  }

  ghost function Demand(queue: Queue, raw: Raw, usage: map<Key, Usage>, trail: set<Key>, when: nat): Queue {
    queue.(cohorts := map head | head in queue.cohorts ::
             if Demands(raw, usage, trail, head)
             then queue.cohorts[head].(lastDemand := Some(Latest(queue.cohorts[head].lastDemand, when)))
             else queue.cohorts[head])
  }

  function MarkUsed(usage: map<Key, Usage>, trail: set<Key>, when: nat): map<Key, Usage> {
    map key | key in usage ::
      if key in trail && usage[key].firstUse.None? then usage[key].(firstUse := Some(when)) else usage[key]
  }

  ghost function Reuse(ledger: Ledger, trail: set<Key>, when: nat): Ledger {
    var m := ledger.metrics;
    var reused := Unused(Within(ledger.usage, trail));
    Ledger(MarkUsed(ledger.usage, trail, when),
           m.(reusedFacts := m.reusedFacts + |reused|, reusedBytes := m.reusedBytes + Total(reused)))
  }

  function MembersOf(members: map<string, set<Key>>, trail: string): set<Key> {
    if trail in members then members[trail] else {}
  }

  ghost function RecordUse(s: State, trail: string, when: nat): State {
    var keys := MembersOf(s.members, trail);
    var ledger := Reuse(s.ledger, keys, when);
    s.(ledger := ledger, queue := Demand(s.queue, s.raw, ledger.usage, keys, when))
  }

  function BatchKeys(batch: Batch): set<Key> {
    set f | f in batch.facts :: Key(batch.repo, f.oid)
  }

  predicate DistinctOids(facts: seq<BatchFact>) {
    forall i, j :: 0 <= i < j < |facts| ==> facts[i].oid != facts[j].oid
  }

  function AddParents(raw: Raw, repo: int, child: string, parents: seq<string>): Raw {
    if parents == [] then raw
    else
      var parent := parents[|parents| - 1];
      InsertEdge(AddParents(raw, repo, child, parents[..|parents| - 1]),
                 (Key(repo, child), Key(repo, parent)), EdgeBytes(child, parent))
  }

  function AddBatch(raw: Raw, batch: Batch, n: nat): Raw
    requires n <= |batch.facts|
  {
    if n == 0 then raw
    else
      var f := batch.facts[n - 1];
      var before := InsertFact(AddBatch(raw, batch, n - 1), Key(batch.repo, f.oid), Fact(f.bytes, f.time));
      AddParents(before, batch.repo, f.oid, ParentsOf(batch, f.oid))
  }

  /**
   * A repeated trail id or commit breaks a primary key, and the whole transaction is undone; `undone` says that another
   * statement of the transaction fails.
   */
  ghost function Publish(s: State, trail: string, batch: Batch, when: nat, undone: bool): State {
    if undone || trail in s.members || !DistinctOids(batch.facts) then s
    else
      var raw := AddBatch(s.raw, batch, |batch.facts|);
      RecordUse(s.(raw := raw, members := s.members[trail := BatchKeys(batch)]), trail, when)
  }

  function EvictTrails(s: State, trails: set<string>): State {
    s.(members := s.members - trails)
  }
}
