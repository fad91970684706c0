/** A run of the service in which the bound on active jobs retires a row, and its session then overclaims. */
module OverclaimRun {
  import opened Batches
  import opened Conservation
  import opened Graphs
  import opened Overclaims
  import opened Prefix
  import opened Quota
  import opened Results
  import opened ServiceRuns
  import opened Sessions
  import opened Staging
  import PrefetchQueue
  import SessionRuns

  // ---------------------------------------------------------------- bytes

  function ParentCost(child: string, parents: seq<string>): nat {
    if parents == [] then 0
    else ParentCost(child, parents[..|parents| - 1]) + EdgeBytes(child, parents[|parents| - 1])
  }

  /** The bytes of a batch whose first `n` commits and their edges are all new. */
  function BatchCost(batch: Batch, n: nat): nat
    requires n <= |batch.facts|
  {
    if n == 0 then 0
    else
      var f := batch.facts[n - 1];
      BatchCost(batch, n - 1) + f.bytes + ParentCost(f.oid, ParentsOf(batch, f.oid))
  }

  lemma {:induction false} EdgesAtMost(raw: Raw, repo: int, child: string, parents: seq<string>)
    ensures EdgeTotal(MissingEdges(raw, repo, child, parents)) <= ParentCost(child, parents)
  {
    if parents != [] {
      var rest := MissingEdges(raw, repo, child, parents[..|parents| - 1]);
      EdgesAtMost(raw, repo, child, parents[..|parents| - 1]);
      var edges := MissingEdges(raw, repo, child, parents);
      if edges != rest {
        assert edges[..|edges| - 1] == rest;
      }
    }
  }

  lemma {:induction false} PlanAtMost(raw: Raw, held: set<Key>, batch: Batch, n: nat)
    requires n <= |batch.facts|
    ensures PlanOf(raw, held, batch, n).additional <= BatchCost(batch, n)
  {
    hide EdgeTotal, MissingEdges, ParentCost;
    if n > 0 {
      var f := batch.facts[n - 1];
      PlanAtMost(raw, held, batch, n - 1);
      EdgesAtMost(raw, batch.repo, f.oid, ParentsOf(batch, f.oid));
    }
  }

  // ---------------------------------------------------------------- a crowd of other heads

  function Name(i: nat): string {
    seq(i + 1, _ => 'c')
  }

  /** A line of commits, each the child of the next. */
  function Line(repo: int, length: nat): Sessions.Plan {
    var walk := seq(length, i requires 0 <= i < length => Name(i));
    Sessions.Plan(repo, Name(0), length, walk, map oid | oid in walk :: [oid + "c"])
  }

  function LineFacts(from: nat, n: nat): seq<BatchFact> {
    seq(n, k requires 0 <= k < n => BatchFact(Name(from + k), 1, 0))
  }

  /** A turn that finds `depth` commits demanded and one byte for each of the next `n`. */
  function LineTurn(depth: nat, from: nat, n: nat, quota: nat): Outside {
    Outside(false, depth, Some(LineFacts(from, n)), quota)
  }

  /** The walk of another head, in a repository of its own. */
  function OtherPlan(repo: int, i: nat): Sessions.Plan {
    Line(repo + 1 + i, 65)
  }

  function OtherRequest(repo: int, i: nat, quota: nat): Request {
    RequestFor(OtherPlan(repo, i), 0, LineTurn(65, 0, 64, quota), LineFacts(0, 64))
  }

  function CrowdCost(repo: int, n: nat): nat {
    if n == 0 then 0 else CrowdCost(repo, n - 1) + BatchCost(OtherRequest(repo, n - 1, 0).batch, 64)
  }

  function OtherRows(repo: int, n: nat): seq<Job> {
    if n == 0 then [] else OtherRows(repo, n - 1) + [RunningRow(OtherRequest(repo, n - 1, 0))]
  }

  ghost predicate EdgesStay(raw: Raw) {
    forall e :: e in raw.edges ==> e.0.repo == e.1.repo
  }

  ghost predicate Crowded(s: State, row: Job, n: nat, budget: nat) {
    && s.queue.jobs == [row] + OtherRows(row.head.repo, n)
    && s.members == map[]
    && Used(s.raw, Held(s.members)) <= budget + CrowdCost(row.head.repo, n)
    && EdgesStay(s.raw)
  }

  lemma {:induction false} OtherRowsShape(repo: int, n: nat)
    ensures |OtherRows(repo, n)| == n
    ensures forall i :: 0 <= i < n ==> OtherRows(repo, n)[i].head.repo == repo + 1 + i
    ensures forall i :: 0 <= i < n ==> OtherRows(repo, n)[i].state == Running
  {
    if n > 0 {
      OtherRowsShape(repo, n - 1);
    }
  }

  lemma {:induction false} AllActive(jobs: seq<Job>)
    requires forall i :: 0 <= i < |jobs| ==> Active(jobs[i].state)
    ensures ActiveCount(jobs) == |jobs|
  {
    if jobs != [] {
      AllActive(jobs[..|jobs| - 1]);
    }
  }

  lemma FittingStage(s: State, r: Request, at: Setting)
    requires Fits(s, r)
    ensures Stage(s, r, at) == Outcome(Bound(Insert(s, r, PlanFor(s, r), at.now), Some(r.Caller()), at), true)
  {
    hide Fits, Reclaim, EvictLru, Bound, PlanFor;
  }

  lemma {:induction false} AppendRow(jobs: seq<Job>, row: Job)
    requires forall i :: 0 <= i < |jobs| ==> jobs[i].head != row.head
    ensures UpsertRow(jobs, row) == jobs + [row]
  {
    RowOfMember(jobs, row.head);
  }

  ghost predicate AllStay(edges: seq<NewEdge>) {
    forall i :: 0 <= i < |edges| ==> edges[i].edge.0.repo == edges[i].edge.1.repo
  }

  lemma {:induction false} AddEdgesStay(raw: Raw, edges: seq<NewEdge>)
    requires EdgesStay(raw) && AllStay(edges)
    ensures EdgesStay(AddEdges(raw, edges))
  {
    if edges != [] {
      AddEdgesStay(raw, edges[..|edges| - 1]);
    }
  }

  lemma {:induction false} MissingEdgesStay(raw: Raw, repo: int, child: string, parents: seq<string>)
    ensures AllStay(MissingEdges(raw, repo, child, parents))
  {
    if parents != [] {
      MissingEdgesStay(raw, repo, child, parents[..|parents| - 1]);
    }
  }

  lemma {:induction false} PlannedEdgesStay(raw: Raw, held: set<Key>, batch: Batch, n: nat)
    requires n <= |batch.facts|
    ensures AllStay(PlanOf(raw, held, batch, n).edges)
  {
    hide MissingEdges, EdgeTotal;
    if n > 0 {
      PlannedEdgesStay(raw, held, batch, n - 1);
      MissingEdgesStay(raw, batch.repo, batch.facts[n - 1].oid, ParentsOf(batch, batch.facts[n - 1].oid));
    }
  }

  /** Edges never leave their repository. */
  lemma InsertStays(s: State, r: Request, now: int)
    requires EdgesStay(s.raw)
    ensures EdgesStay(Insert(s, r, PlanFor(s, r), now).raw)
  {
    hide PlanOf, AddFacts, AddEdges, ProduceFacts, Held;
    var plan := PlanFor(s, r);
    PlannedEdgesStay(s.raw, Held(s.members), r.batch, |r.batch.facts|);
    AddFactsGrow(s.raw, plan.facts);
    AddEdgesStay(AddFacts(s.raw, plan.facts), plan.edges);
  }

  lemma OtherIsTurn(repo: int, i: nat, quota: nat)
    ensures TurnOp(OtherPlan(repo, i), 0, LineTurn(65, 0, 64, quota)) == Some(StageOp(OtherRequest(repo, i, quota)))
    ensures TurnEnd(OtherPlan(repo, i), 0, LineTurn(65, 0, 64, quota)) == 64
    ensures Target(OtherPlan(repo, i), LineTurn(65, 0, 64, quota)) == 65
    ensures Collected(OtherPlan(repo, i), 0, LineTurn(65, 0, 64, quota))
    ensures OtherRequest(repo, i, quota).batch == OtherRequest(repo, i, 0).batch
    ensures |OtherRequest(repo, i, quota).batch.facts| == 64
    ensures RunningRow(OtherRequest(repo, i, quota)) == RunningRow(OtherRequest(repo, i, 0))
    ensures OtherRequest(repo, i, quota).Caller().repo == repo + 1 + i
  {
  }

  /** The tables before the bound of one more head's turn. */
  lemma OneMore(s: State, row: Job, n: nat, budget: nat, quota: nat, at: Setting)
    requires Crowded(s, row, n, budget) && budget + CrowdCost(row.head.repo, n + 1) <= quota
    ensures var r := OtherRequest(row.head.repo, n, quota);
            && Fits(s, r)
            && Crowded(Insert(s, r, PlanFor(s, r), at.now), row, n + 1, budget)
  {
    hide Used, Held, PlanOf, AddPlan, ProduceFacts, BatchCost, OtherRequest, EdgesStay;
    var r := OtherRequest(row.head.repo, n, quota);
    OtherIsTurn(row.head.repo, n, quota);
    PlanAtMost(s.raw, Held(s.members), r.batch, 64);
    InsertUsed(s, r, at.now);
    InsertStays(s, r, at.now);
    OtherRowsShape(row.head.repo, n);
    AppendRow(s.queue.jobs, RunningRow(r));
  }

  lemma {:induction false} Roomy(s: State, caller: Option<Key>, at: Setting, row: Job, n: nat, budget: nat)
    requires Crowded(s, row, n, budget) && row.state == Running && n < MAX_ACTIVE
    ensures Bound(s, caller, at) == s
  {
    OtherRowsShape(row.head.repo, n);
    AllActive(s.queue.jobs);
  }

  /** With 32 other heads the bound retires the first row, and reclaim then deletes every fact of its repository. */
  lemma {:induction false} Overfull(s: State, caller: Key, at: Setting, row: Job, budget: nat)
    requires Crowded(s, row, MAX_ACTIVE, budget) && row.state == Running && caller != row.head
    requires at.protection == 0 && at.indexing == {}
    ensures var t := Bound(s, Some(caller), at);
            && t.queue.jobs == [row.(state := Obsolete)] + OtherRows(row.head.repo, MAX_ACTIVE)
            && t.members == map[]
            && Used(t.raw, Held(t.members)) <= budget + CrowdCost(row.head.repo, MAX_ACTIVE)
            && forall key :: key in t.raw.facts ==> key.repo != row.head.repo
  {
    hide Bound, Used, Held, Pinned, DropOldest, ActiveCount, OtherRows, CrowdCost, EdgesStay, Reclaim;
    var others := OtherRows(row.head.repo, MAX_ACTIVE);
    OtherRowsShape(row.head.repo, MAX_ACTIVE);
    AllActive(s.queue.jobs);
    BoundUsed(s, Some(caller), at);
    DropsFirst(row, others, Some(caller));
    OnlyOthersPinned(s.raw, row, others);
    BoundDropsOne(s, caller, at);
    ReclaimClears(WithRows(s, [row.(state := Obsolete)] + others), row.head.repo, at);
  }

  lemma BoundDropsOne(s: State, caller: Key, at: Setting)
    requires ActiveCount(s.queue.jobs) == MAX_ACTIVE + 1
    ensures Bound(s, Some(caller), at) == Reclaim(WithRows(s, DropOldest(s.queue.jobs, Some(caller), 1)), at)
  {
    hide Reclaim, ActiveCount, DropOldest;
  }

  /** A repository that nothing pins loses all its facts. */
  lemma ReclaimClears(s: State, repo: int, at: Setting)
    requires s.members == map[] && at.protection == 0 && at.indexing == {}
    requires forall key :: key in Pinned(s.raw, s.queue.jobs) ==> key.repo != repo
    ensures var t := Reclaim(s, at);
            && t.queue == s.queue && t.members == s.members
            && forall key :: key in t.raw.facts ==> key.repo != repo
  {
    hide Pinned, Held;
    NothingHeld();
  }

  lemma NothingHeld()
    ensures Held(map[]) == {}
  {
  }

  lemma {:induction false} DropsFirst(row: Job, others: seq<Job>, caller: Option<Key>)
    requires Droppable(row, caller)
    ensures DropOldest([row] + others, caller, 1) == [row.(state := Obsolete)] + others
  {
    assert ([row] + others)[1..] == others;
    DropNothing(others, caller);
  }

  lemma {:induction false} OnlyOthersPinned(raw: Raw, row: Job, others: seq<Job>)
    requires EdgesStay(raw)
    requires forall i :: 0 <= i < |others| ==> others[i].head.repo != row.head.repo
    ensures forall key :: key in Pinned(raw, [row.(state := Obsolete)] + others) ==> key.repo != row.head.repo
  {
    hide Reachable;
    var jobs := [row.(state := Obsolete)] + others;
    var elsewhere := set key | key in Pinned(raw, jobs) && key.repo != row.head.repo;
    ReachableIsClosed(raw.edges.Keys, PinnedHeads(jobs));
    ReachableIsLeast(raw.edges.Keys, PinnedHeads(jobs), elsewhere);
  }

  // ---------------------------------------------------------------- turns on the tables

  /** The first two turns of a session that walks more than 128 commits, and the quota of the service. */
  ghost predicate Demanding(p: Sessions.Plan, first: Outside, second: Outside, quota: nat) {
    && Topological(WalkOf(p)) && DistinctCommits(WalkOf(p))
    && first.quota == quota && second.quota == quota
    && !first.stopping && !second.stopping
    && first.collected.Some? && second.collected.Some?
    && Target(p, first) > 64 && Target(p, second) > 128
    && Collected(p, 0, first) && Collected(p, 64, second)
    && TurnCost(p, 0, first) + TurnCost(p, 64, second) + CrowdCost(p.repo, MAX_ACTIVE) <= quota
  }

  function TurnRequest(p: Sessions.Plan, position: nat, o: Outside): Request
    requires o.collected.Some?
  {
    RequestFor(p, position, o, o.collected.value)
  }

  function TurnCost(p: Sessions.Plan, position: nat, o: Outside): nat
    requires o.collected.Some?
  {
    BatchCost(TurnRequest(p, position, o).batch, |o.collected.value|)
  }

  /** A turn whose batch fits is stored, and the session goes on when more is demanded. */
  lemma FittingTurn(s: State, p: Sessions.Plan, position: nat, o: Outside, at: Setting)
    requires TurnOp(p, position, o).Some? && TurnOp(p, position, o).value.StageOp?
    requires TurnEnd(p, position, o) < Target(p, o) && Fits(s, TurnOp(p, position, o).value.request)
    ensures var r := TurnOp(p, position, o).value.request;
            && TurnStep(s, p, position, o, at) == (Bound(Insert(s, r, PlanFor(s, r), at.now), Some(r.Caller()), at),
                                                   TurnEnd(p, position, o))
            && TurnMore(s, p, position, o, at)
  {
    hide Fits, Stage, Bound, Insert, PlanFor, TurnOp, TurnEnd, Target;
    FittingStage(s, TurnOp(p, position, o).value.request, at);
  }

  lemma NextTurn(p: Sessions.Plan, first: Outside, second: Outside, quota: nat, k: nat)
    requires Demanding(p, first, second, quota) && k < 2
    ensures var position, o := 64 * k, if k == 0 then first else second;
            && TurnOp(p, position, o) == Some(StageOp(TurnRequest(p, position, o)))
            && TurnEnd(p, position, o) == position + 64 < Target(p, o)
            && TurnRequest(p, position, o).completed == position + 64
            && TurnRequest(p, position, o).Caller() == HeadKey(p)
            && LastOid(o.collected.value) == Some(p.walk[position + 63])
            && Segment(TurnRequest(p, position, o), WalkOf(p))
            && TurnRequest(p, position, o).completed - |TurnRequest(p, position, o).batch.facts| == position
  {
    hide Topological, DistinctCommits, TurnCost, CrowdCost;
    TurnIsSegment(p, 64 * k, if k == 0 then first else second);
  }

  /** After the first turn the tables hold one running row. */
  lemma FirstTurn(p: Sessions.Plan, first: Outside, second: Outside, quota: nat, at: Setting)
    requires Demanding(p, first, second, quota)
    ensures var r := TurnRequest(p, 0, first);
            && Fits(EMPTY, r)
            && Crowded(Insert(EMPTY, r, PlanFor(EMPTY, r), at.now), RunningRow(r), 0, TurnCost(p, 0, first))
  {
    hide Used, Held, PlanOf, AddPlan, ProduceFacts, BatchCost, CrowdCost, Topological, DistinctCommits, Collected,
      Target;
    NextTurn(p, first, second, quota, 0);
    var r := TurnRequest(p, 0, first);
    NothingUsed();
    PlanAtMost(EMPTY.raw, Held(EMPTY.members), r.batch, |r.batch.facts|);
    InsertUsed(EMPTY, r, at.now);
    InsertStays(EMPTY, r, at.now);
    AppendRow([], RunningRow(r));
    NoneYet(p.repo);
  }

  lemma NoneYet(repo: int)
    ensures OtherRows(repo, 0) == [] && CrowdCost(repo, 0) == 0
  {
  }

  /** The second turn raises the counter of the first row. */
  lemma SecondTurn(p: Sessions.Plan, first: Outside, second: Outside, quota: nat, s: State, row: Job, n: nat,
      at: Setting)
    requires Demanding(p, first, second, quota) && row.head == HeadKey(p) && n <= MAX_ACTIVE
    requires Crowded(s, row, n, TurnCost(p, 0, first))
    ensures var r := TurnRequest(p, 64, second);
            && Fits(s, r)
            && Crowded(Insert(s, r, PlanFor(s, r), at.now), RunningRow(r), n,
                       TurnCost(p, 0, first) + TurnCost(p, 64, second))
  {
    hide Used, Held, PlanOf, AddPlan, ProduceFacts, BatchCost, CrowdCost, Topological, DistinctCommits, Collected,
      Target;
    NextTurn(p, first, second, quota, 1);
    var r := TurnRequest(p, 64, second);
    CostGrows(p.repo, n, MAX_ACTIVE);
    PlanAtMost(s.raw, Held(s.members), r.batch, |r.batch.facts|);
    InsertUsed(s, r, at.now);
    InsertStays(s, r, at.now);
    ReplacesFirst(row, RunningRow(r), n);
  }

  lemma {:induction false} ReplacesFirst(row: Job, next: Job, n: nat)
    requires next.head == row.head
    ensures UpsertRow([row] + OtherRows(row.head.repo, n), next) == [next] + OtherRows(row.head.repo, n)
  {
    hide OtherRows, Replace, RowOf;
    FirstRow(row, n);
    ReplacesOnlyFirst(row, next, n);
  }

  lemma {:induction false} ReplacesOnlyFirst(row: Job, next: Job, n: nat)
    requires next.head == row.head
    ensures Replace([row] + OtherRows(row.head.repo, n), next) == [next] + OtherRows(row.head.repo, n)
  {
    hide OtherRows;
    OtherRowsShape(row.head.repo, n);
    var jobs := [row] + OtherRows(row.head.repo, n);
    forall i | 0 < i <= n ensures jobs[i].head != row.head {
      assert jobs[i] == OtherRows(row.head.repo, n)[i - 1];
    }
  }

  lemma {:induction false} FirstRow(row: Job, n: nat)
    ensures var jobs := [row] + OtherRows(row.head.repo, n); DistinctHeads(jobs) && RowOf(jobs, row.head) == Some(row)
    ensures forall i :: i >= n ==>
      RowOf([row] + OtherRows(row.head.repo, n), HeadKey(OtherPlan(row.head.repo, i))).None?
  {
    hide OtherRows, OtherPlan;
    var jobs := [row] + OtherRows(row.head.repo, n);
    OtherRowsShape(row.head.repo, n);
    RowOfIndex(jobs, 0);
    forall i | i >= n ensures RowOf(jobs, HeadKey(OtherPlan(row.head.repo, i))).None? {
      OtherHead(row.head.repo, i);
      RowOfMember(jobs, HeadKey(OtherPlan(row.head.repo, i)));
    }
  }

  lemma OtherHead(repo: int, i: nat)
    ensures HeadKey(OtherPlan(repo, i)).repo == repo + 1 + i
  {
  }

  lemma {:induction false} CostGrows(repo: int, m: nat, n: nat)
    requires m <= n
    ensures CrowdCost(repo, m) <= CrowdCost(repo, n)
  {
    hide OtherRequest, BatchCost;
    if m < n {
      CostGrows(repo, m, n - 1);
    }
  }

  /** The row is retired and keeps its counter, and every fact of its repository is gone. */
  ghost predicate Retired(s: State, row: Job, budget: nat) {
    && s.queue.jobs == [row.(state := Obsolete)] + OtherRows(row.head.repo, MAX_ACTIVE)
    && s.members == map[]
    && Used(s.raw, Held(s.members)) <= budget + CrowdCost(row.head.repo, MAX_ACTIVE)
    && forall key :: key in s.raw.facts ==> key.repo != row.head.repo
  }

  /** The first turn of one more session. Up to 31 of them leave all rows; the 32nd retires the first row. */
  lemma OtherTurn(s: State, row: Job, n: nat, budget: nat, quota: nat, at: Setting)
    requires Crowded(s, row, n, budget) && row.state == Running && n < MAX_ACTIVE
    requires budget + CrowdCost(row.head.repo, n + 1) <= quota && at.protection == 0 && at.indexing == {}
    ensures var plan, o := OtherPlan(row.head.repo, n), LineTurn(65, 0, 64, quota);
            var (t, position) := TurnStep(s, plan, 0, o, at);
            && position == 64 && TurnMore(s, plan, 0, o, at)
            && (n + 1 < MAX_ACTIVE ==> Crowded(t, row, n + 1, budget))
            && (n + 1 == MAX_ACTIVE ==> Retired(t, row, budget))
  {
    hide Stage, Bound, Insert, PlanFor, Fits, CrowdCost, OtherRequest, OtherPlan, LineTurn, TurnOp, TurnEnd, Target,
      Crowded, Used, Held, OtherRows, TurnStep, TurnMore;
    var r := OtherRequest(row.head.repo, n, quota);
    OtherIsTurn(row.head.repo, n, quota);
    OneMore(s, row, n, budget, quota, at);
    FittingTurn(s, OtherPlan(row.head.repo, n), 0, LineTurn(65, 0, 64, quota), at);
    var next := Insert(s, r, PlanFor(s, r), at.now);
    if n + 1 < MAX_ACTIVE {
      Roomy(next, Some(r.Caller()), at, row, n + 1, budget);
    } else {
      Overfull(next, r.Caller(), at, row, budget);
    }
  }

  /** A restart of the service reconciles the tables; with few rows it only collects. */
  lemma ReconcileCrowded(s: State, at: Setting, row: Job, n: nat, budget: nat)
    requires Crowded(s, row, n, budget) && row.state == Running && n < MAX_ACTIVE
    ensures Crowded(Reconcile(s, at), row, n, budget)
  {
    hide Bound, Victims, WithoutFacts, Used, Held;
    Roomy(s, None, at, row, n, budget);
    ReclaimUsed(s.raw, Victims(s, at), Held(s.members));
    ReclaimStep(s, at);
  }

  // ---------------------------------------------------------------- turns of the service

  lemma {:induction false} AfterSplit(v: Service, a: seq<Event>, b: seq<Event>)
    ensures After(v, a + b) == After(After(v, a), b)
  {
    hide Happens;
    if b == [] {
      assert a + b == a;
    } else {
      assert (a + b)[..|a + b| - 1] == a + b[..|b| - 1];
      AfterSplit(v, a, b[..|b| - 1]);
    }
  }

  lemma {:induction false} ProperSplit(v: Service, walks: map<Key, Sessions.Plan>, a: seq<Event>, b: seq<Event>)
    requires AllProper(v, walks, a) && AllProper(After(v, a), walks, b)
    ensures AllProper(v, walks, a + b)
    ensures After(v, a + b) == After(After(v, a), b)
  {
    hide Proper, After;
    AfterSplit(v, a, b);
    forall i | 0 <= i < |a + b| ensures Proper(After(v, (a + b)[..i]), walks, (a + b)[i]) {
      if i < |a| {
        assert (a + b)[..i] == a[..i];
      } else {
        assert (a + b)[..i] == a + b[..i - |a|];
        AfterSplit(v, a, b[..i - |a|]);
      }
    }
  }

  lemma OneEvent(v: Service, walks: map<Key, Sessions.Plan>, e: Event)
    ensures After(v, [e]) == Happens(v, e)
    ensures AllProper(v, walks, [e]) <==> Proper(v, walks, e)
  {
    hide Happens, Proper;
    assert [e][..0] == [];
    assert After(v, [e][..0]) == v;
  }

  /** The next key gets a new session and its first turn. */
  function Serve(plan: Sessions.Plan, position: nat, o: Outside, at: Setting): seq<Event> {
    [Event(Popped, at)] + [Event(Started(plan, o.justified, position), at)] + [Event(Advanced(o), at)]
  }

  lemma Served(v: Service, walks: map<Key, Sessions.Plan>, plan: Sessions.Plan, position: nat, o: Outside, at: Setting)
    requires v.queue.flight.None? && v.queue.ready != [] && v.queue.ready[0] == HeadKey(plan)
    requires HeadKey(plan) !in v.sessions && HeadKey(plan) in walks && walks[HeadKey(plan)] == plan
    requires Resumes(plan, v.state, position) && Collected(plan, position, o)
    requires TurnMore(v.state, plan, position, o, at)
    ensures AllProper(v, walks, Serve(plan, position, o, at))
    ensures var (state, end) := TurnStep(v.state, plan, position, o, at);
            After(v, Serve(plan, position, o, at))
            == Service(state, PrefetchQueue.Queue(v.queue.ready[1..] + [HeadKey(plan)], v.queue.known, None),
                       v.sessions[HeadKey(plan) := Session(plan, o.justified, end)])
  {
    hide TurnStep, TurnMore, Resumes, Collected;
    var pop, start := Event(Popped, at), Event(Started(plan, o.justified, position), at);
    var advance := Event(Advanced(o), at);
    var popped := Happens(v, pop);
    var started := Happens(popped, start);
    OneEvent(v, walks, pop);
    OneEvent(popped, walks, start);
    OneEvent(started, walks, advance);
    ProperSplit(v, walks, [pop], [start]);
    ProperSplit(v, walks, [pop] + [start], [advance]);
    var end := TurnStep(v.state, plan, position, o, at).1;
    var next := Session(plan, o.justified, end);
    assert started.sessions[HeadKey(plan) := next] == v.sessions[HeadKey(plan) := next];
  }

  function OtherKeys(repo: int, from: nat, n: nat): (keys: seq<Key>)
    ensures |keys| == n && forall i :: 0 <= i < n ==> keys[i] == HeadKey(OtherPlan(repo, from + i))
  {
    seq(n, i requires 0 <= i < n => HeadKey(OtherPlan(repo, from + i)))
  }

  function Admissions(keys: seq<Key>, at: Setting): seq<Event> {
    if keys == [] then [] else Admissions(keys[..|keys| - 1], at) + [Event(Admitted(keys[|keys| - 1]), at)]
  }

  /** On an idle queue up to 32 different keys are admitted in order. */
  lemma {:induction false} AllAdmitted(s: State, walks: map<Key, Sessions.Plan>, keys: seq<Key>, at: Setting)
    requires |keys| <= PrefetchQueue.MAX_KNOWN && PrefetchQueue.Distinct(keys)
    ensures var v := Service(s, IDLE, map[]);
            && AllProper(v, walks, Admissions(keys, at))
            && After(v, Admissions(keys, at))
               == Service(s, PrefetchQueue.Queue(keys, PrefetchQueue.KeysOf(keys), None), map[])
  {
    hide After, AllProper, Happens, PrefetchQueue.KeysOf, PrefetchQueue.Distinct;
    var v := Service(s, IDLE, map[]);
    if keys == [] {
      NothingHappens(v, walks);
      NoKeys();
    } else {
      var rest, last := keys[..|keys| - 1], keys[|keys| - 1];
      assert keys == rest + [last];
      DistinctFront(rest, last);
      AllAdmitted(s, walks, rest, at);
      var before := After(v, Admissions(rest, at));
      OneEvent(before, walks, Event(Admitted(last), at));
      AdmitNext(s, rest, last, at);
      ProperSplit(v, walks, Admissions(rest, at), [Event(Admitted(last), at)]);
    }
  }

  lemma NothingHappens(v: Service, walks: map<Key, Sessions.Plan>)
    ensures AllProper(v, walks, []) && After(v, []) == v
  {
  }

  lemma NoKeys()
    ensures PrefetchQueue.KeysOf([]) == {}
  {
  }

  lemma {:induction false} DistinctFront(rest: seq<Key>, last: Key)
    requires PrefetchQueue.Distinct(rest + [last])
    ensures PrefetchQueue.Distinct(rest) && last !in rest
  {
    var keys := rest + [last];
    assert forall i :: 0 <= i < |rest| ==> rest[i] == keys[i];
    assert keys[|rest|] == last;
  }

  lemma {:induction false} AdmitNext(s: State, rest: seq<Key>, last: Key, at: Setting)
    requires PrefetchQueue.Distinct(rest) && last !in rest && |rest| < PrefetchQueue.MAX_KNOWN
    ensures Happens(Service(s, PrefetchQueue.Queue(rest, PrefetchQueue.KeysOf(rest), None), map[]),
                    Event(Admitted(last), at))
         == Service(s, PrefetchQueue.Queue(rest + [last], PrefetchQueue.KeysOf(rest + [last]), None), map[])
    ensures Proper(Service(s, PrefetchQueue.Queue(rest, PrefetchQueue.KeysOf(rest), None), map[]), map[],
                   Event(Admitted(last), at))
  {
    PrefetchQueue.DistinctLength(rest);
    assert PrefetchQueue.KeysOf(rest + [last]) == PrefetchQueue.KeysOf(rest) + {last};
  }

  /** The whole walk of every head in the run. */
  ghost predicate Knows(walks: map<Key, Sessions.Plan>, p: Sessions.Plan) {
    && HeadKey(p) in walks && walks[HeadKey(p)] == p
    && forall i :: 0 <= i < MAX_ACTIVE ==> KnowsOther(walks, p.repo, i)
  }

  ghost predicate KnowsOther(walks: map<Key, Sessions.Plan>, repo: int, i: nat) {
    var plan := OtherPlan(repo, i);
    HeadKey(plan) in walks && walks[HeadKey(plan)] == plan
  }

  // ---------------------------------------------------------------- the run

  const START: Service := Service(EMPTY, IDLE, map[])

  /** Before the service restarts, the session and one other take their first turns. */
  function Opening(p: Sessions.Plan, first: Outside, at: Setting): seq<Event> {
    Admissions([HeadKey(p)] + OtherKeys(p.repo, 0, 1), at) + Serve(p, 0, first, at)
    + Serve(OtherPlan(p.repo, 0), 0, LineTurn(65, 0, 64, first.quota), at) + [Event(Restarted, at)]
  }

  /** Afterwards 32 keys are admitted, and the session resumes and takes its second turn. */
  function Resuming(p: Sessions.Plan, second: Outside, at: Setting): seq<Event> {
    Admissions([HeadKey(p)] + OtherKeys(p.repo, 1, 31), at) + Serve(p, 64, second, at)
  }

  /** The first turns of the other keys, up to the `n`-th. */
  function Crowd(repo: int, n: nat, quota: nat, at: Setting): seq<Event> {
    if n <= 1 then []
    else Crowd(repo, n - 1, quota, at) + Serve(OtherPlan(repo, n - 1), 0, LineTurn(65, 0, 64, quota), at)
  }

  function Events(p: Sessions.Plan, first: Outside, second: Outside, at: Setting): seq<Event> {
    Opening(p, first, at) + Resuming(p, second, at) + Crowd(p.repo, MAX_ACTIVE, first.quota, at) + [Event(Popped, at)]
  }

  ghost predicate Quiet(at: Setting) {
    at.protection == 0 && at.indexing == {}
  }

  lemma KeysAreDistinct(p: Sessions.Plan, from: nat, n: nat)
    ensures PrefetchQueue.Distinct([HeadKey(p)] + OtherKeys(p.repo, from, n))
  {
    hide OtherPlan, HeadKey;
    var keys := [HeadKey(p)] + OtherKeys(p.repo, from, n);
    OwnHead(p);
    forall i, j | 0 <= i < j < |keys| ensures keys[i] != keys[j] {
      OtherHead(p.repo, from + j - 1);
      if i > 0 {
        OtherHead(p.repo, from + i - 1);
      }
    }
  }

  lemma OwnHead(p: Sessions.Plan)
    ensures HeadKey(p).repo == p.repo
  {
  }

  /** A head without a row starts at the beginning of its walk. */
  lemma StartsAtZero(p: Sessions.Plan, s: State)
    requires RowOf(s.queue.jobs, HeadKey(p)).None?
    ensures Resumes(p, s, 0)
  {
  }

  // ---------------------------------------------------------------- before the restart

  lemma FirstServed(walks: map<Key, Sessions.Plan>, v: Service, p: Sessions.Plan, first: Outside, second: Outside,
      quota: nat, at: Setting)
    requires Demanding(p, first, second, quota) && HeadKey(p) in walks && walks[HeadKey(p)] == p
    requires v.state == EMPTY && v.sessions == map[] && v.queue.flight.None?
    requires v.queue.ready == [HeadKey(p)] + OtherKeys(p.repo, 0, 1)
    ensures AllProper(v, walks, Serve(p, 0, first, at))
    ensures var t, row := After(v, Serve(p, 0, first, at)), RunningRow(TurnRequest(p, 0, first));
            && Crowded(t.state, row, 0, TurnCost(p, 0, first))
            && Claim(t.state.raw, t.state.queue.jobs, WalkOf(p))
            && t.queue.ready == OtherKeys(p.repo, 0, 1) + [HeadKey(p)] && t.queue.flight.None?
            && t.sessions.Keys == {HeadKey(p)}
  {
    hide Serve, TurnStep, TurnMore, TurnOp, TurnEnd, Target, Crowded, Claim, Topological, DistinctCommits, Insert,
      Bound, PlanFor, Fits, Segment, TurnCost, CrowdCost, OtherKeys, Collected, AllProper, After, Resumes, WalkOf,
      Stage, Stored;
    var r := TurnRequest(p, 0, first);
    NextTurn(p, first, second, quota, 0);
    FirstTurn(p, first, second, quota, at);
    FittingTurn(EMPTY, p, 0, first, at);
    StartsAtZero(p, EMPTY);
    Served(v, walks, p, 0, first, at);
    Roomy(Insert(EMPTY, r, PlanFor(EMPTY, r), at.now), Some(r.Caller()), at, RunningRow(r), 0, TurnCost(p, 0, first));
    FirstClaim(p, r, at);
  }

  lemma FirstClaim(p: Sessions.Plan, r: Request, at: Setting)
    requires Topological(WalkOf(p)) && DistinctCommits(WalkOf(p)) && r.Caller() == HeadKey(p)
    requires Segment(r, WalkOf(p)) && r.completed == |r.batch.facts| && Fits(EMPTY, r)
    ensures var t := Bound(Insert(EMPTY, r, PlanFor(EMPTY, r), at.now), Some(r.Caller()), at);
            Claim(t.raw, t.queue.jobs, WalkOf(p))
  {
    hide Stage, Bound, Insert, PlanFor, Fits, Claim, Topological, DistinctCommits, Segment;
    FittingStage(EMPTY, r, at);
    FittingTurnClaimsExactly(EMPTY, r, at, WalkOf(p));
    NothingIsStored(EMPTY.raw, WalkOf(p));
  }

  /** The turn of another session keeps the claim. */
  lemma OtherTurnClaims(s: State, row: Job, n: nat, budget: nat, quota: nat, at: Setting, w: Walked)
    requires Crowded(s, row, n, budget) && budget + CrowdCost(row.head.repo, n + 1) <= quota
    requires Topological(w) && w.head == row.head && Claim(s.raw, s.queue.jobs, w)
    ensures var t := TurnStep(s, OtherPlan(row.head.repo, n), 0, LineTurn(65, 0, 64, quota), at).0;
            Claim(t.raw, t.queue.jobs, w)
  {
    hide Stage, Bound, Insert, PlanFor, Fits, CrowdCost, OtherRequest, OtherPlan, LineTurn, TurnOp, TurnEnd, Target,
      Crowded, Claim, Topological, TurnStep, TurnMore;
    var r := OtherRequest(row.head.repo, n, quota);
    OtherIsTurn(row.head.repo, n, quota);
    OneMore(s, row, n, budget, quota, at);
    FittingTurn(s, OtherPlan(row.head.repo, n), 0, LineTurn(65, 0, 64, quota), at);
    FittingStage(s, r, at);
    StagedOther(s, r, at, w);
  }

  lemma ReconcileClaims(s: State, at: Setting, w: Walked)
    requires Topological(w) && Claim(s.raw, s.queue.jobs, w)
    ensures Claim(Reconcile(s, at).raw, Reconcile(s, at).queue.jobs, w)
  {
    hide Bound, Reclaim, Claim, Topological;
    BoundKeepsClaim(s, None, at, w);
    ReclaimKeepsClaim(Bound(s, None, at), at, w);
  }

  /** The first of the other keys is served. */
  lemma OtherServed(walks: map<Key, Sessions.Plan>, v: Service, row: Job, n: nat, budget: nat, quota: nat, at: Setting)
    requires Crowded(v.state, row, n, budget) && row.state == Running && n < MAX_ACTIVE && Quiet(at)
    requires budget + CrowdCost(row.head.repo, n + 1) <= quota
    requires var key := HeadKey(OtherPlan(row.head.repo, n));
             v.queue.flight.None? && v.queue.ready != [] && v.queue.ready[0] == key && key !in v.sessions
    requires KnowsOther(walks, row.head.repo, n)
    ensures var plan, o := OtherPlan(row.head.repo, n), LineTurn(65, 0, 64, quota);
            var t, key := After(v, Serve(plan, 0, o, at)), HeadKey(plan);
            && AllProper(v, walks, Serve(plan, 0, o, at))
            && t.state == TurnStep(v.state, plan, 0, o, at).0
            && (n + 1 < MAX_ACTIVE ==> Crowded(t.state, row, n + 1, budget))
            && (n + 1 == MAX_ACTIVE ==> Retired(t.state, row, budget))
            && t.queue.ready == v.queue.ready[1..] + [key] && t.queue.flight.None?
            && t.sessions == v.sessions[key := Session(plan, 65, 64)]
  {
    hide Serve, TurnStep, TurnMore, TurnOp, TurnEnd, Target, Crowded, CrowdCost, OtherPlan, Collected, AllProper,
      After, Resumes, Retired;
    OtherTurn(v.state, row, n, budget, quota, at);
    OtherIsTurn(row.head.repo, n, quota);
    StartsFresh(v.state, row, n, budget);
    assert LineTurn(65, 0, 64, quota).justified == 65;
    Served(v, walks, OtherPlan(row.head.repo, n), 0, LineTurn(65, 0, 64, quota), at);
  }

  lemma StartsFresh(s: State, row: Job, n: nat, budget: nat)
    requires Crowded(s, row, n, budget)
    ensures Resumes(OtherPlan(row.head.repo, n), s, 0)
  {
    hide OtherPlan, Resumes, Used, Held;
    FirstRow(row, n);
    StartsAtZero(OtherPlan(row.head.repo, n), s);
  }

  /** After the restart the service is idle, two rows are left, and the claim holds. */
  ghost predicate Opened(v: Service, p: Sessions.Plan, first: Outside)
    requires first.collected.Some?
  {
    && v.queue == IDLE && v.sessions == map[]
    && Crowded(v.state, RunningRow(TurnRequest(p, 0, first)), 1, TurnCost(p, 0, first))
    && Claim(v.state.raw, v.state.queue.jobs, WalkOf(p))
  }

  lemma OpeningRuns(walks: map<Key, Sessions.Plan>, p: Sessions.Plan, first: Outside, second: Outside, quota: nat,
      at: Setting)
    requires Demanding(p, first, second, quota) && Knows(walks, p) && Quiet(at)
    ensures AllProper(START, walks, Opening(p, first, at)) && Opened(After(START, Opening(p, first, at)), p, first)
  {
    hide Serve, Admissions, Crowded, Claim, Topological, DistinctCommits, TurnCost, CrowdCost, Collected, AllProper,
      After, WalkOf, Target, OtherPlan, Opened, Knows;
    var keys := [HeadKey(p)] + OtherKeys(p.repo, 0, 1);
    var other := Serve(OtherPlan(p.repo, 0), 0, LineTurn(65, 0, 64, first.quota), at);
    KnownWalks(walks, p);
    KeysAreDistinct(p, 0, 1);
    AllAdmitted(EMPTY, walks, keys, at);
    FirstServed(walks, After(START, Admissions(keys, at)), p, first, second, quota, at);
    ProperSplit(START, walks, Admissions(keys, at), Serve(p, 0, first, at));
    var v := After(START, Admissions(keys, at) + Serve(p, 0, first, at));
    OtherThenRestart(walks, v, p, first, second, quota, at);
    ProperSplit(START, walks, Admissions(keys, at) + Serve(p, 0, first, at), other + [Event(Restarted, at)]);
    assert Opening(p, first, at) == Admissions(keys, at) + Serve(p, 0, first, at) + (other + [Event(Restarted, at)]);
  }

  lemma KnownWalks(walks: map<Key, Sessions.Plan>, p: Sessions.Plan)
    requires Knows(walks, p)
    ensures HeadKey(p) in walks && walks[HeadKey(p)] == p
    ensures forall i :: 0 <= i < MAX_ACTIVE ==> KnowsOther(walks, p.repo, i)
  {
    hide KnowsOther;
  }

  lemma OtherThenRestart(walks: map<Key, Sessions.Plan>, v: Service, p: Sessions.Plan, first: Outside, second: Outside,
      quota: nat, at: Setting)
    requires Demanding(p, first, second, quota) && Knows(walks, p) && Quiet(at)
    requires Crowded(v.state, RunningRow(TurnRequest(p, 0, first)), 0, TurnCost(p, 0, first))
    requires Claim(v.state.raw, v.state.queue.jobs, WalkOf(p))
    requires v.queue.ready == OtherKeys(p.repo, 0, 1) + [HeadKey(p)] && v.queue.flight.None?
    requires v.sessions.Keys == {HeadKey(p)}
    ensures var events := Serve(OtherPlan(p.repo, 0), 0, LineTurn(65, 0, 64, first.quota), at) + [Event(Restarted, at)];
            AllProper(v, walks, events) && Opened(After(v, events), p, first)
  {
    hide Serve, Crowded, Claim, Topological, DistinctCommits, TurnCost, CrowdCost, Collected, AllProper, After,
      WalkOf, Target, OtherPlan, TurnStep, Knows, TurnRequest, Opened, KnowsOther, TurnOp, TurnEnd, Segment;
    var row, budget := RunningRow(TurnRequest(p, 0, first)), TurnCost(p, 0, first);
    var other := Serve(OtherPlan(p.repo, 0), 0, LineTurn(65, 0, 64, quota), at);
    KnownWalks(walks, p);
    NextTurn(p, first, second, quota, 0);
    CostGrows(p.repo, 1, MAX_ACTIVE);
    OwnHead(p);
    OtherHead(p.repo, 0);
    WalksHead(p);
    OtherServed(walks, v, row, 0, budget, quota, at);
    OtherTurnClaims(v.state, row, 0, budget, quota, at, WalkOf(p));
    RestartOpens(walks, After(v, other), p, first, at);
    ProperSplit(v, walks, other, [Event(Restarted, at)]);
  }

  lemma RestartOpens(walks: map<Key, Sessions.Plan>, v: Service, p: Sessions.Plan, first: Outside, at: Setting)
    requires first.collected.Some? && Topological(WalkOf(p))
    requires Crowded(v.state, RunningRow(TurnRequest(p, 0, first)), 1, TurnCost(p, 0, first))
    requires Claim(v.state.raw, v.state.queue.jobs, WalkOf(p))
    ensures AllProper(v, walks, [Event(Restarted, at)]) && Opened(After(v, [Event(Restarted, at)]), p, first)
  {
    hide Crowded, Claim, Topological, TurnCost, AllProper, After, WalkOf, Reconcile, TurnRequest;
    ReconcileCrowded(v.state, at, RunningRow(TurnRequest(p, 0, first)), 1, TurnCost(p, 0, first));
    ReconcileClaims(v.state, at, WalkOf(p));
    OneEvent(v, walks, Event(Restarted, at));
  }

  lemma WalksHead(p: Sessions.Plan)
    ensures WalkOf(p).head == HeadKey(p)
  {
  }

  // ---------------------------------------------------------------- after the restart

  /** The session waits behind the keys whose first turn is still to come; `n` rows of other heads are there. */
  ghost predicate Gathered(v: Service, p: Sessions.Plan, row: Job, target: nat, n: nat, budget: nat) {
    && 1 <= n <= MAX_ACTIVE
    && v.queue.ready == OtherKeys(p.repo, n, 32 - n) + [HeadKey(p)] + OtherKeys(p.repo, 1, n - 1)
    && v.queue.flight.None?
    && HeadKey(p) in v.sessions && v.sessions[HeadKey(p)] == Session(p, target, 128)
    && (forall i :: n <= i < MAX_ACTIVE ==> HeadKey(OtherPlan(p.repo, i)) !in v.sessions)
    && (n < MAX_ACTIVE ==> Crowded(v.state, row, n, budget))
    && (n == MAX_ACTIVE ==> Retired(v.state, row, budget))
  }

  /** The row of a stored turn is trusted when its facts are there. */
  lemma ResumesAt64(p: Sessions.Plan, first: Outside, second: Outside, quota: nat, s: State, budget: nat)
    requires Demanding(p, first, second, quota)
    requires Crowded(s, RunningRow(TurnRequest(p, 0, first)), 1, budget) && Claim(s.raw, s.queue.jobs, WalkOf(p))
    ensures Resumes(p, s, 64)
  {
    hide Topological, DistinctCommits, TurnCost, CrowdCost, Collected, Used, Held, OtherRows, TurnOp, Segment, RowOf;
    var row := RunningRow(TurnRequest(p, 0, first));
    NextTurn(p, first, second, quota, 0);
    FirstRow(row, 1);
    forall i | 0 <= i < 64 ensures Key(p.repo, p.walk[i]) in s.raw.facts {
      assert StoredAt(s.raw, WalkOf(p), i);
      assert WalkOf(p).commits[i] == Key(p.repo, p.walk[i]);
    }
  }

  lemma SecondServed(walks: map<Key, Sessions.Plan>, v: Service, p: Sessions.Plan, first: Outside, second: Outside,
      quota: nat, at: Setting)
    requires Demanding(p, first, second, quota) && Knows(walks, p)
    requires v.sessions == map[] && v.queue.flight.None?
    requires v.queue.ready == [HeadKey(p)] + OtherKeys(p.repo, 1, 31)
    requires Crowded(v.state, RunningRow(TurnRequest(p, 0, first)), 1, TurnCost(p, 0, first))
    requires Claim(v.state.raw, v.state.queue.jobs, WalkOf(p))
    ensures AllProper(v, walks, Serve(p, 64, second, at))
    ensures Gathered(After(v, Serve(p, 64, second, at)), p, RunningRow(TurnRequest(p, 64, second)), second.justified, 1,
                     TurnCost(p, 0, first) + TurnCost(p, 64, second))
  {
    hide Serve, TurnStep, TurnMore, TurnOp, TurnEnd, Target, Crowded, Claim, Topological, DistinctCommits, Insert,
      Bound, PlanFor, Fits, Segment, TurnCost, CrowdCost, Collected, AllProper, After, Resumes, WalkOf, OtherPlan;
    var r, row := TurnRequest(p, 64, second), RunningRow(TurnRequest(p, 0, first));
    var budget := TurnCost(p, 0, first) + TurnCost(p, 64, second);
    NextTurn(p, first, second, quota, 0);
    NextTurn(p, first, second, quota, 1);
    SecondTurn(p, first, second, quota, v.state, row, 1, at);
    FittingTurn(v.state, p, 64, second, at);
    ResumesAt64(p, first, second, quota, v.state, TurnCost(p, 0, first));
    Served(v, walks, p, 64, second, at);
    Roomy(Insert(v.state, r, PlanFor(v.state, r), at.now), Some(r.Caller()), at, RunningRow(r), 1, budget);
    OwnHead(p);
    forall i | 1 <= i < MAX_ACTIVE ensures HeadKey(OtherPlan(p.repo, i)) != HeadKey(p) {
      OtherHead(p.repo, i);
    }
  }

  lemma ResumingRuns(walks: map<Key, Sessions.Plan>, v: Service, p: Sessions.Plan, first: Outside, second: Outside,
      quota: nat, at: Setting)
    requires Demanding(p, first, second, quota) && Knows(walks, p) && Opened(v, p, first)
    ensures AllProper(v, walks, Resuming(p, second, at))
    ensures Gathered(After(v, Resuming(p, second, at)), p, RunningRow(TurnRequest(p, 64, second)), second.justified, 1,
                     TurnCost(p, 0, first) + TurnCost(p, 64, second))
  {
    hide Serve, Admissions, Crowded, Claim, Topological, DistinctCommits, TurnCost, CrowdCost, Collected, AllProper,
      After, WalkOf, Target, OtherPlan, Gathered;
    var keys := [HeadKey(p)] + OtherKeys(p.repo, 1, 31);
    KeysAreDistinct(p, 1, 31);
    AllAdmitted(v.state, walks, keys, at);
    SecondServed(walks, After(v, Admissions(keys, at)), p, first, second, quota, at);
    ProperSplit(v, walks, Admissions(keys, at), Serve(p, 64, second, at));
  }

  lemma CrowdStep(walks: map<Key, Sessions.Plan>, v: Service, p: Sessions.Plan, row: Job, target: nat, n: nat,
      budget: nat, quota: nat, at: Setting)
    requires Knows(walks, p) && Quiet(at) && n < MAX_ACTIVE && row.head == HeadKey(p) && row.state == Running
    requires Gathered(v, p, row, target, n, budget) && budget + CrowdCost(p.repo, n + 1) <= quota
    ensures var events := Serve(OtherPlan(p.repo, n), 0, LineTurn(65, 0, 64, quota), at);
            AllProper(v, walks, events) && Gathered(After(v, events), p, row, target, n + 1, budget)
  {
    hide Serve, Crowded, CrowdCost, AllProper, After, OtherPlan, Retired, TurnStep;
    var key := HeadKey(OtherPlan(p.repo, n));
    assert KnowsOther(walks, p.repo, n);
    OwnHead(p);
    OtherHead(p.repo, n);
    assert OtherKeys(p.repo, n, 32 - n)[0] == key;
    OtherServed(walks, v, row, n, budget, quota, at);
    assert OtherKeys(p.repo, n, 32 - n) == [key] + OtherKeys(p.repo, n + 1, 31 - n);
    assert OtherKeys(p.repo, 1, n) == OtherKeys(p.repo, 1, n - 1) + [key];
    forall i | n + 1 <= i < MAX_ACTIVE ensures HeadKey(OtherPlan(p.repo, i)) != key {
      OtherHead(p.repo, i);
    }
  }

  lemma {:induction false} CrowdRuns(walks: map<Key, Sessions.Plan>, v: Service, p: Sessions.Plan, row: Job,
      target: nat,
      n: nat, budget: nat, quota: nat, at: Setting)
    requires Knows(walks, p) && Quiet(at) && 1 <= n <= MAX_ACTIVE && row.head == HeadKey(p) && row.state == Running
    requires Gathered(v, p, row, target, 1, budget) && budget + CrowdCost(p.repo, MAX_ACTIVE) <= quota
    ensures var events := Crowd(p.repo, n, quota, at);
            AllProper(v, walks, events) && Gathered(After(v, events), p, row, target, n, budget)
  {
    hide Serve, CrowdCost, AllProper, After, OtherPlan, Gathered, Knows;
    if n == 1 {
      NothingHappens(v, walks);
    } else {
      CrowdRuns(walks, v, p, row, target, n - 1, budget, quota, at);
      CostGrows(p.repo, n, MAX_ACTIVE);
      CrowdStep(walks, After(v, Crowd(p.repo, n - 1, quota, at)), p, row, target, n - 1, budget, quota, at);
      ProperSplit(v, walks, Crowd(p.repo, n - 1, quota, at),
                  Serve(OtherPlan(p.repo, n - 1), 0, LineTurn(65, 0, 64, quota), at));
    }
  }

  // ---------------------------------------------------------------- the next turn

  /** A retired row claims nothing, and what it counts is not stored any more. */
  lemma {:induction false} RetiredUncovers(p: Sessions.Plan, s: State, row: Job, budget: nat)
    requires Retired(s, row, budget) && row.head == HeadKey(p) && 0 < row.completed <= |p.walk|
    ensures var w := WalkOf(p);
            && DistinctHeads(s.queue.jobs)
            && Claim(s.raw, s.queue.jobs, w)
            && RowOf(s.queue.jobs, w.head) == Some(row.(state := Obsolete))
            && !Stored(s.raw, w, row.completed)
            && |s.queue.jobs| == MAX_ACTIVE + 1
  {
    hide OtherRows, CrowdCost, Used, Held;
    FirstRow(row.(state := Obsolete), MAX_ACTIVE);
    OtherRowsShape(row.head.repo, MAX_ACTIVE);
    DeadClaim(s.raw, s.queue.jobs, WalkOf(p));
    assert !StoredAt(s.raw, WalkOf(p), 0);
  }

  lemma {:induction false} FewTerminal(jobs: seq<Job>)
    ensures TerminalCount(jobs) <= |jobs|
  {
    if jobs != [] {
      FewTerminal(jobs[..|jobs| - 1]);
    }
  }

  /** With few rows none is trimmed away. */
  lemma NotTrimmed(s: State, head: Key, state: JobState)
    requires |s.queue.jobs| <= MAX_TERMINAL && RowOf(s.queue.jobs, head).Some?
    ensures !Trimmed(s, head, state)
  {
    hide TerminalCount, RowOf, SetState;
    SetStateRow(s.queue.jobs, head, state, head);
    assert |SetState(s.queue.jobs, head, state)| == |s.queue.jobs| by { SameLength(s.queue.jobs, head, state); }
    FewTerminal(SetState(s.queue.jobs, head, state));
  }

  lemma SameLength(jobs: seq<Job>, head: Key, state: JobState)
    ensures |SetState(jobs, head, state)| == |jobs|
  {
  }

  lemma StageAddsAtMostOne(s: State, r: Request, at: Setting)
    requires DistinctHeads(s.queue.jobs)
    ensures |Stage(s, r, at).state.queue.jobs| <= |s.queue.jobs| + 1
  {
    hide Settle, Fits, Bound, PlanFor, AddPlan, ProduceFacts, UpsertRow, PauseRow, RowOf, OnlyRemoves, ActiveCount;
    SettleKeeps(s, r, at, 0);
    SettledHeads(s, r, at);
    var t := Settle(s, r, at, 0);
    if Fits(t, r) {
      UpsertShape(t.queue.jobs, RunningRow(r));
      BoundHolds(Insert(t, r, PlanFor(t, r), at.now), Some(r.Caller()), at);
    } else {
      PauseShape(t.queue.jobs, PausedRow(r));
      BoundHolds(t.(queue := t.queue.(jobs := PauseRow(t.queue.jobs, PausedRow(r)))), Some(r.Caller()), at);
    }
  }

  /** A staged turn past what is stored, with or without the change to ready that may follow it. */
  lemma StagedOverclaims(s: State, p: Sessions.Plan, r: Request, at: Setting, row: Job)
    requires Topological(WalkOf(p)) && DistinctCommits(WalkOf(p)) && Segment(r, WalkOf(p)) && r.Caller() == HeadKey(p)
    requires DistinctHeads(s.queue.jobs) && |s.queue.jobs| < MAX_TERMINAL
    requires RowOf(s.queue.jobs, HeadKey(p)) == Some(row) && !Pins(row.state)
    requires r.completed - |r.batch.facts| == row.completed <= |p.walk| && !Stored(s.raw, WalkOf(p), row.completed)
    ensures var t := Stage(s, r, at).state;
            && !Claim(t.raw, t.queue.jobs, WalkOf(p))
            && var u := ChangeState(t, HeadKey(p), Ready, at); !Claim(u.raw, u.queue.jobs, WalkOf(p))
  {
    hide Stage, ChangeState, Topological, DistinctCommits, Segment, RowOf, DistinctHeads, Stored, Claim, Trimmed,
      Survive, Settle, Fits;
    var w, t := WalkOf(p), Stage(s, r, at).state;
    if Stage(s, r, at).stored {
      StoredTurnClaimsBefore(s, r, at, w);
    } else {
      RefusedTurnClaimsExactly(s, r, at, w);
    }
    CallerSurvives(s, r, at);
    StageAddsAtMostOne(s, r, at);
    var after := RowOf(t.queue.jobs, HeadKey(p)).value;
    LiveClaim(t.raw, t.queue.jobs, w, after);
    NotTrimmed(t, HeadKey(p), Ready);
    StateChangeClaimsExactly(t, Ready, at, w);
  }

  /**
   * Whatever the next turn of a retired head does, unless it fails or finds no demand, the live row then counts commits
   * whose facts are gone.
   */
  lemma NextTurnOverclaims(s: State, p: Sessions.Plan, row: Job, budget: nat, third: Outside, at: Setting)
    requires Topological(WalkOf(p)) && DistinctCommits(WalkOf(p)) && Collected(p, row.completed, third)
    requires Retired(s, row, budget) && row.head == HeadKey(p) && 0 < row.completed < |p.walk|
    ensures var t, op := TurnStep(s, p, row.completed, third, at).0, TurnOp(p, row.completed, third);
            Claim(t.raw, t.queue.jobs, WalkOf(p)) <==> op.None? || op == Some(StateOp(HeadKey(p), Obsolete))
  {
    hide Stage, ChangeState, Topological, DistinctCommits, Segment, RowOf, DistinctHeads, Stored, Claim, Retired,
      Collected, Target, TurnEnd, Trimmed;
    RetiredUncovers(p, s, row, budget);
    var op := TurnOp(p, row.completed, third);
    if op.Some? && op.value.StageOp? {
      TurnIsSegment(p, row.completed, third);
      StagedOverclaims(s, p, op.value.request, at, row.(state := Obsolete));
    } else if op.Some? {
      SessionRuns.AppliedState(s, HeadKey(p), op.value.state, at);
      NotTrimmed(s, HeadKey(p), op.value.state);
      StateChangeClaimsExactly(s, op.value.state, at, WalkOf(p));
    }
  }

  /**
   * For every walk of more than 128 commits and every quota that holds its first two turns and 32 other batches, there
   * is a run of the service from empty tables, each event of which is one it takes, after which the session's turn has
   * come and the claim holds; but that turn, whether it stores, is refused, finds too little demand or is told to stop,
   * leaves a live row that counts commits whose facts are gone.
   */
  lemma RetiredHeadOverclaims(walks: map<Key, Sessions.Plan>, p: Sessions.Plan, first: Outside, second: Outside,
      third: Outside, quota: nat, at: Setting)
    requires Demanding(p, first, second, quota) && Knows(walks, p) && Quiet(at) && Collected(p, 128, third)
    ensures var events := Events(p, first, second, at);
            var v := After(START, events);
            var next, op := Happens(v, Event(Advanced(third), at)), TurnOp(p, 128, third);
            && AllProper(START, walks, events + [Event(Advanced(third), at)])
            && After(START, events + [Event(Advanced(third), at)]) == next
            && Claim(v.state.raw, v.state.queue.jobs, WalkOf(p))
            && next.state == TurnStep(v.state, p, 128, third, at).0
            && (Claim(next.state.raw, next.state.queue.jobs, WalkOf(p)) <==>
                  op.None? || op == Some(StateOp(HeadKey(p), Obsolete)))
  {
    hide Opening, Resuming, Crowd, Claim, Topological, DistinctCommits, TurnCost, CrowdCost, AllProper, After, WalkOf,
      TurnStep, TurnMore, TurnOp, Opened, Gathered, Knows, Happens, Proper, Retired;
    var row, budget := RunningRow(TurnRequest(p, 64, second)), TurnCost(p, 0, first) + TurnCost(p, 64, second);
    var v := RunsToTheThirdTurn(walks, p, first, second, quota, at);
    NextTurn(p, first, second, quota, 1);
    RetiredUncovers(p, v.state, row, budget);
    NextTurnOverclaims(v.state, p, row, budget, third, at);
    ThirdTurn(v, walks, p, second.justified, third, at);
    OneEvent(v, walks, Event(Advanced(third), at));
    ProperSplit(START, walks, Events(p, first, second, at), [Event(Advanced(third), at)]);
  }

  lemma ThirdTurn(v: Service, walks: map<Key, Sessions.Plan>, p: Sessions.Plan, target: nat, third: Outside,
      at: Setting)
    requires v.queue.flight == Some(HeadKey(p)) && HeadKey(p) in v.sessions
    requires v.sessions[HeadKey(p)] == Session(p, target, 128) && Collected(p, 128, third)
    ensures Proper(v, walks, Event(Advanced(third), at))
    ensures Happens(v, Event(Advanced(third), at)).state == TurnStep(v.state, p, 128, third, at).0
  {
    hide TurnStep, TurnMore, Collected;
  }

  lemma RunsToTheThirdTurn(walks: map<Key, Sessions.Plan>, p: Sessions.Plan, first: Outside, second: Outside,
      quota: nat,
      at: Setting) returns (v: Service)
    requires Demanding(p, first, second, quota) && Knows(walks, p) && Quiet(at)
    ensures AllProper(START, walks, Events(p, first, second, at)) && v == After(START, Events(p, first, second, at))
    ensures v.queue.flight == Some(HeadKey(p)) && HeadKey(p) in v.sessions
    ensures v.sessions[HeadKey(p)] == Session(p, second.justified, 128)
    ensures Retired(v.state, RunningRow(TurnRequest(p, 64, second)),
                    TurnCost(p, 0, first) + TurnCost(p, 64, second))
  {
    hide Opening, Resuming, Crowd, Topological, DistinctCommits, TurnCost, CrowdCost, AllProper, After, Opened, Knows,
      Crowded, Retired, Collected, Target, OtherPlan;
    var row, budget := RunningRow(TurnRequest(p, 64, second)), TurnCost(p, 0, first) + TurnCost(p, 64, second);
    var a, b, c := Opening(p, first, at), Resuming(p, second, at), Crowd(p.repo, MAX_ACTIVE, first.quota, at);
    NextTurn(p, first, second, quota, 1);
    OpeningRuns(walks, p, first, second, quota, at);
    ResumingRuns(walks, After(START, a), p, first, second, quota, at);
    ProperSplit(START, walks, a, b);
    CrowdRuns(walks, After(START, a + b), p, row, second.justified, MAX_ACTIVE, budget, quota, at);
    ProperSplit(START, walks, a + b, c);
    var u := After(START, a + b + c);
    OneEvent(u, walks, Event(Popped, at));
    ProperSplit(START, walks, a + b + c, [Event(Popped, at)]);
    v := After(START, Events(p, first, second, at));
  }

  // ---------------------------------------------------------------- one such run

  lemma LineIsTopological(repo: int, length: nat)
    requires length > 0
    ensures Topological(WalkOf(Line(repo, length))) && DistinctCommits(WalkOf(Line(repo, length)))
  {
    var p, w := Line(repo, length), WalkOf(Line(repo, length));
    forall i | 0 < i < length ensures HasChild(w, i) {
      assert p.walk[i - 1] in p.walk && w.commits[i - 1] == Key(repo, p.walk[i - 1]);
      assert p.walk[i - 1] + "c" == p.walk[i];
      assert w.commits[i] in w.Parents(i - 1);
    }
    forall i, j | 0 <= i < j < length ensures w.commits[i] != w.commits[j] {
      assert |p.walk[i]| != |p.walk[j]|;
    }
  }

  function Walks(p: Sessions.Plan, n: nat): map<Key, Sessions.Plan> {
    if n == 0 then map[HeadKey(p) := p]
    else Walks(p, n - 1)[HeadKey(OtherPlan(p.repo, n - 1)) := OtherPlan(p.repo, n - 1)]
  }

  lemma {:induction false} WalksKnow(p: Sessions.Plan, n: nat)
    ensures HeadKey(p) in Walks(p, n) && Walks(p, n)[HeadKey(p)] == p
    ensures forall i :: 0 <= i < n ==> KnowsOther(Walks(p, n), p.repo, i)
  {
    hide OtherPlan, HeadKey;
    OwnHead(p);
    if n > 0 {
      WalksKnow(p, n - 1);
      OtherHead(p.repo, n - 1);
      forall i | 0 <= i < n - 1 ensures KnowsOther(Walks(p, n), p.repo, i) {
        assert KnowsOther(Walks(p, n - 1), p.repo, i);
        OtherHead(p.repo, i);
      }
    }
  }

  /** A commit larger than the quota is refused, however much is evicted. */
  lemma BigIsRefused(s: State, r: Request, f: BatchFact, at: Setting)
    requires r.batch.facts == [f] && f.bytes > r.quota && Key(r.batch.repo, f.oid) !in s.raw.facts && s.members == map[]
    ensures !Stage(s, r, at).stored
  {
    hide Settle, Used, Bound, MissingEdges, EdgeTotal;
    SettleKeeps(s, r, at, 0);
    var t := Settle(s, r, at, 0);
    NothingHeld();
    assert Held(t.members) == {};
    assert PlanOf(t.raw, {}, r.batch, 0).additional == 0;
    assert PlanFor(t, r).additional >= f.bytes;
  }

  /** The last commit of the line, of `bytes` bytes. */
  function LastTurn(bytes: nat, quota: nat): Outside {
    Outside(false, 129, Some([BatchFact(Name(128), bytes, 0)]), quota)
  }

  function LastRequest(bytes: nat, quota: nat): Request {
    TurnRequest(Line(0, 129), 128, LastTurn(bytes, quota))
  }

  function LastCost(): nat {
    TurnCost(Line(0, 129), 128, LastTurn(1, 0))
  }

  /** The quota holds the first two turns, those of the 32 other lines, and a last commit of one byte. */
  function LineQuota(): nat {
    TurnCost(Line(0, 129), 0, LineTurn(129, 0, 64, 0)) + TurnCost(Line(0, 129), 64, LineTurn(129, 64, 64, 0))
    + CrowdCost(0, MAX_ACTIVE) + LastCost()
  }

  lemma LineDemands(quota: nat)
    requires quota >= LineQuota()
    ensures Demanding(Line(0, 129), LineTurn(129, 0, 64, quota), LineTurn(129, 64, 64, quota), quota)
  {
    hide Topological, DistinctCommits, BatchCost, CrowdCost, Name;
    LineIsTopological(0, 129);
  }

  lemma LastIsStaged(bytes: nat, quota: nat)
    ensures var o, r := LastTurn(bytes, quota), LastRequest(bytes, quota);
            && Collected(Line(0, 129), 128, o)
            && TurnOp(Line(0, 129), 128, o) == Some(StageOp(r))
            && r.batch.facts == [BatchFact(Name(128), bytes, 0)] && r.batch.repo == 0 && r.quota == quota
  {
    hide Name;
  }

  /** The service takes this turn, and it leaves a live row that counts more than is stored. */
  ghost predicate Overclaiming(v: Service, walks: map<Key, Sessions.Plan>, p: Sessions.Plan, o: Outside, at: Setting) {
    var next := Happens(v, Event(Advanced(o), at)).state;
    Proper(v, walks, Event(Advanced(o), at)) && !Claim(next.raw, next.queue.jobs, WalkOf(p))
  }

  lemma TurnOverclaims(walks: map<Key, Sessions.Plan>, p: Sessions.Plan, first: Outside, second: Outside,
      third: Outside,
      quota: nat, at: Setting)
    requires Demanding(p, first, second, quota) && Knows(walks, p) && Quiet(at) && Collected(p, 128, third)
    requires TurnOp(p, 128, third).Some? && TurnOp(p, 128, third) != Some(StateOp(HeadKey(p), Obsolete))
    ensures Overclaiming(After(START, Events(p, first, second, at)), walks, p, third, at)
  {
    hide Events, Claim, Topological, DistinctCommits, TurnCost, CrowdCost, After, WalkOf, TurnStep, TurnOp, Knows,
      Happens, Proper, Collected;
    var events, last := Events(p, first, second, at), [Event(Advanced(third), at)];
    RetiredHeadOverclaims(walks, p, first, second, third, quota, at);
    assert (events + last)[..|events|] == events && (events + last)[|events|] == last[0];
  }

  /** Two turns of 64 commits of the line, among those of the other lines. */
  ghost function LineEvents(at: Setting): seq<Event> {
    Events(Line(0, 129), LineTurn(129, 0, 64, LineQuota()), LineTurn(129, 64, 64, LineQuota()), at)
  }

  ghost function LineService(at: Setting): Service {
    After(START, LineEvents(at))
  }

  /**
   * Such a run, with all inputs given: lines of commits of one byte each, under one quota that holds everything. The
   * last commit is stored when it has one byte and refused when it is larger than the quota; either turn overclaims,
   * and so does a stop.
   */
  lemma LineOverclaims(now: int)
    ensures var at, p, q := Setting(0, now, {}), Line(0, 129), LineQuota();
            var walks, v := Walks(p, MAX_ACTIVE), LineService(at);
            && AllProper(START, walks, LineEvents(at))
            && Stage(v.state, LastRequest(1, q), at).stored
            && !Stage(v.state, LastRequest(q + 1, q), at).stored
            && forall o :: o in {LastTurn(1, q), LastTurn(q + 1, q), LastTurn(1, q).(stopping := true)} ==>
                 Overclaiming(v, walks, p, o, at)
  {
    hide Events, Stage, Overclaiming, AllProper, After, TurnOp, TurnCost, CrowdCost, Walks, Line, LineTurn, LastTurn,
      Collected, Demanding, Knows, LineQuota;
    var at, p, q := Setting(0, now, {}), Line(0, 129), LineQuota();
    var walks, first, second := Walks(p, MAX_ACTIVE), LineTurn(129, 0, 64, q), LineTurn(129, 64, 64, q);
    LineDemands(q);
    WalksKnow(p, MAX_ACTIVE);
    assert Knows(walks, p) by { WalksAreKnown(p); }
    LastTurns(now);
    TurnOverclaims(walks, p, first, second, LastTurn(1, q), q, at);
    TurnOverclaims(walks, p, first, second, LastTurn(q + 1, q), q, at);
    TurnOverclaims(walks, p, first, second, LastTurn(1, q).(stopping := true), q, at);
    LastBatches(walks, first, second, q, at);
  }

  lemma WalksAreKnown(p: Sessions.Plan)
    ensures Knows(Walks(p, MAX_ACTIVE), p)
  {
    hide Walks, KnowsOther;
    WalksKnow(p, MAX_ACTIVE);
  }

  lemma LastTurns(now: int)
    ensures var p, q := Line(0, 129), LineQuota();
            forall o :: o in {LastTurn(1, q), LastTurn(q + 1, q), LastTurn(1, q).(stopping := true)} ==>
              && Collected(p, 128, o)
              && TurnOp(p, 128, o).Some? && TurnOp(p, 128, o) != Some(StateOp(HeadKey(p), Obsolete))
  {
    hide Name, LineQuota;
    LastIsStaged(1, LineQuota());
    LastIsStaged(LineQuota() + 1, LineQuota());
  }

  lemma LastBatches(walks: map<Key, Sessions.Plan>, first: Outside, second: Outside, q: nat, at: Setting)
    requires q == LineQuota() && first == LineTurn(129, 0, 64, q) && second == LineTurn(129, 64, 64, q)
    requires Demanding(Line(0, 129), first, second, q) && Knows(walks, Line(0, 129)) && Quiet(at)
    ensures var events := Events(Line(0, 129), first, second, at);
            && AllProper(START, walks, events)
            && Stage(After(START, events).state, LastRequest(1, q), at).stored
            && !Stage(After(START, events).state, LastRequest(q + 1, q), at).stored
  {
    hide Events, Stage, AllProper, After, TurnOp, Line, LineTurn, LastRequest, Collected, Knows, Retired, Name,
      PlanFor, PlanOf, Fits, TurnRequest, Demanding, LastTurn, LineQuota, LastCost, TurnCost;
    var v := RunsToTheThirdTurn(walks, Line(0, 129), first, second, q, at);
    LastIsStaged(1, q);
    LastIsStaged(q + 1, q);
    SameCosts(q);
    LineIsRetired(v.state, first, second, q);
    FitsWithin(v.state, LastRequest(1, q), q - LastCost());
    FittingStage(v.state, LastRequest(1, q), at);
    BigIsRefused(v.state, LastRequest(q + 1, q), BatchFact(Name(128), q + 1, 0), at);
  }

  lemma LineIsRetired(s: State, first: Outside, second: Outside, q: nat)
    requires q == LineQuota() && first == LineTurn(129, 0, 64, q) && second == LineTurn(129, 64, 64, q)
    requires Demanding(Line(0, 129), first, second, q)
    requires Retired(s, RunningRow(TurnRequest(Line(0, 129), 64, second)),
                     TurnCost(Line(0, 129), 0, first) + TurnCost(Line(0, 129), 64, second))
    ensures s.members == map[] && Used(s.raw, Held(s.members)) + LastCost() <= q
    ensures forall key :: key in s.raw.facts ==> key.repo != 0
  {
    hide TurnOp, Line, LineTurn, CrowdCost, Used, Held, OtherRows, TurnRequest, Topological, DistinctCommits,
      LastTurn, TurnCost, Collected, LastRequest;
    LineIsHere();
    NextTurn(Line(0, 129), first, second, q, 1);
    SameCosts(q);
  }

  lemma LineIsHere()
    ensures Line(0, 129).repo == 0 && HeadKey(Line(0, 129)).repo == 0
  {
  }

  lemma FitsWithin(s: State, r: Request, used: nat)
    requires Used(s.raw, Held(s.members)) <= used && used + BatchCost(r.batch, |r.batch.facts|) <= r.quota
    ensures Fits(s, r)
  {
    hide Used, Held, PlanOf, BatchCost;
    PlanAtMost(s.raw, Held(s.members), r.batch, |r.batch.facts|);
  }

  /** The quota does not change what a turn costs. */
  lemma SameCosts(q: nat)
    ensures var p := Line(0, 129);
            && TurnCost(p, 0, LineTurn(129, 0, 64, q)) == TurnCost(p, 0, LineTurn(129, 0, 64, 0))
            && TurnCost(p, 64, LineTurn(129, 64, 64, q)) == TurnCost(p, 64, LineTurn(129, 64, 64, 0))
            && BatchCost(LastRequest(1, q).batch, |LastRequest(1, q).batch.facts|) == LastCost()
  {
    hide BatchCost, Name, Line;
  }
}
