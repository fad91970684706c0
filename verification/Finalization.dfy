/** Retention after a publication: what finalizing evicts, what it keeps, and what it reports. */
module Finalization {
  import opened Results
  import opened Retention
  import opened Totals
  import opened Trails
  import opened TrailReadback

  datatype Request = Request(repo: int, alias: Option<string>, active: string, now: int, protection: nat, cap: nat)

  function SetAlias(db: Db, req: Request): Option<Db> {
    match req.alias
    case None => Some(db)
    case Some(selector) =>
      if req.active !in db.trails then None
      else Some(db.(aliases := db.aliases[AliasKey(req.repo, selector) := req.active]))
  }

  // ---------------------------------------------------------------- cohorts of trails

  function StatesOf(db: Db, id: string): set<EntrySlot> {
    set slot | slot in db.overlay.states && slot.trail == id
  }

  function TrailCohort(db: Db, id: string): Cohort
    requires id in db.trails
  {
    Cohort(db.trails[id].time, db.trails[id].repo, id, |StatesOf(db, id)|)
  }

  predicate Aliased(db: Db, id: string) {
    exists alias :: alias in db.aliases && db.aliases[alias] == id
  }

  predicate RecentTrail(db: Db, id: string, req: Request)
    requires id in db.trails
  {
    req.protection > 0 && db.trails[id].time > req.now - req.protection
  }

  /** A trail that finalizing may evict. */
  predicate Expendable(db: Db, id: string, req: Request)
    requires id in db.trails
  {
    !Aliased(db, id) && !RecentTrail(db, id, req) && id != req.active
  }

  function EligibleTrails(db: Db, req: Request): set<Cohort> {
    set id | id in db.trails && Expendable(db, id, req) :: TrailCohort(db, id)
  }

  function TrailSizes(db: Db): map<string, nat> {
    map id | id in db.trails :: |StatesOf(db, id)|
  }

  ghost function TrailTotal(db: Db): nat {
    Total(TrailSizes(db))
  }

  // ---------------------------------------------------------------- cohorts of commits outside all trails

  function EntriesAt(db: Db, commit: CommitKey): set<EntryKey> {
    set key | key in db.shared.entries && key.commit == commit
  }

  function Loose(db: Db): (r: set<CommitKey>)
    ensures r <= db.shared.commits.Keys
  {
    set commit | commit in db.shared.commits && EntriesAt(db, commit) != {} && !Referenced(db, commit)
  }

  function CommitCohort(db: Db, commit: CommitKey): Cohort
    requires commit in db.shared.commits
  {
    Cohort(db.shared.commits[commit], commit.repo, commit.oid, |EntriesAt(db, commit)|)
  }

  function EligibleCommits(db: Db, req: Request): set<Cohort> {
    set commit | commit in Loose(db)
                 && (req.protection == 0 || db.shared.commits[commit] <= req.now - req.protection) ::
      CommitCohort(db, commit)
  }

  function LooseSizes(db: Db): map<CommitKey, nat> {
    map commit | commit in Loose(db) :: |EntriesAt(db, commit)|
  }

  ghost function LooseTotal(db: Db): nat {
    Total(LooseSizes(db))
  }

  // ---------------------------------------------------------------- finalizing

  function Ids(plan: seq<Cohort>): set<string> {
    set row | row in plan :: row.id
  }

  function Keys(plan: seq<Cohort>): set<CommitKey> {
    set row | row in plan :: CommitKey(row.repo, row.id)
  }

  function Evicted(db: Db, trails: seq<Cohort>, commits: seq<Cohort>): Db {
    DropCommits(DropTrails(db, Ids(trails)), Keys(commits))
  }

  /** The two plans are those that retention prescribes for these tables. */
  ghost predicate Prescribed(db: Db, req: Request, trails: seq<Cohort>, commits: seq<Cohort>) {
    && IsPlan(EligibleTrails(db, req), TrailTotal(db), req.cap, trails)
    && var rest := DropTrails(db, Ids(trails));
       IsPlan(EligibleCommits(rest, req), LooseTotal(rest), req.cap, commits)
  }

  ghost predicate Over(db: Db, req: Request, trails: seq<Cohort>, commits: seq<Cohort>) {
    || Left(TrailTotal(db), Entries(trails)) > req.cap
    || Left(LooseTotal(DropTrails(db, Ids(trails))), Entries(commits)) > req.cap
  }

  lemma TrailNamesAreDistinct(db: Db, req: Request)
    ensures DistinctNames(EligibleTrails(db, req))
  {
  }

  lemma CommitNamesAreDistinct(db: Db, req: Request)
    ensures DistinctNames(EligibleCommits(db, req))
  {
  }

  /** The tables and the request determine what is evicted; no row order enters. */
  lemma {:induction false} PlansAreDetermined(db: Db, req: Request, t1: seq<Cohort>, c1: seq<Cohort>,
      t2: seq<Cohort>, c2: seq<Cohort>)
    requires Prescribed(db, req, t1, c1) && Prescribed(db, req, t2, c2)
    ensures t1 == t2 && c1 == c2
  {
    hide IsPlan, EligibleTrails, EligibleCommits, TrailTotal, LooseTotal, DistinctNames, DropTrails;
    TrailNamesAreDistinct(db, req);
    PlanIsUnique(EligibleTrails(db, req), TrailTotal(db), req.cap, t1, t2);
    var rest := DropTrails(db, Ids(t1));
    CommitNamesAreDistinct(rest, req);
    PlanIsUnique(EligibleCommits(rest, req), LooseTotal(rest), req.cap, c1, c2);
  }

  // ---------------------------------------------------------------- what is kept

  lemma {:induction false} EvictedTrailsAreExpendable(db: Db, req: Request, plan: seq<Cohort>, id: string)
    requires IsPlan(EligibleTrails(db, req), TrailTotal(db), req.cap, plan) && id in Ids(plan)
    ensures id in db.trails && Expendable(db, id, req)
  {
  }

  lemma {:induction false} EvictedCommitsAreLoose(db: Db, req: Request, plan: seq<Cohort>, commit: CommitKey)
    requires IsPlan(EligibleCommits(db, req), LooseTotal(db), req.cap, plan) && commit in Keys(plan)
    ensures commit in Loose(db)
    ensures req.protection == 0 || db.shared.commits[commit] <= req.now - req.protection
  {
  }

  lemma DropTrailsKeeps(db: Db, ids: set<string>, trail: string)
    requires trail !in ids
    ensures RowsOf(DropTrails(db, ids), trail) == RowsOf(db, trail)
  {
  }

  lemma DropCommitsKeeps(db: Db, gone: set<CommitKey>, trail: string)
    requires forall commit :: commit in gone ==> !Referenced(db, commit)
    ensures RowsOf(DropCommits(db, gone), trail) == RowsOf(db, trail)
  {
  }

  lemma DropTrailsLinked(db: Db, ids: set<string>)
    requires Linked(db)
    ensures Linked(DropTrails(db, ids))
  {
  }

  lemma DropCommitsLinked(db: Db, gone: set<CommitKey>)
    requires Linked(db)
    ensures Linked(DropCommits(db, gone))
  {
  }

  /**
   * Finalizing never evicts the active trail, an aliased trail or a recent trail, nor a commit of a retained trail;
   * every retained trail reads back as before.
   */
  lemma {:induction false} FinalizeKeeps(db: Db, req: Request, trails: seq<Cohort>, commits: seq<Cohort>, trail: string)
    requires Linked(db) && Prescribed(db, req, trails, commits) && trail in db.trails
    ensures var after := Evicted(db, trails, commits);
            && Linked(after)
            && (trail in after.trails <==> trail !in Ids(trails))
            && (trail !in after.trails ==> Expendable(db, trail, req))
            && (trail in after.trails ==>
                  && after.trails[trail] == db.trails[trail]
                  && RowsOf(after, trail) == RowsOf(db, trail)
                  && (forall slot :: slot in db.overlay.members && slot.trail == trail ==>
                        slot in after.overlay.members && slot.commit in after.shared.commits
                        && EntriesAt(after, slot.commit) == EntriesAt(db, slot.commit)))
  {
    hide IsPlan, RowsOf, Linked, EligibleTrails, EligibleCommits, TrailTotal, LooseTotal;
    var rest := DropTrails(db, Ids(trails));
    DropTrailsLinked(db, Ids(trails));
    DropCommitsLinked(rest, Keys(commits));
    if trail in Ids(trails) {
      EvictedTrailsAreExpendable(db, req, trails, trail);
    } else {
      forall commit | commit in Keys(commits) ensures !Referenced(rest, commit) {
        EvictedCommitsAreLoose(rest, req, commits, commit);
      }
      DropTrailsKeeps(db, Ids(trails), trail);
      DropCommitsKeeps(rest, Keys(commits), trail);
      forall slot | slot in db.overlay.members && slot.trail == trail
        ensures slot in rest.overlay.members && slot.commit !in Keys(commits) && slot.commit in db.shared.commits
      {
        assert Referenced(rest, slot.commit);
        MemberIsStored(db, slot);
      }
    }
  }

  lemma MemberIsStored(db: Db, slot: Slot)
    requires Linked(db) && slot in db.overlay.members
    ensures slot.commit in db.shared.commits
  {
  }

  // ---------------------------------------------------------------- runs

  /** A finalization carries the plans that its selection computed. */
  datatype Op =
    | PublishOp(publication: Publication)
    | FinalizeOp(request: Request, trails: seq<Cohort>, commits: seq<Cohort>)

  function Apply(db: Db, op: Op): Db {
    match op
    case PublishOp(p) => (match Publish(db, p) case None => db case Some(after) => after)
    case FinalizeOp(req, trails, commits) =>
      match SetAlias(db, req)
      case None => db
      case Some(named) => Evicted(named, trails, commits)
  }

  ghost predicate Valid(db: Db, op: Op) {
    match op
    case PublishOp(_) => true
    case FinalizeOp(req, trails, commits) => SetAlias(db, req).Some? ==>
      Prescribed(SetAlias(db, req).value, req, trails, commits)
  }

  function Run(db: Db, ops: seq<Op>): Db {
    if ops == [] then db else Apply(Run(db, ops[..|ops| - 1]), ops[|ops| - 1])
  }

  ghost predicate AllValid(db: Db, ops: seq<Op>) {
    forall i :: 0 <= i < |ops| ==> Valid(Run(db, ops[..i]), ops[i])
  }

  /** The trail is never evicted during the run. */
  ghost predicate Present(db: Db, ops: seq<Op>, trail: string) {
    forall i :: 0 <= i <= |ops| ==> trail in Run(db, ops[..i]).trails
  }

  lemma AliasKeeps(db: Db, req: Request, trail: string)
    requires Linked(db) && SetAlias(db, req).Some?
    ensures var named := SetAlias(db, req).value;
            Linked(named) && named.trails == db.trails && RowsOf(named, trail) == RowsOf(db, trail)
  {
  }

  lemma StepKeeps(db: Db, op: Op, trail: string)
    requires Linked(db) && Valid(db, op)
    ensures Linked(Apply(db, op))
    ensures trail in db.trails && trail in Apply(db, op).trails ==> RowsOf(Apply(db, op), trail) == RowsOf(db, trail)
  {
    hide Linked, RowsOf, Prescribed;
    match op
    case PublishOp(p) =>
      if Publish(db, p).Some? {
        PublishKeepsLinked(db, p);
        if trail != p.id {
          PublishFrame(db, p, trail);
        }
      }
    case FinalizeOp(req, trails, commits) =>
      if SetAlias(db, req).Some? {
        FinalizeStep(db, req, trails, commits, trail);
      }
  }

  lemma {:induction false} FinalizeStep(db: Db, req: Request, trails: seq<Cohort>, commits: seq<Cohort>, trail: string)
    requires Linked(db) && SetAlias(db, req).Some? && Prescribed(SetAlias(db, req).value, req, trails, commits)
    ensures var after := Evicted(SetAlias(db, req).value, trails, commits);
            && Linked(after)
            && (trail in db.trails && trail in after.trails ==> RowsOf(after, trail) == RowsOf(db, trail))
  {
    hide Linked, RowsOf, Prescribed, Evicted;
    var named := SetAlias(db, req).value;
    AliasKeeps(db, req, trail);
    if trail in db.trails {
      FinalizeKeeps(named, req, trails, commits, trail);
    } else {
      EvictedLinked(named, trails, commits);
    }
  }

  lemma {:induction false} EvictedLinked(db: Db, trails: seq<Cohort>, commits: seq<Cohort>)
    requires Linked(db)
    ensures Linked(Evicted(db, trails, commits))
  {
  }

  lemma {:induction false} TrailStays(db: Db, ops: seq<Op>, trail: string)
    requires Linked(db) && AllValid(db, ops) && Present(db, ops, trail)
    ensures Linked(Run(db, ops)) && RowsOf(Run(db, ops), trail) == RowsOf(db, trail)
  {
    hide Linked, RowsOf, Valid, Apply;
    if ops != [] {
      var before := ops[..|ops| - 1];
      forall i | 0 <= i <= |before| ensures before[..i] == ops[..i] {
      }
      assert AllValid(db, before) && Present(db, before, trail);
      TrailStays(db, before, trail);
      assert before == ops[..|ops| - 1] && ops == ops[..|ops|];
      StepKeeps(Run(db, before), ops[|ops| - 1], trail);
    }
  }

  /**
   * Trail immutability. From its publication on, through any publications and finalizations that keep it, a trail reads
   * back exactly the rows it was published with.
   */
  lemma {:induction false} TrailIsImmutable(db: Db, p: Publication, ops: seq<Op>)
    requires Linked(db) && Publish(db, p).Some?
    requires AllValid(Publish(db, p).value, ops) && Present(Publish(db, p).value, ops, p.id)
    ensures RowsOf(Run(Publish(db, p).value, ops), p.id) == PublishedRows(p)
  {
    hide Linked, RowsOf, AllValid, Present, PublishedRows, Publish, Run;
    PublishKeepsLinked(db, p);
    PublishedReadBack(db, p);
    TrailStays(Publish(db, p).value, ops, p.id);
  }

  // ---------------------------------------------------------------- the report

  /** Every state row of a trail belongs to one of its commits. */
  ghost predicate Whole(db: Db) {
    forall slot :: slot in db.overlay.states ==> Slot(slot.trail, slot.commit) in db.overlay.members
  }

  function Sizes<K>(m: map<K, nat>, keys: set<K>): map<K, nat> {
    map key | key in m && key in keys :: m[key]
  }

  lemma {:induction false} IdsSplit(rest: seq<Cohort>, last: Cohort)
    ensures Ids(rest + [last]) == Ids(rest) + {last.id}
    ensures forall id :: id in Ids(rest) <==> exists i :: 0 <= i < |rest| && rest[i].id == id
  {
  }

  lemma {:induction false} KeysSplit(rest: seq<Cohort>, last: Cohort)
    ensures Keys(rest + [last]) == Keys(rest) + {CommitKey(last.repo, last.id)}
    ensures forall key :: key in Keys(rest) <==>
      exists i :: 0 <= i < |rest| && CommitKey(rest[i].repo, rest[i].id) == key
  {
  }

  lemma NothingPlanned<K>(m: map<K, nat>)
    ensures Ids([]) == {} && Keys([]) == {} && Sizes(m, {}) == map[]
  {
  }

  lemma OneMoreSize<K>(m: map<K, nat>, keys: set<K>, key: K)
    requires key in m
    ensures Sizes(m, keys + {key}) == Sizes(m, keys)[key := m[key]]
    ensures key !in keys ==> key !in Sizes(m, keys)
  {
  }

  lemma {:induction false} TrailPlanTotal(m: map<string, nat>, plan: seq<Cohort>)
    requires forall row :: row in plan ==> row.id in m && m[row.id] == row.entries
    requires forall i, j :: 0 <= i < j < |plan| ==> plan[i].id != plan[j].id
    ensures Total(Sizes(m, Ids(plan))) == Entries(plan)
  {
    hide Ids, Sizes;
    if plan == [] {
      NothingPlanned(m);
    } else {
      var rest, last := plan[..|plan| - 1], plan[|plan| - 1];
      TrailPlanTotal(m, rest);
      IdsSplit(rest, last);
      assert plan == rest + [last];
      OneMoreSize(m, Ids(rest), last.id);
      TotalInsert(Sizes(m, Ids(rest)), last.id, last.entries);
    }
  }

  lemma {:induction false} CommitPlanTotal(m: map<CommitKey, nat>, plan: seq<Cohort>)
    requires forall row :: row in plan ==>
      CommitKey(row.repo, row.id) in m && m[CommitKey(row.repo, row.id)] == row.entries
    requires forall i, j :: 0 <= i < j < |plan| ==>
      CommitKey(plan[i].repo, plan[i].id) != CommitKey(plan[j].repo, plan[j].id)
    ensures Total(Sizes(m, Keys(plan))) == Entries(plan)
  {
    hide Keys, Sizes;
    if plan == [] {
      NothingPlanned(m);
    } else {
      var rest, last := plan[..|plan| - 1], plan[|plan| - 1];
      var key := CommitKey(last.repo, last.id);
      CommitPlanTotal(m, rest);
      KeysSplit(rest, last);
      assert plan == rest + [last];
      OneMoreSize(m, Keys(rest), key);
      TotalInsert(Sizes(m, Keys(rest)), key, last.entries);
    }
  }

  lemma {:induction false} PlanRowsDiffer(eligible: set<Cohort>, total: nat, cap: nat, plan: seq<Cohort>, i: nat,
      j: nat)
    requires DistinctNames(eligible) && IsPlan(eligible, total, cap, plan) && i < j < |plan|
    ensures plan[i].repo != plan[j].repo || plan[i].id != plan[j].id
  {
    BeforeTotal(plan[i], plan[i]);
    assert Before(plan[i], plan[j]);
  }

  lemma SizesAfterDrop(db: Db, ids: set<string>)
    ensures TrailSizes(DropTrails(db, ids)) == TrailSizes(db) - ids
  {
    var rest := DropTrails(db, ids);
    forall id | id in rest.trails ensures StatesOf(rest, id) == StatesOf(db, id) {
    }
  }

  lemma {:induction false} TrailTotalAfter(db: Db, req: Request, plan: seq<Cohort>)
    requires IsPlan(EligibleTrails(db, req), TrailTotal(db), req.cap, plan)
    ensures TrailTotal(db) == TrailTotal(DropTrails(db, Ids(plan))) + Entries(plan)
  {
    hide TrailTotal, IsPlan, DropTrails, EligibleTrails, StatesOf, Entries;
    var m, ids := TrailSizes(db), Ids(plan);
    var rest := DropTrails(db, ids);
    TrailTotalMeans(db);
    TrailTotalMeans(rest);
    TotalSplit(m, ids);
    SizesAfterDrop(db, ids);
    forall row | row in plan ensures row.id in m && m[row.id] == row.entries {
      PlannedTrail(db, req, plan, row);
    }
    forall i, j | 0 <= i < j < |plan| ensures plan[i].id != plan[j].id {
      TrailNamesAreDistinct(db, req);
      PlanRowsDiffer(EligibleTrails(db, req), TrailTotal(db), req.cap, plan, i, j);
      PlannedTrail(db, req, plan, plan[i]);
      PlannedTrail(db, req, plan, plan[j]);
    }
    TrailPlanTotal(m, plan);
    assert (map id | id in m && id in ids :: m[id]) == Sizes(m, ids);
  }

  lemma TrailTotalMeans(db: Db)
    ensures TrailTotal(db) == Total(TrailSizes(db))
  {
  }

  lemma {:induction false} PlannedTrail(db: Db, req: Request, plan: seq<Cohort>, row: Cohort)
    requires IsPlan(EligibleTrails(db, req), TrailTotal(db), req.cap, plan) && row in plan
    ensures row.id in db.trails && row == TrailCohort(db, row.id)
  {
  }

  lemma {:induction false} PlannedCommit(db: Db, req: Request, plan: seq<Cohort>, row: Cohort)
    requires IsPlan(EligibleCommits(db, req), LooseTotal(db), req.cap, plan) && row in plan
    ensures var key := CommitKey(row.repo, row.id); key in Loose(db) && row == CommitCohort(db, key)
  {
  }

  lemma LooseAfter(db: Db, gone: set<CommitKey>)
    requires gone <= Loose(db)
    ensures LooseSizes(DropCommits(db, gone)) == LooseSizes(db) - gone
  {
    var after := DropCommits(db, gone);
    forall commit | commit !in gone ensures EntriesAt(after, commit) == EntriesAt(db, commit) {
    }
    forall commit | commit !in gone ensures Referenced(after, commit) <==> Referenced(db, commit) {
      if slot :| slot in db.overlay.members && slot.commit == commit {
        assert slot in after.overlay.members;
      }
    }
  }

  lemma {:induction false} LooseTotalAfter(db: Db, req: Request, plan: seq<Cohort>)
    requires IsPlan(EligibleCommits(db, req), LooseTotal(db), req.cap, plan)
    ensures LooseTotal(db) == LooseTotal(DropCommits(db, Keys(plan))) + Entries(plan)
  {
    hide IsPlan, Loose, LooseSizes, EntriesAt, EligibleCommits;
    var m, keys := LooseSizes(db), Keys(plan);
    forall key | key in keys ensures key in Loose(db) {
      EvictedCommitsAreLoose(db, req, plan, key);
    }
    LooseAfter(db, keys);
    TotalSplit(m, keys);
    forall row | row in plan ensures CommitKey(row.repo, row.id) in m && m[CommitKey(row.repo, row.id)] == row.entries {
      PlannedCommit(db, req, plan, row);
      LooseSize(db, CommitKey(row.repo, row.id));
    }
    forall i, j | 0 <= i < j < |plan|
      ensures CommitKey(plan[i].repo, plan[i].id) != CommitKey(plan[j].repo, plan[j].id)
    {
      CommitNamesAreDistinct(db, req);
      PlanRowsDiffer(EligibleCommits(db, req), LooseTotal(db), req.cap, plan, i, j);
    }
    CommitPlanTotal(m, plan);
    assert (map key | key in m && key in keys :: m[key]) == Sizes(m, keys);
  }

  lemma LooseSize(db: Db, commit: CommitKey)
    requires commit in Loose(db)
    ensures commit in LooseSizes(db) && LooseSizes(db)[commit] == CommitCohort(db, commit).entries
  {
  }

  /** A state row of a stored trail lies on a commit that goes. */
  ghost predicate Strays(db: Db, gone: set<CommitKey>) {
    exists slot :: slot in db.overlay.states && slot.trail in db.trails && slot.commit in gone
  }

  lemma StatesShrink(db: Db, gone: set<CommitKey>, id: string)
    ensures StatesOf(DropCommits(db, gone), id) <= StatesOf(db, id)
    ensures StatesOf(DropCommits(db, gone), id) == StatesOf(db, id)
       <==> forall slot :: slot in db.overlay.states && slot.trail == id ==> slot.commit !in gone
  {
    var after := StatesOf(DropCommits(db, gone), id);
    forall slot ensures slot in after <==> slot in db.overlay.states && slot.trail == id && slot.commit !in gone {
    }
    if slot :| slot in db.overlay.states && slot.trail == id && slot.commit in gone {
      assert slot in StatesOf(db, id) && slot !in after;
    }
  }

  /** Evicting commits takes entries from the remaining trails exactly when one of their state rows lies on them. */
  lemma TrailTotalDropsStrays(db: Db, gone: set<CommitKey>)
    ensures TrailTotal(DropCommits(db, gone)) == TrailTotal(db) <==> !Strays(db, gone)
  {
    hide StatesOf, DropCommits;
    var after := DropCommits(db, gone);
    assert after.trails == db.trails by { SameTrails(db, gone); }
    var sizes, left := TrailSizes(db), TrailSizes(after);
    forall id | id in db.trails ensures left[id] <= sizes[id] {
      StatesShrink(db, gone, id);
      Smaller(StatesOf(after, id), StatesOf(db, id));
    }
    if slot :| slot in db.overlay.states && slot.trail in db.trails && slot.commit in gone {
      StatesShrink(db, gone, slot.trail);
      Smaller(StatesOf(after, slot.trail), StatesOf(db, slot.trail));
      TotalLess(left, sizes, slot.trail);
    } else {
      forall id | id in db.trails ensures left[id] == sizes[id] {
        StatesShrink(db, gone, id);
      }
      assert left == sizes;
    }
  }

  lemma SameTrails(db: Db, gone: set<CommitKey>)
    ensures DropCommits(db, gone).trails == db.trails
  {
  }

  lemma Smaller(a: set<EntrySlot>, b: set<EntrySlot>)
    requires a <= b
    ensures |a| <= |b| && (a != b ==> |a| < |b|)
  {
    assert b == a + (b - a);
  }

  lemma WholeHasNoStrays(db: Db, gone: set<CommitKey>)
    requires Whole(db) && gone <= Loose(db)
    ensures !Strays(db, gone)
  {
    if slot :| slot in db.overlay.states && slot.trail in db.trails && slot.commit in gone {
      assert slot.commit in Loose(db);
      assert Referenced(db, slot.commit);
    }
  }

  lemma WholeStays(db: Db, ids: set<string>)
    requires Whole(db)
    ensures Whole(DropTrails(db, ids))
  {
  }

  /** Publishing a trail whose entries lie within its commits, and finalizing, keep that. */
  lemma StepKeepsWhole(db: Db, op: Op)
    requires Linked(db) && Whole(db) && Valid(db, op) && (op.PublishOp? ==> WithinCommits(op.publication))
    ensures Whole(Apply(db, op))
  {
    hide Linked, Publish, Prescribed;
    match op
    case PublishOp(p) =>
      if Publish(db, p).Some? {
        PublishShape(db, p);
        PublishKeepsWhole(db, Publish(db, p).value, p);
      }
    case FinalizeOp(req, trails, commits) =>
  }

  lemma PublishKeepsWhole(db: Db, after: Db, p: Publication)
    requires Whole(db) && UntouchedBut(db.overlay, after.overlay, p.id) && WithinCommits(p)
    requires CommitsPlaced(after, p, |p.commits|) && EntriesStored(after, p, p.entries)
    ensures Whole(after)
  {
  }

  /**
   * Over capacity is reported exactly when the entries of the remaining trails, or the entries outside all trails that
   * are left, exceed the cap. Evicting commits changes the former exactly when a state row strays onto them, which
   * tables whose state rows lie within their trails rule out.
   */
  lemma {:induction false} OverCapacityIsExact(db: Db, req: Request, trails: seq<Cohort>, commits: seq<Cohort>)
    requires Prescribed(db, req, trails, commits)
    ensures var rest, after := DropTrails(db, Ids(trails)), Evicted(db, trails, commits);
            && (Over(db, req, trails, commits) <==> TrailTotal(rest) > req.cap || LooseTotal(after) > req.cap)
            && (TrailTotal(after) == TrailTotal(rest) <==> !Strays(rest, Keys(commits)))
            && (Whole(db) ==> !Strays(rest, Keys(commits)))
  {
    hide IsPlan, TrailTotal, LooseTotal, Whole, Loose, EligibleTrails, EligibleCommits, Strays;
    var rest := DropTrails(db, Ids(trails));
    TrailTotalAfter(db, req, trails);
    LooseTotalAfter(rest, req, commits);
    TrailTotalDropsStrays(rest, Keys(commits));
    if Whole(db) {
      forall key | key in Keys(commits) ensures key in Loose(rest) {
        EvictedCommitsAreLoose(rest, req, commits, key);
      }
      WholeStays(db, Ids(trails));
      WholeHasNoStrays(rest, Keys(commits));
    }
  }
}
