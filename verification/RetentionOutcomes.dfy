/** What retention evicts, said on the rows: only what nothing protects, oldest first, and no more than the cap asks. */
module RetentionOutcomes {
  import opened Finalization
  import opened Orders
  import opened Retention
  import opened Totals
  import opened Trails
  import opened TrailReadback

  // ---------------------------------------------------------------- counting

  ghost function Grouped<K, V>(rows: set<V>, of: V -> K, key: K): set<V> {
    set row | row in rows && of(row) == key
  }

  ghost function GroupSizes<K, V>(rows: set<V>, of: V -> K, keys: set<K>): map<K, nat> {
    map key | key in keys :: |Grouped(rows, of, key)|
  }

  ghost function GroupedIn<K, V>(rows: set<V>, of: V -> K, keys: set<K>): set<V> {
    set row | row in rows && of(row) in keys
  }

  /** Counting by groups counts every row whose group is listed once. */
  lemma {:induction false} GroupedTotal<K, V>(rows: set<V>, of: V -> K, keys: set<K>)
    ensures Total(GroupSizes(rows, of, keys)) == |GroupedIn(rows, of, keys)|
    decreases keys
  {
    if keys == {} {
      assert GroupSizes(rows, of, keys) == map[] && GroupedIn(rows, of, keys) == {};
    } else {
      var key :| key in keys;
      var rest := keys - {key};
      GroupedTotal(rows, of, rest);
      TotalInsert(GroupSizes(rows, of, rest), key, |Grouped(rows, of, key)|);
      assert GroupSizes(rows, of, rest)[key := |Grouped(rows, of, key)|] == GroupSizes(rows, of, keys);
      assert GroupedIn(rows, of, keys) == GroupedIn(rows, of, rest) + Grouped(rows, of, key);
    }
  }

  /** The state rows of stored trails. */
  lemma TrailTotalCounts(db: Db)
    requires forall slot :: slot in db.overlay.states ==> slot.trail in db.trails
    ensures TrailTotal(db) == |db.overlay.states|
  {
    var rows, of := db.overlay.states.Keys, (slot: EntrySlot) => slot.trail;
    GroupedTotal(rows, of, db.trails.Keys);
    forall id ensures Grouped(rows, of, id) == StatesOf(db, id) {
    }
    assert GroupSizes(rows, of, db.trails.Keys) == TrailSizes(db);
    assert GroupedIn(rows, of, db.trails.Keys) == rows;
    assert |rows| == |db.overlay.states|;
  }

  /** The entries of commits that no trail has. */
  function LooseEntries(db: Db): set<EntryKey> {
    set key | key in db.shared.entries && forall slot :: slot in db.overlay.members ==> slot.commit != key.commit
  }

  lemma LooseTotalCounts(db: Db)
    requires forall key :: key in db.shared.entries ==> key.commit in db.shared.commits
    ensures LooseTotal(db) == |LooseEntries(db)|
  {
    var rows, of := db.shared.entries, (key: EntryKey) => key.commit;
    GroupedTotal(rows, of, Loose(db));
    forall commit ensures Grouped(rows, of, commit) == EntriesAt(db, commit) {
    }
    assert GroupSizes(rows, of, Loose(db)) == LooseSizes(db);
    forall key ensures key in GroupedIn(rows, of, Loose(db)) <==> key in LooseEntries(db) {
      if key in LooseEntries(db) {
        assert key in EntriesAt(db, key.commit);
      }
    }
    assert GroupedIn(rows, of, Loose(db)) == LooseEntries(db);
  }

  // ---------------------------------------------------------------- the order

  /** The earlier first, then the smaller repository, then the smaller name. */
  ghost predicate NoLater(time: int, repo: int, id: string, otherTime: int, otherRepo: int, otherId: string) {
    || time < otherTime
    || (time == otherTime && (repo < otherRepo || (repo == otherRepo && TextUpTo(id, otherId))))
  }

  lemma NotBefore(a: Cohort, b: Cohort)
    requires !Before(b, a)
    ensures NoLater(a.time, a.repo, a.id, b.time, b.repo, b.id)
  {
    LexTrichotomy(a.id, b.id);
    LexMeans(a.id, b.id);
  }

  /** An evicted row goes no later than an eligible one that stays. */
  lemma {:induction false} PlanInOrder(eligible: set<Cohort>, total: nat, cap: nat, plan: seq<Cohort>, gone: Cohort,
      kept: Cohort)
    requires IsPlan(eligible, total, cap, plan) && gone in plan && kept in eligible && kept !in plan
    ensures NoLater(gone.time, gone.repo, gone.id, kept.time, kept.repo, kept.id)
  {
    hide Before, NoLater;
    NotBefore(gone, kept);
  }

  /** Without its last row a plan would leave more than the cap; while more is left every eligible row goes. */
  lemma {:induction false} PlanIsNeeded(eligible: set<Cohort>, total: nat, cap: nat, plan: seq<Cohort>, left: nat)
    requires IsPlan(eligible, total, cap, plan) && total == left + Entries(plan)
    ensures plan != [] ==> left + plan[|plan| - 1].entries > cap
    ensures left > cap ==> forall row :: row in eligible ==> row in plan
  {
    if plan != [] {
      assert plan[..|plan| - 1] == plan[..|plan| - 1];
      assert Left(total, Entries(plan[..|plan| - 1])) > cap;
    }
  }

  // ---------------------------------------------------------------- trails

  /** No alias names the trail, it is not the active one, and it is older than the protection window. */
  ghost predicate TrailMayGo(db: Db, req: Request, id: string) {
    && id in db.trails && id != req.active
    && (forall alias :: alias in db.aliases ==> db.aliases[alias] != id)
    && (req.protection == 0 || db.trails[id].time + req.protection <= req.now)
  }

  lemma TrailMayGoMeans(db: Db, req: Request)
    ensures forall id :: TrailMayGo(db, req, id) <==> id in db.trails && TrailCohort(db, id) in EligibleTrails(db, req)
  {
    forall id ensures TrailMayGo(db, req, id) <==> id in db.trails && TrailCohort(db, id) in EligibleTrails(db, req) {
      if id in db.trails && TrailCohort(db, id) in EligibleTrails(db, req) {
        var other :| other in db.trails && Expendable(db, other, req) && TrailCohort(db, other) == TrailCohort(db, id);
        assert other == id;
      }
    }
  }

  lemma PlannedTrails(db: Db, req: Request, plan: seq<Cohort>)
    requires IsPlan(EligibleTrails(db, req), TrailTotal(db), req.cap, plan)
    ensures forall id :: id in Ids(plan) <==> id in db.trails && TrailCohort(db, id) in plan
  {
    hide IsPlan, EligibleTrails, TrailTotal, StatesOf;
    forall row | row in plan ensures row.id in db.trails && row == TrailCohort(db, row.id) {
      PlannedTrail(db, req, plan, row);
    }
  }

  /** The state rows that are left when the trails that go are gone. */
  function StatesLeft(db: Db, after: Db): set<EntrySlot> {
    set slot | slot in db.overlay.states && slot.trail in after.trails
  }

  /**
   * Which trails finalizing evicts. Each may go, and goes no later than any that may go and stays: the earlier one,
   * then that of the smaller repository, then that with the smaller id. Had one of them stayed the state rows would
   * still exceed the cap, and while the rows that are left exceed it no trail that may go stays.
   */
  lemma {:induction false} TrailsGoOldestFirst(db: Db, req: Request, trails: seq<Cohort>, commits: seq<Cohort>)
    requires Linked(db) && Prescribed(db, req, trails, commits)
    ensures var after := Evicted(db, trails, commits);
            && (forall id :: id in db.trails && id !in after.trails ==> TrailMayGo(db, req, id))
            && (forall id, kept :: id in db.trails && id !in after.trails && TrailMayGo(db, req, kept) ==>
                  kept in after.trails ==>
                    NoLater(db.trails[id].time, db.trails[id].repo, id,
                            db.trails[kept].time, db.trails[kept].repo, kept))
            && (after.trails != db.trails ==>
                  exists last :: last in db.trails && last !in after.trails
                    && |StatesLeft(db, after)| + |StatesOf(db, last)| > req.cap)
            && (|StatesLeft(db, after)| > req.cap ==> forall id :: TrailMayGo(db, req, id) ==> id !in after.trails)
  {
    hide IsPlan, EligibleTrails, TrailTotal, StatesOf, NoLater, TrailMayGo, Linked, DropTrails, DropCommits;
    var after, rest := Evicted(db, trails, commits), DropTrails(db, Ids(trails));
    EvictedTrailTable(db, trails, commits);
    TrailMayGoMeans(db, req);
    PlannedTrails(db, req, trails);
    StatesLeftCount(db, req, trails, commits);
    forall row | row in trails ensures row in EligibleTrails(db, req) {
      PlannedAreEligible(EligibleTrails(db, req), TrailTotal(db), req.cap, trails, row);
    }
    PlanIsNeeded(EligibleTrails(db, req), TrailTotal(db), req.cap, trails, |StatesLeft(db, after)|);
    forall id, kept | id in db.trails && id !in after.trails && TrailMayGo(db, req, kept) && kept in after.trails
      ensures NoLater(db.trails[id].time, db.trails[id].repo, id, db.trails[kept].time, db.trails[kept].repo, kept)
    {
      PlanInOrder(EligibleTrails(db, req), TrailTotal(db), req.cap, trails, TrailCohort(db, id), TrailCohort(db, kept));
    }
    if after.trails != db.trails {
      var last := trails[|trails| - 1];
      PlannedTrail(db, req, trails, last);
    }
  }

  lemma PlannedAreEligible(eligible: set<Cohort>, total: nat, cap: nat, plan: seq<Cohort>, row: Cohort)
    requires IsPlan(eligible, total, cap, plan) && row in plan
    ensures row in eligible
  {
  }

  lemma EvictedTrailTable(db: Db, trails: seq<Cohort>, commits: seq<Cohort>)
    ensures Evicted(db, trails, commits).trails == db.trails - Ids(trails)
    ensures Ids(trails) !! db.trails.Keys ==> Evicted(db, trails, commits).trails == db.trails
  {
  }

  lemma {:induction false} StatesLeftCount(db: Db, req: Request, trails: seq<Cohort>, commits: seq<Cohort>)
    requires Linked(db) && Prescribed(db, req, trails, commits)
    ensures TrailTotal(db) == |StatesLeft(db, Evicted(db, trails, commits))| + Entries(trails)
  {
    hide IsPlan, EligibleTrails, TrailTotal, Linked;
    var rest := DropTrails(db, Ids(trails));
    TrailTotalAfter(db, req, trails);
    DropTrailsLinked(db, Ids(trails));
    LinkedRows(rest);
    TrailTotalCounts(rest);
    StatesStay(db, trails, commits);
  }

  lemma LinkedRows(db: Db)
    requires Linked(db)
    ensures forall slot :: slot in db.overlay.states ==> slot.trail in db.trails
    ensures forall key :: key in db.shared.entries ==> key.commit in db.shared.commits
  {
  }

  lemma StatesStay(db: Db, trails: seq<Cohort>, commits: seq<Cohort>)
    requires Linked(db)
    ensures StatesLeft(db, Evicted(db, trails, commits)) == DropTrails(db, Ids(trails)).overlay.states.Keys
  {
  }

  // ---------------------------------------------------------------- commits outside all trails

  /** The commit is stored with some entry, no trail has it, and it is older than the protection window. */
  ghost predicate CommitMayGo(db: Db, after: Db, req: Request, commit: CommitKey) {
    && commit in db.shared.commits
    && (exists key :: key in db.shared.entries && key.commit == commit)
    && (forall slot :: slot in after.overlay.members ==> slot.commit != commit)
    && (req.protection == 0 || db.shared.commits[commit] + req.protection <= req.now)
  }

  lemma CommitMayGoMeans(db: Db, req: Request)
    ensures forall commit :: CommitMayGo(db, db, req, commit) <==>
      commit in Loose(db) && CommitCohort(db, commit) in EligibleCommits(db, req)
  {
    forall commit
      ensures CommitMayGo(db, db, req, commit) <==>
        commit in Loose(db) && CommitCohort(db, commit) in EligibleCommits(db, req)
    {
      if key :| key in db.shared.entries && key.commit == commit {
        assert key in EntriesAt(db, commit);
      }
      if commit in Loose(db) {
        var key :| key in EntriesAt(db, commit);
      }
    }
  }

  lemma PlannedCommits(db: Db, req: Request, plan: seq<Cohort>)
    requires IsPlan(EligibleCommits(db, req), LooseTotal(db), req.cap, plan)
    ensures forall commit :: commit in Keys(plan) <==> commit in Loose(db) && CommitCohort(db, commit) in plan
  {
    hide IsPlan, EligibleCommits, LooseTotal, Loose, EntriesAt;
    forall row | row in plan
      ensures var key := CommitKey(row.repo, row.id); key in Loose(db) && row == CommitCohort(db, key)
    {
      PlannedCommit(db, req, plan, row);
    }
  }

  lemma {:induction false} LooseLeftCount(db: Db, req: Request, plan: seq<Cohort>)
    requires Linked(db) && IsPlan(EligibleCommits(db, req), LooseTotal(db), req.cap, plan)
    ensures LooseTotal(db) == |LooseEntries(DropCommits(db, Keys(plan)))| + Entries(plan)
  {
    hide IsPlan, EligibleCommits, LooseTotal, Linked, DropCommits;
    var after := DropCommits(db, Keys(plan));
    LooseTotalAfter(db, req, plan);
    DropCommitsLinked(db, Keys(plan));
    LinkedRows(after);
    LooseTotalCounts(after);
  }

  /** Which commits outside all trails go, for tables whose trails are already those that stay. */
  lemma {:induction false} LooseGoOldestFirst(db: Db, req: Request, plan: seq<Cohort>)
    requires Linked(db) && IsPlan(EligibleCommits(db, req), LooseTotal(db), req.cap, plan)
    ensures var after := DropCommits(db, Keys(plan));
            && (forall commit :: commit in db.shared.commits && commit !in after.shared.commits ==>
                  CommitMayGo(db, db, req, commit))
            && (forall commit, kept ::
                  commit in db.shared.commits && commit !in after.shared.commits && CommitMayGo(db, db, req, kept) ==>
                    kept in after.shared.commits ==>
                      NoLater(db.shared.commits[commit], commit.repo, commit.oid,
                              db.shared.commits[kept], kept.repo, kept.oid))
            && (after.shared.commits != db.shared.commits ==>
                  exists last :: last in db.shared.commits && last !in after.shared.commits
                    && |LooseEntries(after)| + |EntriesAt(db, last)| > req.cap)
            && (|LooseEntries(after)| > req.cap ==>
                  forall commit :: CommitMayGo(db, db, req, commit) ==> commit !in after.shared.commits)
  {
    hide IsPlan, EligibleCommits, LooseTotal, EntriesAt, Loose, NoLater, CommitMayGo, Linked, DropCommits;
    var after := DropCommits(db, Keys(plan));
    DroppedCommitTable(db, Keys(plan));
    CommitMayGoMeans(db, req);
    PlannedCommits(db, req, plan);
    LooseLeftCount(db, req, plan);
    forall row | row in plan ensures row in EligibleCommits(db, req) {
      PlannedAreEligible(EligibleCommits(db, req), LooseTotal(db), req.cap, plan, row);
    }
    PlanIsNeeded(EligibleCommits(db, req), LooseTotal(db), req.cap, plan, |LooseEntries(after)|);
    forall commit, kept | commit in Keys(plan) && CommitMayGo(db, db, req, kept) && kept !in Keys(plan)
      ensures NoLater(db.shared.commits[commit], commit.repo, commit.oid, db.shared.commits[kept], kept.repo, kept.oid)
    {
      PlanInOrder(EligibleCommits(db, req), LooseTotal(db), req.cap, plan, CommitCohort(db, commit),
                  CommitCohort(db, kept));
    }
    if after.shared.commits != db.shared.commits {
      var last := plan[|plan| - 1];
      PlannedCommit(db, req, plan, last);
    }
  }

  lemma DroppedCommitTable(db: Db, gone: set<CommitKey>)
    ensures DropCommits(db, gone).shared.commits == db.shared.commits - gone
    ensures gone !! db.shared.commits.Keys ==> DropCommits(db, gone).shared.commits == db.shared.commits
  {
  }

  /**
   * Which commits finalizing evicts. Each may go once the trails that go are gone, and goes no later than any that may
   * go and stays. Had one of them stayed the entries outside all trails would still exceed the cap, and while those
   * that are left exceed it no commit that may go stays.
   */
  lemma {:induction false} CommitsGoOldestFirst(db: Db, req: Request, trails: seq<Cohort>, commits: seq<Cohort>)
    requires Linked(db) && Prescribed(db, req, trails, commits)
    ensures var after := Evicted(db, trails, commits);
            && (forall commit :: commit in db.shared.commits && commit !in after.shared.commits ==>
                  CommitMayGo(db, after, req, commit))
            && (forall commit, kept ::
                  commit in db.shared.commits && commit !in after.shared.commits
                    && CommitMayGo(db, after, req, kept) ==>
                    kept in after.shared.commits ==>
                      NoLater(db.shared.commits[commit], commit.repo, commit.oid,
                              db.shared.commits[kept], kept.repo, kept.oid))
            && (after.shared.commits != db.shared.commits ==>
                  exists last :: last in db.shared.commits && last !in after.shared.commits
                    && |LooseEntries(after)| + |EntriesAt(db, last)| > req.cap)
            && (|LooseEntries(after)| > req.cap ==>
                  forall commit :: CommitMayGo(db, after, req, commit) ==> commit !in after.shared.commits)
  {
    hide IsPlan, EligibleTrails, EligibleCommits, TrailTotal, LooseTotal, NoLater, Linked, CommitMayGo, LooseEntries;
    var rest := DropTrails(db, Ids(trails));
    DropTrailsLinked(db, Ids(trails));
    LooseGoOldestFirst(rest, req, commits);
    SameMembers(rest, req, commits);
    SameCommitsMayGo(db, req, trails, commits);
    assert forall commit :: EntriesAt(rest, commit) == EntriesAt(db, commit);
  }

  /** Evicting the commits that no trail has leaves every membership row. */
  lemma SameMembers(db: Db, req: Request, plan: seq<Cohort>)
    requires IsPlan(EligibleCommits(db, req), LooseTotal(db), req.cap, plan)
    ensures DropCommits(db, Keys(plan)).overlay.members == db.overlay.members
  {
    hide IsPlan, EligibleCommits, LooseTotal, EntriesAt;
    forall slot | slot in db.overlay.members ensures slot.commit !in Keys(plan) {
      assert Referenced(db, slot.commit);
      if slot.commit in Keys(plan) {
        EvictedCommitsAreLoose(db, req, plan, slot.commit);
      }
    }
  }

  lemma SameCommitsMayGo(db: Db, req: Request, trails: seq<Cohort>, commits: seq<Cohort>)
    requires var rest := DropTrails(db, Ids(trails));
      DropCommits(rest, Keys(commits)).overlay.members == rest.overlay.members
    ensures var rest, after := DropTrails(db, Ids(trails)), Evicted(db, trails, commits);
            && rest.shared == db.shared
            && forall commit :: CommitMayGo(rest, rest, req, commit) <==> CommitMayGo(db, after, req, commit)
  {
  }
}
