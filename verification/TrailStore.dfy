/** The store of trails that changes its tables in place, proved against the functions on table values. */
module TrailStores {
  import opened Finalization
  import opened Results
  import opened Retention
  import opened TrailReadback
  import opened Trails

  datatype TrailRow = TrailRow(cohort: Cohort, referenced: bool, guarded: bool)

  /** The trails that are neither referenced nor protected, in the order of the rows. */
  function Unguarded(rows: seq<TrailRow>): seq<Cohort> {
    if rows == [] then []
    else
      var last := rows[|rows| - 1];
      Unguarded(rows[..|rows| - 1]) + if last.referenced || last.guarded then [] else [last.cohort]
  }

  function CohortsOf(rows: seq<TrailRow>): seq<Cohort> {
    seq(|rows|, i requires 0 <= i < |rows| => rows[i].cohort)
  }

  function Aged(rows: seq<Cohort>, now: int, protection: nat): seq<Cohort> {
    if rows == [] then []
    else
      var last := rows[|rows| - 1];
      Aged(rows[..|rows| - 1], now, protection)
      + if protection == 0 || last.time <= now - protection then [last] else []
  }

  /** The rows list every trail once, with its flags. */
  ghost predicate ListsTrails(rows: seq<TrailRow>, db: Db, req: Request) {
    && (forall i, j :: 0 <= i < j < |rows| ==> rows[i].cohort.id != rows[j].cohort.id)
    && (forall row :: row in rows ==>
          && row.cohort.id in db.trails
          && row.cohort == TrailCohort(db, row.cohort.id)
          && (row.referenced <==> Aliased(db, row.cohort.id))
          && (row.guarded <==> RecentTrail(db, row.cohort.id, req)))
    && (forall id :: id in db.trails ==> exists row :: row in rows && row.cohort.id == id)
  }

  ghost predicate ListsLoose(rows: seq<Cohort>, db: Db) {
    && DistinctIds(rows)
    && (forall row :: row in rows ==>
          && CommitKey(row.repo, row.id) in Loose(db)
          && row == CommitCohort(db, CommitKey(row.repo, row.id)))
    && (forall commit :: commit in Loose(db) ==> CommitCohort(db, commit) in rows)
  }

  function Visible(rows: set<Row>, includeInvalid: bool): set<Row> {
    set row | row in rows && (includeInvalid || row.entry.body.valid)
  }

  ghost predicate Comparable(rows: set<Row>) {
    forall a, b :: a in rows && b in rows && a != b ==> RowBefore(a, b) || RowBefore(b, a)
  }

  lemma {:induction false} LeastRow(rows: set<Row>) returns (least: Row)
    requires Comparable(rows) && rows != {}
    ensures least in rows && forall row :: row in rows && row != least ==> RowBefore(least, row)
    decreases rows
  {
    var any :| any in rows;
    if rows == {any} {
      least := any;
    } else {
      var rest := LeastRow(rows - {any});
      least := if RowBefore(any, rest) then any else rest;
      forall row | row in rows && row != least ensures RowBefore(least, row) {
        if row != any {
          assert row in rows - {any};
        }
      }
    }
  }

  /** Position and annotation index tell the rows of a trail apart. */
  lemma RowsAreComparable(db: Db, trail: string)
    requires Linked(db)
    ensures Comparable(RowsOf(db, trail))
  {
  }

  // ---------------------------------------------------------------- selections

  lemma {:induction false} UnguardedRows(rows: seq<TrailRow>)
    ensures forall c :: c in Unguarded(rows) <==>
      exists row :: row in rows && !row.referenced && !row.guarded && row.cohort == c
  {
    if rows != [] {
      var rest, last := rows[..|rows| - 1], rows[|rows| - 1];
      UnguardedRows(rest);
      assert rows == rest + [last];
      forall c | c in Unguarded(rows)
        ensures exists row :: row in rows && !row.referenced && !row.guarded && row.cohort == c
      {
        if c in Unguarded(rest) {
          var row :| row in rest && !row.referenced && !row.guarded && row.cohort == c;
          assert row in rows;
        } else {
          assert last in rows;
        }
      }
      forall row | row in rows && !row.referenced && !row.guarded ensures row.cohort in Unguarded(rows) {
        if row in rest {
          assert row.cohort in Unguarded(rest);
        }
      }
    }
  }

  lemma {:induction false} UnguardedDiffer(rows: seq<TrailRow>)
    requires forall i, j :: 0 <= i < j < |rows| ==> rows[i].cohort.id != rows[j].cohort.id
    ensures DistinctIds(Unguarded(rows))
  {
    if rows != [] {
      var rest, last := rows[..|rows| - 1], rows[|rows| - 1];
      UnguardedRows(rest);
      UnguardedDiffer(rest);
      forall i | 0 <= i < |Unguarded(rest)| ensures Unguarded(rest)[i].id != last.cohort.id {
        assert Unguarded(rest)[i] in Unguarded(rest);
        var row :| row in rest && row.cohort == Unguarded(rest)[i];
        var j :| 0 <= j < |rest| && rest[j] == row;
        assert rows[j].cohort.id != rows[|rest|].cohort.id;
      }
    }
  }

  lemma {:induction false} AgedRows(rows: seq<Cohort>, now: int, protection: nat)
    ensures forall c :: c in Aged(rows, now, protection) <==>
      c in rows && (protection == 0 || c.time <= now - protection)
    ensures DistinctIds(rows) ==> DistinctIds(Aged(rows, now, protection))
  {
    if rows != [] {
      var rest, last := rows[..|rows| - 1], rows[|rows| - 1];
      AgedRows(rest, now, protection);
      assert rows == rest + [last];
    }
  }

  /** `select_trail_evictions`: the order in which trails may go. */
  function SelectTrailEvictions(rows: seq<TrailRow>): seq<Cohort> {
    Sort(Unguarded(rows))
  }

  datatype Plan = Plan(targets: seq<Cohort>, over: bool)

  /** `select_evictions`, its plan tied to the declarative one. */
  method SelectEvictions(rows: seq<Cohort>, now: int, protection: nat, cap: nat) returns (plan: Plan)
    requires DistinctIds(rows)
    ensures IsPlan(RowSet(Aged(rows, now, protection)), Entries(rows), cap, plan.targets)
    ensures plan.over <==> Left(Entries(rows), Entries(plan.targets)) > cap
  {
    hide Aged, Entries, Sort, IsPlan, DistinctIds;
    var total := SumEntries(rows);
    AgedRows(rows, now, protection);
    var eligible := Sort(Aged(rows, now, protection));
    var left, i := total, 0;
    NoEntries(eligible);
    while i < |eligible|
      invariant i <= |eligible|
      invariant left == Left(total, Entries(eligible[..i]))
      invariant forall n :: 0 <= n < i ==> Left(total, Entries(eligible[..n])) > cap
    {
      if left <= cap {
        break;
      }
      OneMore(eligible, i);
      left := Left(left, eligible[i].entries);
      i := i + 1;
    }
    SortedPrefixIsPlan(Aged(rows, now, protection), total, cap, i);
    plan := Plan(eligible[..i], left > cap);
  }

  lemma {:induction false} NoEntries(rows: seq<Cohort>)
    ensures Entries(rows[..0]) == 0
  {
  }

  lemma {:induction false} OneMore(rows: seq<Cohort>, i: nat)
    requires i < |rows|
    ensures Entries(rows[..i + 1]) == Entries(rows[..i]) + rows[i].entries
  {
    assert rows[..i + 1][..i] == rows[..i];
  }

  method SumEntries(rows: seq<Cohort>) returns (total: nat)
    ensures total == Entries(rows)
  {
    total := 0;
    for i := 0 to |rows|
      invariant total == Entries(rows[..i])
    {
      assert rows[..i + 1][..i] == rows[..i];
      total := total + rows[i].entries;
    }
    assert rows[..|rows|] == rows;
  }

  // ---------------------------------------------------------------- the rows describe the tables

  lemma {:induction false} UnguardedAreExpendable(rows: seq<TrailRow>, db: Db, req: Request, c: Cohort)
    requires ListsTrails(rows, db, req)
    ensures c in Unguarded(rows) && c.id != req.active <==> c in EligibleTrails(db, req)
  {
    hide Unguarded;
    UnguardedRows(rows);
    if c in Unguarded(rows) && c.id != req.active {
      var row :| row in rows && !row.referenced && !row.guarded && row.cohort == c;
      assert c == TrailCohort(db, c.id) && Expendable(db, c.id, req);
    }
    if c in EligibleTrails(db, req) {
      var id :| id in db.trails && Expendable(db, id, req) && TrailCohort(db, id) == c;
      var row :| row in rows && row.cohort.id == id;
    }
  }

  lemma {:induction false} RowsTotal(rows: seq<TrailRow>, db: Db, req: Request)
    requires ListsTrails(rows, db, req)
    ensures Entries(CohortsOf(rows)) == TrailTotal(db)
  {
    hide Entries, StatesOf, ListsTrails, CohortsOf;
    ListedCohorts(rows, db, req);
    TrailPlanTotal(TrailSizes(db), CohortsOf(rows));
    assert Sizes(TrailSizes(db), Ids(CohortsOf(rows))) == TrailSizes(db);
  }

  lemma {:induction false} ListedCohorts(rows: seq<TrailRow>, db: Db, req: Request)
    requires ListsTrails(rows, db, req)
    ensures var cohorts := CohortsOf(rows);
            && (forall c :: c in cohorts ==> c.id in db.trails && c == TrailCohort(db, c.id))
            && (forall i, j :: 0 <= i < j < |cohorts| ==> cohorts[i].id != cohorts[j].id)
            && (forall id :: id in db.trails ==> id in Ids(cohorts))
  {
    hide StatesOf, Aliased, RecentTrail;
    var cohorts := CohortsOf(rows);
    forall c | c in cohorts ensures c.id in db.trails && c == TrailCohort(db, c.id) {
      var i :| 0 <= i < |cohorts| && cohorts[i] == c;
      assert rows[i] in rows;
    }
    forall id | id in db.trails ensures id in Ids(cohorts) {
      var row :| row in rows && row.cohort.id == id;
      var i :| 0 <= i < |rows| && rows[i] == row;
      assert cohorts[i] in cohorts;
    }
  }

  lemma {:induction false} LooseRowsTotal(rows: seq<Cohort>, db: Db)
    requires ListsLoose(rows, db)
    ensures Entries(rows) == LooseTotal(db)
  {
    hide Entries, Loose, EntriesAt;
    forall row | row in rows
      ensures CommitKey(row.repo, row.id) in LooseSizes(db)
      ensures LooseSizes(db)[CommitKey(row.repo, row.id)] == row.entries
    {
      LooseSize(db, CommitKey(row.repo, row.id));
    }
    CommitPlanTotal(LooseSizes(db), rows);
    assert Sizes(LooseSizes(db), Keys(rows)) == LooseSizes(db) by {
      forall commit | commit in Loose(db) ensures commit in Keys(rows) {
        assert CommitCohort(db, commit) in rows;
      }
    }
  }

  lemma {:induction false} AgedAreEligible(rows: seq<Cohort>, db: Db, req: Request)
    requires ListsLoose(rows, db)
    ensures RowSet(Aged(rows, req.now, req.protection)) == EligibleCommits(db, req)
  {
    hide Aged, Loose;
    AgedRows(rows, req.now, req.protection);
    forall c | c in EligibleCommits(db, req) ensures c in RowSet(Aged(rows, req.now, req.protection)) {
      var commit :| commit in Loose(db) && CommitCohort(db, commit) == c
        && (req.protection == 0 || db.shared.commits[commit] <= req.now - req.protection);
    }
    forall c | c in RowSet(Aged(rows, req.now, req.protection)) ensures c in EligibleCommits(db, req) {
      assert c in rows;
    }
  }

  /** Leaving the active trail out of the sorted rows is the same as sorting the others. */
  function Others(sorted: seq<Cohort>, active: string): seq<Cohort> {
    if sorted == [] then []
    else
      var last := sorted[|sorted| - 1];
      Others(sorted[..|sorted| - 1], active) + if last.id == active then [] else [last]
  }

  lemma {:induction false} OthersKeepOrder(sorted: seq<Cohort>, active: string)
    requires Ascending(sorted)
    ensures Ascending(Others(sorted, active))
    ensures forall c :: c in Others(sorted, active) <==> c in sorted && c.id != active
  {
    if sorted != [] {
      var rest, last := sorted[..|sorted| - 1], sorted[|sorted| - 1];
      OthersKeepOrder(rest, active);
      assert sorted == rest + [last];
      forall c | c in Others(rest, active) ensures Before(c, last) {
        var i :| 0 <= i < |rest| && rest[i] == c;
        assert c == sorted[i];
      }
    }
  }

  /** The loop over the sorted trails, which skips the active one, computes the plan. */
  lemma {:induction false} SkippingIsPlan(rows: seq<TrailRow>, db: Db, req: Request, k: nat, plan: seq<Cohort>)
    requires ListsTrails(rows, db, req) && k <= |SelectTrailEvictions(rows)|
    requires plan == Others(SelectTrailEvictions(rows)[..k], req.active)
    requires forall n :: 0 <= n < |plan| ==> Left(TrailTotal(db), Entries(plan[..n])) > req.cap
    requires Left(TrailTotal(db), Entries(plan)) <= req.cap || k == |SelectTrailEvictions(rows)|
    ensures IsPlan(EligibleTrails(db, req), TrailTotal(db), req.cap, plan)
  {
    hide Unguarded, Sort, Others, Entries, TrailTotal, EligibleTrails, Before, ListsTrails;
    var sorted := SelectTrailEvictions(rows);
    UnguardedSorted(rows, db, req);
    assert Ascending(sorted[..k]);
    OthersKeepOrder(sorted[..k], req.active);
    forall c ensures c in EligibleTrails(db, req) <==> c in sorted && c.id != req.active {
      UnguardedAreExpendable(rows, db, req, c);
    }
    forall row, other | row in EligibleTrails(db, req) && other in plan && Before(row, other) ensures row in plan {
      var i :| 0 <= i < |sorted| && sorted[i] == row;
      var j :| 0 <= j < k && sorted[j] == other;
      BeforeTotal(row, other);
      assert i < k && row == sorted[..k][i];
    }
    if k == |sorted| {
      assert sorted[..k] == sorted;
    }
  }

  lemma {:induction false} UnguardedSorted(rows: seq<TrailRow>, db: Db, req: Request)
    requires ListsTrails(rows, db, req)
    ensures Ascending(SelectTrailEvictions(rows))
    ensures forall c :: c in SelectTrailEvictions(rows) <==> c in Unguarded(rows)
  {
    hide Unguarded, Sort;
    UnguardedDiffer(rows);
    SortAscends(Unguarded(rows));
  }

  // ---------------------------------------------------------------- the store

  class TrailStore {
    var trails: map<string, Trail>
    var overlay: Overlay
    var shared: Shared
    var aliases: map<AliasKey, string>

    function State(): Db
      reads this
    {
      Db(trails, overlay, shared, aliases)
    }

    constructor ()
      ensures State() == Db(map[], Overlay(map[], map[], map[]), Shared(map[], {}, map[]), map[])
      ensures Linked(State()) && Whole(State())
    {
      trails, aliases := map[], map[];
      overlay, shared := Overlay(map[], map[], map[]), Shared(map[], {}, map[]);
    }

    method Commit(db: Db)
      modifies this
      ensures State() == db
    {
      trails, overlay, shared, aliases := db.trails, db.overlay, db.shared, db.aliases;
    }

    /** `publish_trail`: the transaction works on a copy, which is dropped when a key is broken. */
    method PublishTrail(p: Publication) returns (ok: bool)
      modifies this
      ensures ok <==> Publish(old(State()), p).Some?
      ensures State() == if ok then Publish(old(State()), p).value else old(State())
      ensures State() == Apply(old(State()), PublishOp(p))
    {
      hide AddCommit, AddEntry;
      if IdTaken(State(), p) {
        return false;
      }
      ghost var start := State().(trails := trails[p.id := p.trail]);
      var db := State().(trails := trails[p.id := p.trail]);
      for i := 0 to |p.commits|
        invariant AddCommits(start, p, i) == Some(db)
        invariant State() == old(State())
      {
        match AddCommit(db, p, i)
        case None =>
          CommitsStayBroken(start, p, i + 1, |p.commits|);
          return false;
        case Some(next) =>
          db := next;
      }
      ghost var middle := db;
      for i := 0 to |p.entries|
        invariant AddEntries(middle, p, i) == Some(db)
        invariant State() == old(State())
      {
        match AddEntry(db, p, p.entries[i])
        case None =>
          EntriesStayBroken(middle, p, i + 1, |p.entries|);
          return false;
        case Some(next) =>
          db := next;
      }
      Commit(db);
      return true;
    }

    /** `query_trail_entries`: the visible rows, ordered by membership position and annotation index. */
    method QueryTrailEntries(trail: string, includeInvalid: bool) returns (list: seq<Row>)
      requires Linked(State())
      ensures Lists(list, Visible(RowsOf(State(), trail), includeInvalid))
      ensures forall row :: row in list <==>
        row in RowsOf(State(), trail) && (row.entry.body.valid || includeInvalid)
      ensures forall i, j :: 0 <= i < j < |list| ==>
        || list[i].position < list[j].position
        || (list[i].position == list[j].position && list[i].entry.index < list[j].entry.index)
    {
      hide Linked, RowsOf;
      RowsAreComparable(State(), trail);
      var left := Visible(RowsOf(State(), trail), includeInvalid);
      ghost var all := left;
      list := [];
      while left != {}
        invariant left <= all
        invariant forall row :: row in all <==> row in list || row in left
        invariant forall i, j :: 0 <= i < j < |list| ==> RowBefore(list[i], list[j])
        invariant forall i, row :: 0 <= i < |list| && row in left ==> RowBefore(list[i], row)
        decreases left
      {
        ghost var lowest := LeastRow(left);
        var least :| least in left && forall row :: row in left && row != least ==> RowBefore(least, row);
        list := list + [least];
        left := left - {least};
      }
    }

    /** `trail_cohorts`: one row per trail, in no particular order. */
    method TrailCohorts(req: Request) returns (rows: seq<TrailRow>)
      ensures ListsTrails(rows, State(), req)
    {
      hide StatesOf, Aliased, RecentTrail;
      rows := [];
      var left := trails.Keys;
      while left != {}
        invariant left <= trails.Keys
        invariant forall i, j :: 0 <= i < j < |rows| ==> rows[i].cohort.id != rows[j].cohort.id
        invariant forall row :: row in rows ==>
          && row.cohort.id in trails
          && row.cohort.id !in left
          && row.cohort == TrailCohort(State(), row.cohort.id)
          && (row.referenced <==> Aliased(State(), row.cohort.id))
          && (row.guarded <==> RecentTrail(State(), row.cohort.id, req))
        invariant forall id :: id in trails && id !in left ==> exists row :: row in rows && row.cohort.id == id
        decreases left
      {
        var id :| id in left;
        var row := TrailRow(TrailCohort(State(), id), Aliased(State(), id), RecentTrail(State(), id, req));
        ghost var before := rows;
        rows := rows + [row];
        left := left - {id};
        forall other | other in trails && other !in left ensures exists r :: r in rows && r.cohort.id == other {
          if other == id {
            assert row in rows;
          } else {
            var r :| r in before && r.cohort.id == other;
            assert r in rows;
          }
        }
      }
    }

    /** `cohorts`: the commits outside all trails that have entries. */
    method LooseCohorts() returns (rows: seq<Cohort>)
      ensures ListsLoose(rows, State())
    {
      hide Loose, EntriesAt;
      rows := [];
      var left := Loose(State());
      while left != {}
        invariant left <= Loose(State())
        invariant DistinctIds(rows)
        invariant forall row :: row in rows ==>
          && CommitKey(row.repo, row.id) in Loose(State()) - left
          && row == CommitCohort(State(), CommitKey(row.repo, row.id))
        invariant forall commit :: commit in Loose(State()) && commit !in left ==> CommitCohort(State(), commit) in rows
        decreases left
      {
        var commit :| commit in left;
        rows := rows + [CommitCohort(State(), commit)];
        left := left - {commit};
      }
    }

    /** `finalize_store`: nothing happens when the alias cannot be set; otherwise whether the store is over capacity. */
    method FinalizeStore(req: Request) returns (over: Option<bool>, ghost gone: seq<Cohort>, ghost loose: seq<Cohort>)
      modifies this
      ensures over.None? <==> SetAlias(old(State()), req).None?
      ensures over.None? ==> State() == old(State())
      ensures over.Some? ==>
        var named := SetAlias(old(State()), req).value;
        && Prescribed(named, req, gone, loose)
        && State() == Evicted(named, gone, loose)
        && (over.value <==> Over(named, req, gone, loose))
      ensures Valid(old(State()), FinalizeOp(req, gone, loose))
      ensures State() == Apply(old(State()), FinalizeOp(req, gone, loose))
    {
      hide IsPlan, EligibleTrails, EligibleCommits, TrailTotal, LooseTotal, ListsTrails, ListsLoose, Entries,
        DropTrails, DropCommits;
      gone, loose := [], [];
      match SetAlias(State(), req)
      case None =>
        return None, [], [];
      case Some(named) =>
        aliases := named.aliases;
      ghost var named := State();
      var rows := TrailCohorts(req);
      var plan, left := EvictTrails(rows, req);
      gone := plan;
      var db := DropTrails(State(), Ids(plan));
      Commit(db);
      var cohorts := LooseCohorts();
      AgedAreEligible(cohorts, State(), req);
      LooseRowsTotal(cohorts, State());
      LooseAreDistinct(cohorts, State());
      var commits := SelectEvictions(cohorts, req.now, req.protection, req.cap);
      loose := commits.targets;
      over := Some(left > req.cap || commits.over);
      db := DropCommits(State(), Keys(commits.targets));
      Commit(db);
    }

    method EvictTrails(rows: seq<TrailRow>, req: Request) returns (plan: seq<Cohort>, left: nat)
      requires ListsTrails(rows, State(), req)
      ensures IsPlan(EligibleTrails(State(), req), TrailTotal(State()), req.cap, plan)
      ensures left == Left(TrailTotal(State()), Entries(plan))
    {
      hide IsPlan, EligibleTrails, TrailTotal, ListsTrails, Entries, Unguarded, Sort;
      RowsTotal(rows, State(), req);
      var total := SumEntries(CohortsOf(rows));
      var sorted := SelectTrailEvictions(rows);
      plan, left := [], total;
      NoEntries(plan);
      var i := 0;
      while i < |sorted|
        invariant i <= |sorted|
        invariant plan == Others(sorted[..i], req.active)
        invariant left == Left(total, Entries(plan))
        invariant forall n :: 0 <= n < |plan| ==> Left(total, Entries(plan[..n])) > req.cap
      {
        if left <= req.cap {
          break;
        }
        assert sorted[..i + 1][..i] == sorted[..i];
        if sorted[i].id != req.active {
          ghost var before := plan;
          plan := plan + [sorted[i]];
          OneMore(plan, |before|);
          assert plan[..|before|] == before && plan[..|plan|] == plan;
          assert forall n :: 0 <= n < |before| ==> plan[..n] == before[..n];
          left := Left(left, sorted[i].entries);
        }
        i := i + 1;
      }
      SkippingIsPlan(rows, State(), req, i, plan);
    }
  }

  lemma {:induction false} CommitsStayBroken(db: Db, p: Publication, i: nat, n: nat)
    requires i <= n <= |p.commits| && AddCommits(db, p, i).None?
    ensures AddCommits(db, p, n).None?
  {
    if i < n {
      CommitsStayBroken(db, p, i, n - 1);
    }
  }

  lemma {:induction false} EntriesStayBroken(db: Db, p: Publication, i: nat, n: nat)
    requires i <= n <= |p.entries| && AddEntries(db, p, i).None?
    ensures AddEntries(db, p, n).None?
  {
    if i < n {
      EntriesStayBroken(db, p, i, n - 1);
    }
  }

  lemma {:induction false} LooseAreDistinct(rows: seq<Cohort>, db: Db)
    requires ListsLoose(rows, db)
    ensures DistinctIds(rows)
  {
  }
}
