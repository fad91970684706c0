/** Which cohorts retention evicts: the shortest prefix, in (time, repository, id) order, that meets the cap. */
module Retention {
  import opened Orders

  /** One trail or commit with its number of entries. */
  datatype Cohort = Cohort(time: int, repo: int, id: string, entries: nat)

  predicate Before(a: Cohort, b: Cohort) {
    if a.time != b.time then a.time < b.time
    else if a.repo != b.repo then a.repo < b.repo
    else LexLess(a.id, b.id)
  }

  lemma BeforeTransitive(a: Cohort, b: Cohort, c: Cohort)
    requires Before(a, b) && Before(b, c)
    ensures Before(a, c)
  {
    if a.time == b.time == c.time && a.repo == b.repo == c.repo {
      LexTransitive(a.id, b.id, c.id);
    }
  }

  lemma BeforeTotal(a: Cohort, b: Cohort)
    ensures Before(a, b) || Before(b, a) || (a.time == b.time && a.repo == b.repo && a.id == b.id)
    ensures !(Before(a, b) && Before(b, a)) && !Before(a, a)
  {
    LexTrichotomy(a.id, b.id);
    LexIrreflexive(a.id);
    if Before(a, b) && Before(b, a) {
      BeforeTransitive(a, b, a);
    }
  }

  // ---------------------------------------------------------------- sorting

  function Insert(sorted: seq<Cohort>, row: Cohort): (r: seq<Cohort>)
    ensures multiset(r) == multiset(sorted) + multiset{row}
  {
    if sorted == [] then [row]
    else if Before(sorted[0], row) then
      assert sorted == [sorted[0]] + sorted[1..];
      [sorted[0]] + Insert(sorted[1..], row)
    else [row] + sorted
  }

  function Sort(rows: seq<Cohort>): (r: seq<Cohort>)
    ensures multiset(r) == multiset(rows)
  {
    if rows == [] then []
    else
      assert rows == rows[..|rows| - 1] + [rows[|rows| - 1]];
      Insert(Sort(rows[..|rows| - 1]), rows[|rows| - 1])
  }

  ghost predicate Ascending(s: seq<Cohort>) {
    forall i, j :: 0 <= i < j < |s| ==> Before(s[i], s[j])
  }

  ghost predicate DistinctIds(rows: seq<Cohort>) {
    forall i, j :: 0 <= i < j < |rows| ==> rows[i].repo != rows[j].repo || rows[i].id != rows[j].id
  }

  lemma {:induction false} PrependAscends(head: Cohort, rest: seq<Cohort>)
    requires Ascending(rest) && forall r :: r in rest ==> Before(head, r)
    ensures Ascending([head] + rest)
  {
  }

  lemma {:induction false} InsertAscends(sorted: seq<Cohort>, row: Cohort)
    requires Ascending(sorted)
    requires forall r :: r in sorted ==> r.repo != row.repo || r.id != row.id
    ensures Ascending(Insert(sorted, row))
    ensures forall r :: r in Insert(sorted, row) <==> r in sorted || r == row
  {
    hide Before;
    if sorted != [] {
      var head, rest := sorted[0], sorted[1..];
      assert forall r :: r in sorted <==> r == head || r in rest;
      BeforeTotal(head, row);
      if Before(head, row) {
        InsertAscends(rest, row);
        forall r | r in rest ensures Before(head, r) {
          var i :| 0 <= i < |rest| && rest[i] == r;
          assert r == sorted[i + 1];
        }
        PrependAscends(head, Insert(rest, row));
      } else {
        forall r | r in rest ensures Before(row, r) {
          var i :| 0 <= i < |rest| && rest[i] == r;
          assert r == sorted[i + 1];
          BeforeTransitive(row, head, r);
        }
        PrependAscends(row, sorted);
      }
    }
  }

  lemma {:induction false} SortAscends(rows: seq<Cohort>)
    requires DistinctIds(rows)
    ensures Ascending(Sort(rows))
    ensures forall r :: r in Sort(rows) <==> r in rows
  {
    if rows != [] {
      var rest := rows[..|rows| - 1];
      SortAscends(rest);
      assert forall r :: r in rows <==> r in rest || r == rows[|rows| - 1];
      InsertAscends(Sort(rest), rows[|rows| - 1]);
    }
  }

  // ---------------------------------------------------------------- the plan

  function Entries(rows: seq<Cohort>): nat {
    if rows == [] then 0 else Entries(rows[..|rows| - 1]) + rows[|rows| - 1].entries
  }

  function Left(total: nat, gone: nat): nat {
    if gone <= total then total - gone else 0
  }

  /**
   * `plan` is the shortest prefix of the eligible cohorts, in order, that brings the total to the cap, or all of them.
   */
  ghost predicate IsPlan(eligible: set<Cohort>, total: nat, cap: nat, plan: seq<Cohort>) {
    && Ascending(plan)
    && (forall row :: row in plan ==> row in eligible)
    && (forall row, other :: row in eligible && other in plan && Before(row, other) ==> row in plan)
    && (forall n :: 0 <= n < |plan| ==> Left(total, Entries(plan[..n])) > cap)
    && (Left(total, Entries(plan)) <= cap || forall row :: row in eligible ==> row in plan)
  }

  function RowSet(rows: seq<Cohort>): set<Cohort> {
    set row | row in rows
  }

  ghost predicate DistinctNames(rows: set<Cohort>) {
    forall a, b :: a in rows && b in rows && a.repo == b.repo && a.id == b.id ==> a == b
  }

  /** Whatever order the rows come in, the prefix of the sorted rows at which both loops stop is the plan. */
  lemma {:induction false} SortedPrefixIsPlan(rows: seq<Cohort>, total: nat, cap: nat, k: nat)
    requires DistinctIds(rows) && k <= |Sort(rows)|
    requires forall n :: 0 <= n < k ==> Left(total, Entries(Sort(rows)[..n])) > cap
    requires Left(total, Entries(Sort(rows)[..k])) <= cap || k == |Sort(rows)|
    ensures IsPlan(RowSet(rows), total, cap, Sort(rows)[..k])
  {
    hide Sort, Entries, Before;
    var sorted, eligible := Sort(rows), RowSet(rows);
    SortAscends(rows);
    var plan := sorted[..k];
    forall n | 0 <= n < |plan| ensures Left(total, Entries(plan[..n])) > cap {
      assert plan[..n] == sorted[..n];
    }
    forall row, other | row in eligible && other in plan && Before(row, other) ensures row in plan {
      var i :| 0 <= i < |sorted| && sorted[i] == row;
      var j :| 0 <= j < k && sorted[j] == other;
      BeforeTotal(row, other);
      assert i < k && plan[i] == row;
    }
    if k == |sorted| {
      assert plan == sorted;
    }
  }

  /** The cap, the total and the set of eligible cohorts determine the plan; the order of the rows does not matter. */
  lemma {:induction false} PlanIsUnique(eligible: set<Cohort>, total: nat, cap: nat, a: seq<Cohort>, b: seq<Cohort>)
    requires DistinctNames(eligible) && IsPlan(eligible, total, cap, a) && IsPlan(eligible, total, cap, b)
    ensures a == b
  {
    if |a| <= |b| {
      PlanIsPrefix(eligible, total, cap, a, b, |a|);
      NoLonger(eligible, total, cap, a, b);
    } else {
      PlanIsPrefix(eligible, total, cap, b, a, |b|);
      NoLonger(eligible, total, cap, b, a);
    }
  }

  lemma {:induction false} PlanIsPrefix(eligible: set<Cohort>, total: nat, cap: nat, a: seq<Cohort>, b: seq<Cohort>,
      n: nat)
    requires DistinctNames(eligible) && IsPlan(eligible, total, cap, a) && IsPlan(eligible, total, cap, b)
      && n <= |a| <= |b|
    ensures a[..n] == b[..n]
    decreases n
  {
    hide IsPlan, DistinctNames;
    if n > 0 {
      PlanIsPrefix(eligible, total, cap, a, b, n - 1);
      NextNotBefore(eligible, total, cap, a, b, n);
      NextNotBefore(eligible, total, cap, b, a, n);
      SamePlace(eligible, total, cap, a, b, n);
      assert a[..n] == a[..n - 1] + [a[n - 1]] && b[..n] == b[..n - 1] + [b[n - 1]];
    }
  }

  /** After a common prefix, an element of `b` that is next in `a` cannot come before the next of `b`. */
  lemma {:induction false} InPrefix(a: seq<Cohort>, b: seq<Cohort>, n: nat, x: Cohort)
    requires 0 < n <= |a| && n <= |b| && Ascending(a) && Ascending(b) && a[..n - 1] == b[..n - 1]
    requires x == a[n - 1] && x in b
    ensures !Before(x, b[n - 1])
  {
    forall i | 0 <= i < n - 1 ensures b[i] == a[i] && Before(b[i], x) {
      assert a[i] == a[..n - 1][i] && b[i] == b[..n - 1][i];
    }
    BeforeTotal(x, x);
    BeforeTotal(x, b[n - 1]);
  }

  lemma {:induction false} NextNotBefore(eligible: set<Cohort>, total: nat, cap: nat, a: seq<Cohort>, b: seq<Cohort>,
      n: nat)
    requires IsPlan(eligible, total, cap, a) && IsPlan(eligible, total, cap, b)
    requires 0 < n <= |a| && n <= |b| && a[..n - 1] == b[..n - 1]
    ensures !Before(a[n - 1], b[n - 1])
  {
    hide Before, Ascending, Entries;
    if a[n - 1] in b {
      InPrefix(a, b, n, a[n - 1]);
    }
  }

  lemma {:induction false} SamePlace(eligible: set<Cohort>, total: nat, cap: nat, a: seq<Cohort>, b: seq<Cohort>,
      n: nat)
    requires DistinctNames(eligible) && IsPlan(eligible, total, cap, a) && IsPlan(eligible, total, cap, b)
      && 0 < n <= |a| <= |b|
    requires a[..n - 1] == b[..n - 1] && !Before(a[n - 1], b[n - 1]) && !Before(b[n - 1], a[n - 1])
    ensures a[n - 1] == b[n - 1]
  {
    BeforeTotal(a[n - 1], b[n - 1]);
  }

  lemma {:induction false} NoLonger(eligible: set<Cohort>, total: nat, cap: nat, a: seq<Cohort>, b: seq<Cohort>)
    requires IsPlan(eligible, total, cap, a) && IsPlan(eligible, total, cap, b) && |a| <= |b| && a == b[..|a|]
    ensures a == b
  {
    if |a| < |b| {
      assert Left(total, Entries(b[..|a|])) > cap;
      var extra := b[|a|];
      assert extra in a;
      var i :| 0 <= i < |a| && a[i] == extra;
      assert Before(b[i], b[|a|]);
      BeforeTotal(extra, extra);
    } else {
      assert b[..|a|] == b;
    }
  }
}
