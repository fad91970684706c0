/** A parent-first replay answers META ranges exactly as the declarative definition over the whole membership. */
module MetaRefinement {
  import opened Graphs
  import opened Results
  import opened MetaRange

  /** Distinct OIDs, and a parent that is itself in the history comes before its child. */
  ghost predicate ParentFirst(history: seq<Commit>) {
    && (forall i, j :: 0 <= i < j < |history| ==> history[i].oid != history[j].oid)
    && (forall i, j :: 0 <= i < |history| && 0 <= j < |history| && history[j].oid in history[i].parents ==> j < i)
  }

  function Oids(history: seq<Commit>): (r: seq<Oid>)
    ensures |r| == |history|
    ensures forall k :: 0 <= k < |r| ==> r[k] == history[k].oid
  {
    seq(|history|, k requires 0 <= k < |history| => history[k].oid)
  }

  lemma {:induction false} OidsSplit(history: seq<Commit>)
    requires history != []
    ensures Oids(history) == Oids(history[..|history| - 1]) + [history[|history| - 1].oid]
  {
  }

  ghost predicate EdgesMirror(history: seq<Commit>, edges: set<(Oid, Oid)>) {
    && (forall e :: e in edges ==> exists k :: 0 <= k < |history| && history[k].oid == e.0 && e.1 in history[k].parents)
    && (forall k, p :: 0 <= k < |history| && p in history[k].parents ==> (history[k].oid, p) in edges)
  }

  /** After a parent-first replay the tables hold each commit once, in replay order, with all its parent edges. */
  lemma {:induction false} TablesShape(history: seq<Commit>)
    requires ParentFirst(history)
    ensures TablesOf(history).commits == Oids(history)
    ensures EdgesMirror(history, TablesOf(history).edges)
  {
    if history != [] {
      var n := |history| - 1;
      TablesShape(history[..n]);
      NextArrives(history, n);
      InsertArriving(TablesOf(history[..n]), history[n]);
      OidsSplit(history);
    }
  }

  lemma {:induction false} NextArrives(history: seq<Commit>, n: nat)
    requires ParentFirst(history) && n < |history|
    requires TablesOf(history[..n]).commits == Oids(history[..n])
    requires EdgesMirror(history[..n], TablesOf(history[..n]).edges)
    ensures Arrives(TablesOf(history[..n]), history[n])
  {
  }

  lemma {:induction false} ReplayStep(history: seq<Commit>, n: nat)
    requires ParentFirst(history) && n < |history|
    ensures TablesOf(history[..n + 1]) == InsertCommit(TablesOf(history[..n]), history[n])
    ensures Arrives(TablesOf(history[..n]), history[n])
  {
    assert history[..n + 1][..n] == history[..n];
    TablesShape(history[..n]);
    NextArrives(history, n);
  }

  lemma {:induction false} AnswersSurviveStep(history: seq<Commit>, n: nat, a: Oid, b: Oid)
    requires ParentFirst(history) && n < |history|
    requires a in Oids(history[..n]) && b in Oids(history[..n])
    ensures Reaches(TablesOf(history[..n + 1]).edges, a, b) == Reaches(TablesOf(history[..n]).edges, a, b)
    ensures FreshRange(TablesOf(history[..n + 1]), a, b) == FreshRange(TablesOf(history[..n]), a, b)
  {
    ReplayStep(history, n);
    TablesShape(history[..n]);
    ReachGrows(TablesOf(history[..n]), history[n], a, b);
    RangeGrows(TablesOf(history[..n]), history[n], a, b);
  }

  /** An ancestry or range answer given at any point of the replay is the answer at every later point. */
  lemma {:induction false} AnswersNeverChange(history: seq<Commit>, n: nat, m: nat, a: Oid, b: Oid)
    requires ParentFirst(history) && n <= m <= |history|
    requires a in Oids(history[..n]) && b in Oids(history[..n])
    ensures Reaches(TablesOf(history[..m]).edges, a, b) == Reaches(TablesOf(history[..n]).edges, a, b)
    ensures FreshRange(TablesOf(history[..m]), a, b) == FreshRange(TablesOf(history[..n]), a, b)
    decreases m - n
  {
    hide TablesOf, FreshRange;
    if n < m {
      AnswersSurviveStep(history, n, a, b);
      assert Oids(history[..n + 1])[..n] == Oids(history[..n]);
      AnswersNeverChange(history, n + 1, m, a, b);
    }
  }

  // ---------------------------------------------------------------- the membership the definition works on

  function ParentsIn(edges: set<(Oid, Oid)>, oid: Oid): set<Oid> {
    set e | e in edges && e.0 == oid :: e.1
  }

  ghost function StrictAncestors(edges: set<(Oid, Oid)>, oid: Oid): set<Oid> {
    Reachable(edges, ParentsIn(edges, oid))
  }

  lemma {:induction false} InStrictAncestors(edges: set<(Oid, Oid)>, a: Oid, b: Oid)
    ensures b in StrictAncestors(edges, a) <==> StrictlyReaches(edges, a, b)
  {
    var parents := ParentsIn(edges, a);
    if b in StrictAncestors(edges, a) {
      var s :| s in parents && Reaches(edges, s, b);
      ReachesStep(edges, a, s, b);
    }
    if StrictlyReaches(edges, a, b) {
      var e :| e in edges && e.0 == a && Reaches(edges, e.1, b);
      ReachableMember(edges, parents, e.1, b);
    }
  }

  ghost function Membership(history: seq<Commit>, edges: set<(Oid, Oid)>): (r: seq<TrailCommit>)
    ensures |r| == |history|
    ensures forall k :: 0 <= k < |r| ==> r[k] == TrailCommit(history[k].oid, StrictAncestors(edges, history[k].oid))
  {
    seq(|history|, k requires 0 <= k < |history| => TrailCommit(history[k].oid, StrictAncestors(edges, history[k].oid)))
  }

  /** A strict ancestor inside the history was replayed earlier, so ancestry has no cycle. */
  lemma {:induction false} AncestorsComeFirst(history: seq<Commit>, j: nat, k: nat)
    requires ParentFirst(history) && j < |history| && k < |history|
    requires history[k].oid in StrictAncestors(TablesOf(history).edges, history[j].oid)
    ensures k < j
  {
    hide TablesOf, Reachable;
    TablesShape(history);
    var edges := TablesOf(history).edges;
    BelowIsClosed(history, j, edges);
    ReachableIsLeast(edges, ParentsIn(edges, history[j].oid), Below(history, j, edges));
  }

  /** The parents that are not replayed at `j` or later. */
  function Below(history: seq<Commit>, j: nat, edges: set<(Oid, Oid)>): set<Oid> {
    set e | e in edges && e.1 !in (set m | j <= m < |history| :: history[m].oid) :: e.1
  }

  lemma {:induction false} BelowIsClosed(history: seq<Commit>, j: nat, edges: set<(Oid, Oid)>)
    requires ParentFirst(history) && j < |history| && EdgesMirror(history, edges)
    ensures Closed(edges, Below(history, j, edges)) && ParentsIn(edges, history[j].oid) <= Below(history, j, edges)
    ensures forall m :: j <= m < |history| ==> history[m].oid !in Below(history, j, edges)
  {
    forall e | e in edges && (e.0 == history[j].oid || e.0 in Below(history, j, edges))
      ensures e.1 in Below(history, j, edges)
    {
      var i :| 0 <= i < |history| && history[i].oid == e.0 && e.1 in history[i].parents;
      forall m | j <= m < |history| ensures history[m].oid != e.1 {
      }
    }
  }

  lemma {:induction false} FindIn(history: seq<Commit>, edges: set<(Oid, Oid)>, k: nat)
    requires ParentFirst(history) && k < |history|
    ensures Find(Membership(history, edges), history[k].oid)
      == Some(TrailCommit(history[k].oid, StrictAncestors(edges, history[k].oid)))
  {
  }

  ghost predicate KeepAgrees(keep: set<Oid>, commit: TrailCommit, from: TrailCommit, to: TrailCommit) {
    commit.oid in keep <==>
      (commit.oid == from.oid || from.oid in commit.ancestors) && (commit.oid == to.oid || commit.oid in to.ancestors)
  }

  lemma {:induction false} InRangeIsSelect(membership: seq<TrailCommit>, oids: seq<Oid>, keep: set<Oid>,
      from: TrailCommit, to: TrailCommit)
    requires |oids| == |membership| && forall k :: 0 <= k < |oids| ==> oids[k] == membership[k].oid
    requires forall k :: 0 <= k < |membership| ==> KeepAgrees(keep, membership[k], from, to)
    ensures InRange(membership, from, to) == Select(oids, keep)
  {
    if membership != [] {
      assert KeepAgrees(keep, membership[0], from, to);
      assert forall k :: 0 <= k < |membership| - 1 ==> membership[1..][k] == membership[k + 1];
      InRangeIsSelect(membership[1..], oids[1..], keep, from, to);
    }
  }

  lemma {:induction false} WholeRangeAgrees(history: seq<Commit>, a: nat, b: nat)
    requires ParentFirst(history) && a < |history| && b < |history|
    ensures var edges := TablesOf(history).edges;
            var members := Membership(history, edges);
            FreshRange(TablesOf(history), history[a].oid, history[b].oid) == InRange(members, members[a], members[b])
  {
    TablesShape(history);
    var edges := TablesOf(history).edges;
    var members := Membership(history, edges);
    var keep := Reachable(Reverse(edges), {history[a].oid}) * Reachable(edges, {history[b].oid});
    forall k | 0 <= k < |members| ensures KeepAgrees(keep, members[k], members[a], members[b]) {
      InFreshRange(edges, history[a].oid, history[b].oid, history[k].oid);
      ReachesSplit(edges, history[k].oid, history[a].oid);
      InStrictAncestors(edges, history[k].oid, history[a].oid);
      ReachesSplit(edges, history[b].oid, history[k].oid);
      InStrictAncestors(edges, history[b].oid, history[k].oid);
    }
    InRangeIsSelect(members, Oids(history), keep, members[a], members[b]);
  }

  // ---------------------------------------------------------------- endpoints

  /** The endpoint abbreviates no OID of the history other than itself. */
  ghost predicate FullOid(history: seq<Commit>, endpoint: Oid) {
    forall k :: 0 <= k < |history| && endpoint <= history[k].oid ==> history[k].oid == endpoint
  }

  lemma {:induction false} FullOidMatches(commits: seq<Oid>, endpoint: Oid)
    requires forall i, j :: 0 <= i < j < |commits| ==> commits[i] != commits[j]
    requires forall k :: 0 <= k < |commits| && endpoint <= commits[k] ==> commits[k] == endpoint
    ensures Matches(commits, endpoint) == if endpoint in commits then [endpoint] else []
  {
    if commits != [] {
      FullOidMatches(commits[1..], endpoint);
      assert forall k :: 0 <= k < |commits| - 1 ==> commits[1..][k] == commits[k + 1];
      if commits[0] == endpoint {
        assert endpoint !in commits[1..];
      }
    }
  }

  lemma {:induction false} FullOidResolves(history: seq<Commit>, n: nat, endpoint: Oid)
    requires ParentFirst(history) && n <= |history| && FullOid(history, endpoint)
    ensures ResolveCommitPrefix(TablesOf(history[..n]).commits, endpoint)
         == if endpoint in Oids(history[..n]) then Some(endpoint) else None
  {
    TablesShape(history[..n]);
    FullOidMatches(Oids(history[..n]), endpoint);
  }

  /** At any point of the replay, ancestry between replayed commits is membership in the final ancestor sets. */
  lemma {:induction false} AncestryAgrees(history: seq<Commit>, n: nat, a: nat, b: nat)
    requires ParentFirst(history) && a < n <= |history| && b < n
    ensures var below, above := history[a].oid, history[b].oid;
            var reached := Reaches(TablesOf(history[..n]).edges, below, above);
            var strict := above in StrictAncestors(TablesOf(history).edges, below);
            (reached <==> below == above || strict) && (below != above && reached <==> strict)
  {
    hide TablesOf, FreshRange;
    assert history[..|history|] == history;
    assert Oids(history[..n])[a] == history[a].oid && Oids(history[..n])[b] == history[b].oid;
    AnswersNeverChange(history, n, |history|, history[a].oid, history[b].oid);
    ReachesSplit(TablesOf(history).edges, history[a].oid, history[b].oid);
    InStrictAncestors(TablesOf(history).edges, history[a].oid, history[b].oid);
    if history[b].oid in StrictAncestors(TablesOf(history).edges, history[a].oid) {
      AncestorsComeFirst(history, a, b);
    }
  }

  lemma {:induction false} ResolvedRangeAgrees(history: seq<Commit>, i: nat, a: nat, b: nat)
    requires ParentFirst(history) && i < |history| && a <= i && b <= i
    ensures var edges := TablesOf(history).edges;
            var members := Membership(history, edges);
            FreshRange(TablesOf(history[..i + 1]), history[a].oid, history[b].oid)
              == InRange(members, members[a], members[b])
  {
    hide TablesOf, FreshRange;
    assert history[..|history|] == history;
    assert Oids(history[..i + 1])[a] == history[a].oid && Oids(history[..i + 1])[b] == history[b].oid;
    AnswersNeverChange(history, i + 1, |history|, history[a].oid, history[b].oid);
    WholeRangeAgrees(history, a, b);
  }

  /** The definition's outcome for commits `from`, `to` and `meta` of the membership. */
  ghost function DeclaredOutcome(members: seq<TrailCommit>, from: TrailCommit, to: TrailCommit, meta: TrailCommit)
    : Result<seq<Oid>, MetaError>
  {
    if !(from.oid == to.oid || from.oid in to.ancestors) then Failure(NotAnAncestor)
    else if !(from.oid in meta.ancestors && to.oid in meta.ancestors) then Failure(NotBeforeMeta)
    else Success(InRange(members, from, to))
  }

  lemma {:induction false} DeclaredFor(history: seq<Commit>, edges: set<(Oid, Oid)>, i: nat, a: nat, b: nat)
    requires ParentFirst(history) && i < |history| && a < |history| && b < |history|
    ensures var members := Membership(history, edges);
            ResolveMetaRange(members, history[i].oid, history[a].oid, history[b].oid, true)
              == DeclaredOutcome(members, members[a], members[b], members[i])
  {
    hide StrictAncestors, InRange, ParentFirst;
    FindIn(history, edges, a);
    FindIn(history, edges, b);
    FindIn(history, edges, i);
  }

  lemma {:induction false} OutcomesMatch(tables: Tables, members: seq<TrailCommit>, current: TrailCommit,
      from: TrailCommit, to: TrailCommit)
    requires Reaches(tables.edges, to.oid, from.oid) <==> to.oid == from.oid || from.oid in to.ancestors
    requires current.oid != from.oid && Reaches(tables.edges, current.oid, from.oid) <==> from.oid in current.ancestors
    requires current.oid != to.oid && Reaches(tables.edges, current.oid, to.oid) <==> to.oid in current.ancestors
    requires FreshRange(tables, from.oid, to.oid) == InRange(members, from, to)
    ensures FreshOutcome(tables, current.oid, from.oid, to.oid) == DeclaredOutcome(members, from, to, current)
  {
  }

  lemma {:induction false} OutcomeAgrees(history: seq<Commit>, i: nat, a: nat, b: nat)
    requires ParentFirst(history) && i < |history| && a <= i && b <= i
    ensures var members := Membership(history, TablesOf(history).edges);
            FreshOutcome(TablesOf(history[..i + 1]), history[i].oid, history[a].oid, history[b].oid)
              == DeclaredOutcome(members, members[a], members[b], members[i])
  {
    hide TablesOf, StrictAncestors, InRange, ToldOutcome;
    var members := Membership(history, TablesOf(history).edges);
    AncestryAgrees(history, i + 1, b, a);
    AncestryAgrees(history, i + 1, i, a);
    AncestryAgrees(history, i + 1, i, b);
    ResolvedRangeAgrees(history, i, a, b);
    OutcomesMatch(TablesOf(history[..i + 1]), members, members[i], members[a], members[b]);
  }

  /** Both endpoints resolve among the commits replayed so far: the store and the definition agree on the outcome. */
  lemma {:induction false} ResolvedRefinement(history: seq<Commit>, i: nat, a: nat, b: nat, fromPrefix: Oid,
      toPrefix: Oid, complete: bool)
    requires ParentFirst(history) && i < |history| && a <= i && b <= i
    requires ResolveCommitPrefix(TablesOf(history[..i + 1]).commits, fromPrefix) == Some(history[a].oid)
    requires ResolveCommitPrefix(TablesOf(history[..i + 1]).commits, toPrefix) == Some(history[b].oid)
    ensures FreshTargets(TablesOf(history[..i + 1]), history[i].oid, fromPrefix, toPrefix, complete)
         == ResolveMetaRange(Membership(history, TablesOf(history).edges), history[i].oid, history[a].oid,
                             history[b].oid, complete)
  {
    hide TablesOf, StrictAncestors, InRange, ToldOutcome;
    DeclaredFor(history, TablesOf(history).edges, i, a, b);
    OutcomeAgrees(history, i, a, b);
  }

  lemma {:induction false} NotAnAncestorYet(history: seq<Commit>, i: nat, endpoint: Oid)
    requires ParentFirst(history) && i < |history| && endpoint !in Oids(history[..i + 1])
    requires Find(Membership(history, TablesOf(history).edges), endpoint).Some?
    ensures endpoint !in StrictAncestors(TablesOf(history).edges, history[i].oid)
  {
    hide TablesOf, StrictAncestors;
    var members := Membership(history, TablesOf(history).edges);
    var k :| 0 <= k < |members| && members[k].oid == endpoint;
    assert forall m :: 0 <= m <= i ==> Oids(history[..i + 1])[m] == history[m].oid;
    if history[k].oid in StrictAncestors(TablesOf(history).edges, history[i].oid) {
      AncestorsComeFirst(history, i, k);
    }
  }

  lemma {:induction false} NotYetReplayed(history: seq<Commit>, i: nat, endpoint: Oid, other: Oid, complete: bool)
    requires ParentFirst(history) && i < |history| && endpoint !in Oids(history[..i + 1])
    ensures ResolveMetaRange(Membership(history, TablesOf(history).edges), history[i].oid, endpoint, other,
      complete).Failure?
    ensures ResolveMetaRange(Membership(history, TablesOf(history).edges), history[i].oid, other, endpoint,
      complete).Failure?
  {
    hide TablesOf, StrictAncestors, InRange, ParentFirst, Oids;
    FindIn(history, TablesOf(history).edges, i);
    if Find(Membership(history, TablesOf(history).edges), endpoint).Some? {
      NotAnAncestorYet(history, i, endpoint);
    }
  }

  /** Evaluated when META commit `i` is replayed, the store's range with full-OID endpoints is the declarative
      range over the whole membership: the same list in the same order, and a failure exactly when that fails. */
  lemma {:induction false} RangeRefinement(history: seq<Commit>, i: nat, from: Oid, to: Oid, complete: bool)
    requires ParentFirst(history) && i < |history| && FullOid(history, from) && FullOid(history, to)
    ensures var stored := FreshTargets(TablesOf(history[..i + 1]), history[i].oid, from, to, complete);
            var declared := ResolveMetaRange(Membership(history, TablesOf(history).edges), history[i].oid, from, to,
              complete);
            && (stored.Success? <==> declared.Success?)
            && (stored.Success? ==> stored.value == declared.value)
  {
    hide TablesOf, StrictAncestors, InRange, ToldOutcome;
    var replayed := Oids(history[..i + 1]);
    FullOidResolves(history, i + 1, from);
    FullOidResolves(history, i + 1, to);
    if from !in replayed {
      NotYetReplayed(history, i, from, to, complete);
    } else if to !in replayed {
      NotYetReplayed(history, i, to, from, complete);
    } else {
      var a :| 0 <= a < |replayed| && replayed[a] == from;
      var b :| 0 <= b < |replayed| && replayed[b] == to;
      ResolvedRefinement(history, i, a, b, from, to, complete);
    }
  }
}
