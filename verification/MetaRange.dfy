/** META ranges: the declarative definition, the store's recursive queries, and the memo in front of them. */
module MetaRange {
  import opened Graphs
  import opened Results

  type Oid = string

  datatype Commit = Commit(oid: Oid, parents: seq<Oid>)

  /** The `commits` rows in rowid order and the `commit_parents` rows as (child, parent). */
  datatype Tables = Tables(commits: seq<Oid>, edges: set<(Oid, Oid)>)

  datatype MetaError =
    IncompleteRange | UnresolvedEndpoint | MissingEndpoint | MissingMeta | NotAnAncestor | NotBeforeMeta

  const EMPTY := Tables([], {})

  // ---------------------------------------------------------------- declarative definition

  datatype TrailCommit = TrailCommit(oid: Oid, ancestors: set<Oid>)

  function Find(membership: seq<TrailCommit>, oid: Oid): (r: Option<TrailCommit>)
    ensures r.Some? <==> exists k :: 0 <= k < |membership| && membership[k].oid == oid
    ensures r.Some? ==> r.value in membership && r.value.oid == oid
  {
    if membership == [] then None
    else if membership[0].oid == oid then Some(membership[0])
    else
      var rest := Find(membership[1..], oid);
      assert rest.None? ==> forall k :: 0 <= k < |membership| - 1 ==> membership[1..][k] == membership[k + 1];
      rest
  }

  function InRange(membership: seq<TrailCommit>, from: TrailCommit, to: TrailCommit): seq<Oid> {
    if membership == [] then []
    else
      var commit := membership[0];
      var rest := InRange(membership[1..], from, to);
      if (commit.oid == from.oid || from.oid in commit.ancestors)
        && (commit.oid == to.oid || commit.oid in to.ancestors)
      then [commit.oid] + rest
      else rest
  }

  function ResolveMetaRange(membership: seq<TrailCommit>, metaOid: Oid, fromOid: Oid, toOid: Oid, complete: bool)
    : Result<seq<Oid>, MetaError>
  {
    if !complete then Failure(IncompleteRange)
    else
      var from, to, meta := Find(membership, fromOid), Find(membership, toOid), Find(membership, metaOid);
      if from.None? || to.None? then Failure(MissingEndpoint)
      else if meta.None? then Failure(MissingMeta)
      else if !(from.value.oid == to.value.oid || from.value.oid in to.value.ancestors) then Failure(NotAnAncestor)
      else if !(from.value.oid in meta.value.ancestors && to.value.oid in meta.value.ancestors)
      then Failure(NotBeforeMeta)
      else Success(InRange(membership, from.value, to.value))
  }

  // ---------------------------------------------------------------- the store's tables

  function Without(commits: seq<Oid>, oid: Oid): seq<Oid> {
    if commits == [] then []
    else if commits[0] == oid then Without(commits[1..], oid)
    else [commits[0]] + Without(commits[1..], oid)
  }

  lemma {:induction false} WithoutAbsent(commits: seq<Oid>, oid: Oid)
    requires oid !in commits
    ensures Without(commits, oid) == commits
  {
    if commits != [] {
      WithoutAbsent(commits[1..], oid);
    }
  }

  lemma {:induction false} WithoutMembers(commits: seq<Oid>, oid: Oid)
    ensures forall c :: c in Without(commits, oid) <==> c in commits && c != oid
  {
    if commits != [] {
      WithoutMembers(commits[1..], oid);
      assert commits == [commits[0]] + commits[1..];
    }
  }

  function ParentEdges(commit: Commit): set<(Oid, Oid)> {
    set p | p in commit.parents :: (commit.oid, p)
  }

  /** `INSERT OR REPLACE` of the commit row (its old edges cascade away), then `INSERT OR IGNORE` of its edges. */
  function InsertCommit(tables: Tables, commit: Commit): Tables {
    Tables(Without(tables.commits, commit.oid) + [commit.oid],
           (set e | e in tables.edges && e.0 != commit.oid) + ParentEdges(commit))
  }

  /** The tables after replaying a history of commits in order. */
  function TablesOf(history: seq<Commit>): Tables {
    if history == [] then EMPTY else InsertCommit(TablesOf(history[..|history| - 1]), history[|history| - 1])
  }

  function Matches(commits: seq<Oid>, prefix: Oid): (r: seq<Oid>)
    ensures forall c :: c in r <==> c in commits && prefix <= c
  {
    if commits == [] then []
    else if prefix <= commits[0] then [commits[0]] + Matches(commits[1..], prefix)
    else Matches(commits[1..], prefix)
  }

  function ResolveCommitPrefix(commits: seq<Oid>, prefix: Oid): Option<Oid> {
    var found := Matches(commits, prefix);
    if |found| == 1 then Some(found[0]) else None
  }

  /** A prefix resolves to a commit exactly when it abbreviates that one and no other. */
  lemma {:induction false} PrefixResolvesExactly(commits: seq<Oid>, prefix: Oid, oid: Oid)
    requires forall i, j :: 0 <= i < j < |commits| ==> commits[i] != commits[j]
    ensures ResolveCommitPrefix(commits, prefix) == Some(oid) <==>
      oid in commits && prefix <= oid && forall other :: other in commits && prefix <= other ==> other == oid
  {
    MatchesDiffer(commits, prefix);
    var found := Matches(commits, prefix);
    if |found| > 1 {
      assert found[0] in found && found[1] in found;
    } else if |found| == 1 {
      assert found[0] in found;
    }
  }

  lemma {:induction false} MatchesDiffer(commits: seq<Oid>, prefix: Oid)
    requires forall i, j :: 0 <= i < j < |commits| ==> commits[i] != commits[j]
    ensures forall i, j :: 0 <= i < j < |Matches(commits, prefix)| ==>
      Matches(commits, prefix)[i] != Matches(commits, prefix)[j]
  {
    if commits != [] {
      forall i, j | 0 <= i < j < |commits| - 1 ensures commits[1..][i] != commits[1..][j] {
        assert commits[1..][i] == commits[i + 1] && commits[1..][j] == commits[j + 1];
      }
      MatchesDiffer(commits[1..], prefix);
      forall c | c in Matches(commits[1..], prefix) ensures c != commits[0] {
        var k :| 0 <= k < |commits| - 1 && commits[1..][k] == c;
        assert commits[k + 1] == c;
      }
      var found, rest := Matches(commits, prefix), Matches(commits[1..], prefix);
      forall i, j | 0 <= i < j < |found| ensures found[i] != found[j] {
        if prefix <= commits[0] {
          assert found[j] == rest[j - 1] && rest[j - 1] in rest;
          assert i > 0 ==> found[i] == rest[i - 1];
        }
      }
    }
  }

  function Select(commits: seq<Oid>, keep: set<Oid>): seq<Oid> {
    if commits == [] then []
    else if commits[0] in keep then [commits[0]] + Select(commits[1..], keep)
    else Select(commits[1..], keep)
  }

  /** What the range query returns on the current tables. */
  ghost function FreshRange(tables: Tables, from: Oid, to: Oid): seq<Oid> {
    Select(tables.commits, Reachable(Reverse(tables.edges), {from}) * Reachable(tables.edges, {to}))
  }

  // ---------------------------------------------------------------- the memo

  datatype Memo = Memo(ancestors: map<(Oid, Oid), bool>, ranges: map<(Oid, Oid), seq<Oid>>)

  const NOTHING := Memo(map[], map[])

  /** The answer to an ancestry question: the memoised one, if any. */
  ghost predicate Told(edges: set<(Oid, Oid)>, memo: Memo, descendant: Oid, ancestor: Oid) {
    var key := (descendant, ancestor);
    || descendant == ancestor
    || if key in memo.ancestors then memo.ancestors[key] else Reaches(edges, descendant, ancestor)
  }

  ghost function ToldRange(tables: Tables, memo: Memo, from: Oid, to: Oid): seq<Oid> {
    if (from, to) in memo.ranges then memo.ranges[(from, to)] else FreshRange(tables, from, to)
  }

  /** The ancestry checks and the range for two resolved endpoints. */
  ghost function ToldOutcome(tables: Tables, memo: Memo, current: Oid, from: Oid, to: Oid)
    : Result<seq<Oid>, MetaError>
  {
    if !Told(tables.edges, memo, to, from) then Failure(NotAnAncestor)
    else if current == from || current == to || !Told(tables.edges, memo, current, from)
      || !Told(tables.edges, memo, current, to)
    then Failure(NotBeforeMeta)
    else Success(ToldRange(tables, memo, from, to))
  }

  /** What `metadata_targets` answers when the memo holds what it held before. */
  ghost function ToldTargets(tables: Tables, memo: Memo, current: Oid, fromPrefix: Oid, toPrefix: Oid, complete: bool)
    : Result<seq<Oid>, MetaError>
  {
    if !complete then Failure(IncompleteRange)
    else
      var from, to := ResolveCommitPrefix(tables.commits, fromPrefix), ResolveCommitPrefix(tables.commits, toPrefix);
      if from.None? || to.None? then Failure(UnresolvedEndpoint)
      else ToldOutcome(tables, memo, current, from.value, to.value)
  }

  /** The outcome on the current tables. */
  ghost function FreshOutcome(tables: Tables, current: Oid, from: Oid, to: Oid): Result<seq<Oid>, MetaError> {
    ToldOutcome(tables, NOTHING, current, from, to)
  }

  /** What `metadata_targets` answers when no memoised answer is used. */
  ghost function FreshTargets(tables: Tables, current: Oid, fromPrefix: Oid, toPrefix: Oid, complete: bool)
    : Result<seq<Oid>, MetaError>
  {
    ToldTargets(tables, NOTHING, current, fromPrefix, toPrefix, complete)
  }

  ghost predicate SoundAncestor(tables: Tables, key: (Oid, Oid), found: bool) {
    key.0 in tables.commits && key.1 in tables.commits && found == Reaches(tables.edges, key.0, key.1)
  }

  ghost predicate SoundRange(tables: Tables, key: (Oid, Oid), range: seq<Oid>) {
    key.0 in tables.commits && key.1 in tables.commits && range == FreshRange(tables, key.0, key.1)
  }

  /** Every memoised answer is the one a fresh walk over the given tables would return. */
  ghost predicate SoundMemo(tables: Tables, memo: Memo) {
    && (forall k :: k in memo.ancestors ==> SoundAncestor(tables, k, memo.ancestors[k]))
    && (forall k :: k in memo.ranges ==> SoundRange(tables, k, memo.ranges[k]))
  }

  /** `after` holds what `before` held, and otherwise only answers that are right for these tables. */
  ghost predicate Extends(tables: Tables, before: Memo, after: Memo) {
    && (forall k :: k in before.ancestors ==> k in after.ancestors && after.ancestors[k] == before.ancestors[k])
    && (forall k :: k in before.ranges ==> k in after.ranges && after.ranges[k] == before.ranges[k])
    && (forall k :: k in after.ancestors && k !in before.ancestors ==> SoundAncestor(tables, k, after.ancestors[k]))
    && (forall k :: k in after.ranges && k !in before.ranges ==> SoundRange(tables, k, after.ranges[k]))
  }

  /** Every memoised range lists stored commits. */
  ghost predicate ListsStored(commits: seq<Oid>, memo: Memo) {
    forall k, c :: k in memo.ranges && c in memo.ranges[k] ==> c in commits
  }

  lemma ExtendsTransitively(tables: Tables, a: Memo, b: Memo, c: Memo)
    requires Extends(tables, a, b) && Extends(tables, b, c)
    ensures Extends(tables, a, c)
  {
    hide SoundAncestor, SoundRange;
  }

  /** While the tables stay as they are, what the memo learns changes no answer. */
  lemma LearningChangesNothing(tables: Tables, before: Memo, after: Memo)
    requires Extends(tables, before, after)
    ensures forall d, a :: Told(tables.edges, after, d, a) == Told(tables.edges, before, d, a)
    ensures forall f, t :: ToldRange(tables, after, f, t) == ToldRange(tables, before, f, t)
  {
    hide FreshRange, Reaches;
  }

  lemma SoundExtends(tables: Tables, before: Memo, after: Memo)
    requires SoundMemo(tables, before) && Extends(tables, before, after)
    ensures SoundMemo(tables, after)
  {
    hide FreshRange, Reaches;
  }

  lemma {:induction false} ExtensionListsStored(tables: Tables, before: Memo, after: Memo)
    requires ListsStored(tables.commits, before) && Extends(tables, before, after)
    ensures ListsStored(tables.commits, after)
  {
    hide Reaches, FreshRange;
    forall k, c | k in after.ranges && c in after.ranges[k] ensures c in tables.commits {
      if k !in before.ranges {
        RangeListsStored(tables, k.0, k.1);
      }
    }
  }

  lemma RangeListsStored(tables: Tables, from: Oid, to: Oid)
    ensures forall c :: c in FreshRange(tables, from, to) ==> c in tables.commits
  {
    SelectWithin(tables.commits, Reachable(Reverse(tables.edges), {from}) * Reachable(tables.edges, {to}));
  }

  lemma {:induction false} SelectWithin(commits: seq<Oid>, keep: set<Oid>)
    ensures forall c :: c in Select(commits, keep) <==> c in commits && c in keep
  {
    if commits != [] {
      SelectWithin(commits[1..], keep);
      assert commits == [commits[0]] + commits[1..];
    }
  }

  /** A sound memo tells what a fresh evaluation finds. */
  lemma SoundMemoTells(tables: Tables, memo: Memo)
    requires SoundMemo(tables, memo)
    ensures forall d, a :: Told(tables.edges, memo, d, a) == Reaches(tables.edges, d, a)
    ensures forall f, t :: ToldRange(tables, memo, f, t) == FreshRange(tables, f, t)
  {
    hide FreshRange, Reaches;
    forall d, a ensures Told(tables.edges, memo, d, a) == Reaches(tables.edges, d, a) {
      ReachesSelf(tables.edges, d);
    }
  }

  class ReachabilityCache {
    var ancestors: map<(Oid, Oid), bool>
    var ranges: map<(Oid, Oid), seq<Oid>>

    function Content(): Memo
      reads this
    {
      Memo(ancestors, ranges)
    }

    constructor ()
      ensures Content() == NOTHING
    {
      ancestors, ranges := map[], map[];
    }

    /** Whatever the memo holds, its answer comes first; a new answer is right for the current tables. */
    method IsAncestor(tables: Tables, descendant: Oid, ancestor: Oid) returns (found: bool)
      requires descendant in tables.commits && ancestor in tables.commits
      modifies this
      ensures found == Told(tables.edges, old(Content()), descendant, ancestor)
      ensures Extends(tables, old(Content()), Content())
    {
      if descendant == ancestor {
        return true;
      }
      var key := (descendant, ancestor);
      if key in ancestors {
        return ancestors[key];
      }
      var reach := Walk(tables.edges, {descendant});
      ReachableOfOne(tables.edges, descendant, ancestor);
      found := ancestor in reach;
      ancestors := ancestors[key := found];
    }

    method MetadataTargets(tables: Tables, current: Oid, fromPrefix: Oid, toPrefix: Oid, complete: bool)
      returns (targets: Result<seq<Oid>, MetaError>)
      requires current in tables.commits
      modifies this
      ensures targets == ToldTargets(tables, old(Content()), current, fromPrefix, toPrefix, complete)
      ensures Extends(tables, old(Content()), Content())
    {
      hide Told, Extends, FreshRange;
      ExtendsItself(tables, Content());
      if !complete {
        return Failure(IncompleteRange);
      }
      var from := ResolveCommitPrefix(tables.commits, fromPrefix);
      if from.None? {
        return Failure(UnresolvedEndpoint);
      }
      var to := ResolveCommitPrefix(tables.commits, toPrefix);
      if to.None? {
        return Failure(UnresolvedEndpoint);
      }
      var fromOid, toOid := from.value, to.value;
      assert fromOid in Matches(tables.commits, fromPrefix) && toOid in Matches(tables.commits, toPrefix);
      ghost var start := Content();
      var ordered := IsAncestor(tables, toOid, fromOid);
      if !ordered {
        return Failure(NotAnAncestor);
      }
      if current == fromOid || current == toOid {
        return Failure(NotBeforeMeta);
      }
      LearningChangesNothing(tables, start, Content());
      ghost var second := Content();
      var afterFrom := IsAncestor(tables, current, fromOid);
      ExtendsTransitively(tables, start, second, Content());
      if !afterFrom {
        return Failure(NotBeforeMeta);
      }
      LearningChangesNothing(tables, start, Content());
      ghost var third := Content();
      var afterTo := IsAncestor(tables, current, toOid);
      ExtendsTransitively(tables, start, third, Content());
      if !afterTo {
        return Failure(NotBeforeMeta);
      }
      LearningChangesNothing(tables, start, Content());
      var range := SelectRange(tables, start, fromOid, toOid);
      targets := Success(range);
    }

    /** The range query behind its memo. */
    method SelectRange(tables: Tables, ghost start: Memo, from: Oid, to: Oid) returns (range: seq<Oid>)
      requires from in tables.commits && to in tables.commits && Extends(tables, start, Content())
      modifies this
      ensures range == ToldRange(tables, old(Content()), from, to)
      ensures Extends(tables, start, Content())
    {
      var key := (from, to);
      if key in ranges {
        return ranges[key];
      }
      var fromDesc := Walk(Reverse(tables.edges), {from});
      var toAnc := Walk(tables.edges, {to});
      range := Select(tables.commits, fromDesc * toAnc);
      ranges := ranges[key := range];
    }
  }

  lemma ExtendsItself(tables: Tables, memo: Memo)
    ensures Extends(tables, memo, memo)
  {
  }

  // ---------------------------------------------------------------- growth

  /** The commit is new and no earlier commit names it as a parent. */
  ghost predicate Arrives(tables: Tables, commit: Commit) {
    && commit.oid !in tables.commits
    && commit.oid !in Targets(tables.edges)
    && commit.oid !in commit.parents
    && forall e :: e in tables.edges ==> e.0 in tables.commits
  }

  lemma {:induction false} InsertArriving(tables: Tables, commit: Commit)
    requires Arrives(tables, commit)
    ensures InsertCommit(tables, commit) == Tables(tables.commits + [commit.oid], tables.edges + ParentEdges(commit))
  {
    WithoutAbsent(tables.commits, commit.oid);
    assert (set e | e in tables.edges && e.0 != commit.oid) == tables.edges;
  }

  lemma {:induction false} ReachableGrows(tables: Tables, commit: Commit, a: Oid)
    requires Arrives(tables, commit) && a != commit.oid
    ensures Reachable(InsertCommit(tables, commit).edges, {a}) == Reachable(tables.edges, {a})
  {
    InsertArriving(tables, commit);
    var here, grown := Reachable(tables.edges, {a}), tables.edges + ParentEdges(commit);
    assert commit.oid !in here;
    assert Leaving(tables.edges, here) == Leaving(grown, here);
    ReachableFrame(tables.edges, grown, {a});
  }

  lemma {:induction false} ReachGrows(tables: Tables, commit: Commit, a: Oid, b: Oid)
    requires Arrives(tables, commit) && a in tables.commits
    ensures Reaches(InsertCommit(tables, commit).edges, a, b) == Reaches(tables.edges, a, b)
  {
    ReachableGrows(tables, commit, a);
    ReachableOfOne(tables.edges, a, b);
    ReachableOfOne(InsertCommit(tables, commit).edges, a, b);
  }

  lemma {:induction false} SelectSame(commits: seq<Oid>, left: set<Oid>, right: set<Oid>)
    requires forall c :: c in commits ==> (c in left <==> c in right)
    ensures Select(commits, left) == Select(commits, right)
  {
    if commits != [] {
      SelectSame(commits[1..], left, right);
    }
  }

  lemma {:induction false} SelectAppend(commits: seq<Oid>, last: Oid, keep: set<Oid>)
    ensures Select(commits + [last], keep) == Select(commits, keep) + (if last in keep then [last] else [])
  {
    if commits != [] {
      SelectAppend(commits[1..], last, keep);
      assert (commits + [last])[1..] == commits[1..] + [last];
    }
  }

  lemma InFreshRange(edges: set<(Oid, Oid)>, from: Oid, to: Oid, c: Oid)
    ensures c in Reachable(Reverse(edges), {from}) * Reachable(edges, {to}) <==>
      Reaches(edges, c, from) && Reaches(edges, to, c)
  {
    ReachableOfOne(Reverse(edges), from, c);
    ReverseReaches(edges, from, c);
    ReachableOfOne(edges, to, c);
  }

  lemma {:induction false} RangeGrows(tables: Tables, commit: Commit, from: Oid, to: Oid)
    requires Arrives(tables, commit) && from in tables.commits && to in tables.commits
    ensures FreshRange(InsertCommit(tables, commit), from, to) == FreshRange(tables, from, to)
  {
    InsertArriving(tables, commit);
    var before, after := tables.edges, InsertCommit(tables, commit).edges;
    var keep := Reachable(Reverse(before), {from}) * Reachable(before, {to});
    var grown := Reachable(Reverse(after), {from}) * Reachable(after, {to});
    forall c | c in tables.commits ensures c in keep <==> c in grown {
      InFreshRange(before, from, to, c);
      InFreshRange(after, from, to, c);
      ReachGrows(tables, commit, c, from);
      ReachGrows(tables, commit, to, c);
    }
    SelectSame(tables.commits, keep, grown);
    SelectAppend(tables.commits, commit.oid, grown);
    ReachableGrows(tables, commit, to);
    assert commit.oid !in Reachable(before, {to});
  }

  /** Adding a commit that no stored edge names as a parent changes no memoised answer. */
  lemma {:induction false} MemoSurvivesGrowth(tables: Tables, commit: Commit, memo: Memo)
    requires SoundMemo(tables, memo) && Arrives(tables, commit)
    ensures SoundMemo(InsertCommit(tables, commit), memo)
  {
    var grown := InsertCommit(tables, commit);
    InsertArriving(tables, commit);
    forall k | k in memo.ancestors ensures SoundAncestor(grown, k, memo.ancestors[k]) {
      ReachGrows(tables, commit, k.0, k.1);
    }
    forall k | k in memo.ranges ensures SoundRange(grown, k, memo.ranges[k]) {
      RangeGrows(tables, commit, k.0, k.1);
    }
  }

  /** A replay that is not parent-first makes a memoised "no" wrong. */
  lemma {:induction false} MemoNeedsParentFirst()
    ensures var late := Commit("b", ["c"]);
            var before := TablesOf([Commit("c", []), Commit("a", ["b"])]);
            && SoundMemo(before, Memo(map[("a", "c") := false], map[]))
            && !SoundMemo(InsertCommit(before, late), Memo(map[("a", "c") := false], map[]))
  {
    hide TablesOf, Reaches;
    var before := TablesOf([Commit("c", []), Commit("a", ["b"])]);
    ChildFirstTables();
    var after := InsertCommit(before, Commit("b", ["c"]));
    ReachableOfOne(before.edges, "a", "c");
    ReachableIsLeast(before.edges, {"a"}, {"a", "b"});
    assert ("b", "c") in ParentEdges(Commit("b", ["c"]));
    ReachesSelf(after.edges, "c");
    ReachesStep(after.edges, "b", "c", "c");
    ReachesStep(after.edges, "a", "b", "c");
    var memo := Memo(map[("a", "c") := false], map[]);
    assert ("a", "c") in memo.ancestors;
    assert SoundAncestor(before, ("a", "c"), false) && !SoundAncestor(after, ("a", "c"), false);
  }

  lemma ChildFirstTables()
    ensures TablesOf([Commit("c", []), Commit("a", ["b"])]) == Tables(["c", "a"], {("a", "b")})
  {
    var history := [Commit("c", []), Commit("a", ["b"])];
    assert history[..1] == [Commit("c", [])] && history[..1][..0] == [];
    assert TablesOf(history[..1]) == InsertCommit(TablesOf([]), Commit("c", []));
    assert TablesOf(history[..1]) == Tables(["c"], {});
    assert TablesOf(history) == InsertCommit(TablesOf(history[..1]), Commit("a", ["b"]));
  }
}
