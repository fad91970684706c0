/** Reachability in a finite directed graph, as the store's recursive queries compute it. */
module Graphs {

  ghost predicate IsPath<N>(edges: set<(N, N)>, path: seq<N>) {
    && |path| > 0
    && forall i :: 0 <= i < |path| - 1 ==> (path[i], path[i + 1]) in edges
  }

  ghost predicate PathBetween<N>(edges: set<(N, N)>, path: seq<N>, a: N, b: N) {
    IsPath(edges, path) && path[0] == a && path[|path| - 1] == b
  }

  /** `b` is reachable from `a` in zero or more edges. */
  ghost predicate Reaches<N(!new)>(edges: set<(N, N)>, a: N, b: N) {
    exists path :: PathBetween(edges, path, a, b)
  }

  /** `b` is reachable from `a` in one or more edges. */
  ghost predicate StrictlyReaches<N(!new)>(edges: set<(N, N)>, a: N, b: N) {
    exists e :: e in edges && e.0 == a && Reaches(edges, e.1, b)
  }

  function Targets<N(==)>(edges: set<(N, N)>): set<N> {
    set e | e in edges :: e.1
  }

  function Reverse<N(==)>(edges: set<(N, N)>): set<(N, N)> {
    set e | e in edges :: (e.1, e.0)
  }

  /** Every node reachable from some node of `start`. */
  ghost function Reachable<N(!new)>(edges: set<(N, N)>, start: set<N>): set<N> {
    set n | n in start + Targets(edges) && exists s :: s in start && Reaches(edges, s, n)
  }

  ghost predicate Closed<N>(edges: set<(N, N)>, nodes: set<N>) {
    forall e :: e in edges && e.0 in nodes ==> e.1 in nodes
  }

  lemma ReachesSelf<N(!new)>(edges: set<(N, N)>, a: N)
    ensures Reaches(edges, a, a)
  {
    assert PathBetween(edges, [a], a, a);
  }

  lemma ReachesStep<N(!new)>(edges: set<(N, N)>, a: N, b: N, c: N)
    requires (a, b) in edges && Reaches(edges, b, c)
    ensures Reaches(edges, a, c) && StrictlyReaches(edges, a, c)
  {
    var path :| PathBetween(edges, path, b, c);
    assert PathBetween(edges, [a] + path, a, c);
    var e := (a, b);
    assert e in edges && e.0 == a && Reaches(edges, e.1, c);
  }

  lemma ReachesTransitive<N(!new)>(edges: set<(N, N)>, a: N, b: N, c: N)
    requires Reaches(edges, a, b) && Reaches(edges, b, c)
    ensures Reaches(edges, a, c)
  {
    var p :| PathBetween(edges, p, a, b);
    var q :| PathBetween(edges, q, b, c);
    assert PathBetween(edges, p + q[1..], a, c);
  }

  lemma ReachesSplit<N(!new)>(edges: set<(N, N)>, a: N, b: N)
    ensures Reaches(edges, a, b) <==> a == b || StrictlyReaches(edges, a, b)
  {
    if Reaches(edges, a, b) && a != b {
      var p :| PathBetween(edges, p, a, b);
      var e := (p[0], p[1]);
      assert PathBetween(edges, p[1..], e.1, b);
      assert e in edges && e.0 == a && Reaches(edges, e.1, b);
    }
    if a == b {
      ReachesSelf(edges, a);
    }
    if StrictlyReaches(edges, a, b) {
      var e :| e in edges && e.0 == a && Reaches(edges, e.1, b);
      ReachesStep(edges, a, e.1, b);
    }
  }

  lemma {:induction false} PathStaysIn<N(!new)>(edges: set<(N, N)>, nodes: set<N>, path: seq<N>)
    requires IsPath(edges, path) && path[0] in nodes && Closed(edges, nodes)
    ensures path[|path| - 1] in nodes
  {
    if |path| > 1 {
      assert (path[0], path[1]) in edges;
      PathStaysIn(edges, nodes, path[1..]);
    }
  }

  /** The reachable set is the least closed set that contains the start nodes. */
  lemma ReachableIsLeast<N(!new)>(edges: set<(N, N)>, start: set<N>, nodes: set<N>)
    requires start <= nodes && Closed(edges, nodes)
    ensures Reachable(edges, start) <= nodes
  {
    forall n | n in Reachable(edges, start) ensures n in nodes {
      var s :| s in start && Reaches(edges, s, n);
      var path :| PathBetween(edges, path, s, n);
      PathStaysIn(edges, nodes, path);
    }
  }

  lemma ReachableMember<N(!new)>(edges: set<(N, N)>, start: set<N>, s: N, n: N)
    requires s in start && Reaches(edges, s, n)
    ensures n in Reachable(edges, start)
  {
    var path :| PathBetween(edges, path, s, n);
    if |path| > 1 {
      var e := (path[|path| - 2], path[|path| - 1]);
      assert e in edges && e.1 == n;
      assert n in Targets(edges);
    }
  }

  lemma ReachableIsClosed<N(!new)>(edges: set<(N, N)>, start: set<N>)
    ensures start <= Reachable(edges, start)
    ensures Closed(edges, Reachable(edges, start))
  {
    forall s | s in start ensures s in Reachable(edges, start) {
      ReachesSelf(edges, s);
      ReachableMember(edges, start, s, s);
    }
    forall e | e in edges && e.0 in Reachable(edges, start) ensures e.1 in Reachable(edges, start) {
      var s :| s in start && Reaches(edges, s, e.0);
      ReachesSelf(edges, e.1);
      ReachesStep(edges, e.0, e.1, e.1);
      ReachesTransitive(edges, s, e.0, e.1);
      ReachableMember(edges, start, s, e.1);
    }
  }

  /** The edges that leave the given nodes. */
  function Leaving<N(==)>(edges: set<(N, N)>, nodes: set<N>): set<(N, N)> {
    set e | e in edges && e.0 in nodes
  }

  lemma ClosedTransfers<N>(edges: set<(N, N)>, other: set<(N, N)>, agreed: set<N>, nodes: set<N>)
    requires Leaving(edges, agreed) == Leaving(other, agreed) && nodes <= agreed && Closed(edges, nodes)
    ensures Closed(other, nodes)
  {
    forall e | e in other && e.0 in nodes ensures e.1 in nodes {
      assert e in Leaving(other, agreed);
    }
  }

  /** `nodes` is the least set that contains the start nodes and is closed under the edges. */
  ghost predicate IsClosure<N(!new)>(edges: set<(N, N)>, start: set<N>, nodes: set<N>) {
    && start <= nodes
    && Closed(edges, nodes)
    && forall other {:trigger Closed(edges, other)} :: start <= other && Closed(edges, other) ==> nodes <= other
  }

  lemma ReachableIsClosure<N(!new)>(edges: set<(N, N)>, start: set<N>)
    ensures IsClosure(edges, start, Reachable(edges, start))
  {
    ReachableIsClosed(edges, start);
    forall other | start <= other && Closed(edges, other) ensures Reachable(edges, start) <= other {
      ReachableIsLeast(edges, start, other);
    }
  }

  lemma ClosureFrame<N(!new)>(edges: set<(N, N)>, other: set<(N, N)>, start: set<N>, here: set<N>, there: set<N>)
    requires IsClosure(edges, start, here) && IsClosure(other, start, there)
    requires Leaving(edges, here) == Leaving(other, here)
    ensures here == there
  {
    ClosedTransfers(edges, other, here, here);
    ClosedTransfers(other, edges, here, there);
  }

  /** Two edge sets that agree on the edges leaving the reachable set reach the same nodes. */
  lemma ReachableFrame<N(!new)>(edges: set<(N, N)>, other: set<(N, N)>, start: set<N>)
    requires Leaving(edges, Reachable(edges, start)) == Leaving(other, Reachable(edges, start))
    ensures Reachable(other, start) == Reachable(edges, start)
  {
    ReachableIsClosure(edges, start);
    ReachableIsClosure(other, start);
    ClosureFrame(edges, other, start, Reachable(edges, start), Reachable(other, start));
  }

  lemma ReachableOfOne<N(!new)>(edges: set<(N, N)>, a: N, b: N)
    ensures b in Reachable(edges, {a}) <==> Reaches(edges, a, b)
  {
    if Reaches(edges, a, b) {
      ReachableMember(edges, {a}, a, b);
    }
  }

  lemma {:induction false} ReversedPath<N>(edges: set<(N, N)>, path: seq<N>) returns (back: seq<N>)
    requires IsPath(edges, path)
    ensures PathBetween(Reverse(edges), back, path[|path| - 1], path[0])
  {
    if |path| == 1 {
      back := path;
    } else {
      var rest := ReversedPath(edges, path[1..]);
      assert (path[0], path[1]) in edges;
      assert (path[1], path[0]) in Reverse(edges);
      back := rest + [path[0]];
    }
  }

  lemma ReverseReaches<N(!new)>(edges: set<(N, N)>, a: N, b: N)
    ensures Reaches(Reverse(edges), a, b) <==> Reaches(edges, b, a)
  {
    assert Reverse(Reverse(edges)) == edges by {
      forall e | e in edges ensures e in Reverse(Reverse(edges)) {
        assert (e.1, e.0) in Reverse(edges);
      }
    }
    if Reaches(edges, b, a) {
      var p :| PathBetween(edges, p, b, a);
      var q := ReversedPath(edges, p);
    }
    if Reaches(Reverse(edges), a, b) {
      var p :| PathBetween(Reverse(edges), p, a, b);
      var q := ReversedPath(Reverse(edges), p);
    }
  }

  /** The recursive query: take a queued row, add the rows it joins to that were not seen before. */
  method Walk<N(==, !new)>(edges: set<(N, N)>, start: set<N>) returns (seen: set<N>)
    ensures seen == Reachable(edges, start)
  {
    hide Reachable;
    seen := start;
    var queue := start;
    ReachableIsClosed(edges, start);
    while queue != {}
      invariant start <= seen <= Reachable(edges, start)
      invariant queue <= seen
      invariant forall e :: e in edges && e.0 in seen - queue ==> e.1 in seen
      decreases Targets(edges) + start - seen, queue
    {
      var next :| next in queue;
      var found := set e | e in edges && e.0 == next && e.1 !in seen :: e.1;
      ghost var before := seen;
      forall n | n in found ensures n in Targets(edges) && n in Reachable(edges, start) {
        var e :| e in edges && e.0 == next && e.1 !in seen && e.1 == n;
      }
      queue := queue - {next} + found;
      seen := seen + found;
      if found == {} {
        assert seen == before;
      }
    }
    ReachableIsLeast(edges, start, seen);
  }
}
