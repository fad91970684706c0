/** The conflict flag after a whole replay, against the declarative definition, with a history on which they differ. */
module MetadataVerdicts {
  import opened Graphs
  import opened MetaRange
  import opened MetaRefinement
  import opened Metadata
  import opened Projection
  import opened ProjectionRefinement
  import opened Results

  /** When a commit's turn comes, no stored source of any slot descends from it. */
  lemma {:induction false} ReplayMeetsNoDescendant(updates: seq<Update>, n: nat, slot: Slot)
    requires ParentFirst(History(updates)) && FullEndpoints(updates) && n < |updates|
      && Replay(FRESH, updates, n).Success?
    ensures NoKeptDescendant(Ancestry(FinalEdges(updates)),
                             RowsAt(Replay(FRESH, updates, n).value.overlay.assignments, slot), updates[n].commit.oid)
  {
    hide TablesOf, Replay, ParentFirst, FullEndpoints, DeclaredLog, KeptAfter, Shown, Reaches;
    ReplayHolds(updates, n, slot);
    var history, rows := History(updates), RowsAt(Replay(FRESH, updates, n).value.overlay.assignments, slot);
    forall k | k in rows ensures !Descends(Ancestry(FinalEdges(updates)), k, updates[n].commit.oid) {
      var i :| 0 <= i < n && Oids(history[..n])[i] == k;
      assert history[i].oid == k;
      ReachesSplit(FinalEdges(updates), k, updates[n].commit.oid);
      InStrictAncestors(FinalEdges(updates), k, updates[n].commit.oid);
      if updates[n].commit.oid in StrictAncestors(FinalEdges(updates), k) {
        AncestorsComeFirst(history, i, n);
      }
    }
  }

  /**
   * End to end: after a successful replay the conflict flag of an assigned slot differs from the verdict of the
   * declarative definition if and only if the stored rows hide a disagreement.
   */
  lemma {:induction false} FlagDiffersExactly(updates: seq<Update>, slot: Slot, listing: seq<ReachableAssignment>)
    requires ParentFirst(History(updates)) && FullEndpoints(updates)
    requires Replay(FRESH, updates, |updates|).Success?
    requires DeclaredLog(updates, slot, |updates|) != []
    requires Lists(Ancestry(FinalEdges(updates)), Latest(DeclaredLog(updates, slot, |updates|)), listing)
    ensures var o := Replay(FRESH, updates, |updates|).value.overlay;
            && slot.target in o.metadata
            && ((slot.key in o.metadata[slot.target].conflicts <==> ResolveMetadataAssignments(listing).Conflict?)
                <==> !HiddenDisagreement(Ancestry(FinalEdges(updates)), RowsAt(o.assignments, slot)))
  {
    hide TablesOf, Replay, DeclaredLog, Lists, ResolveMetadataAssignments, ParentFirst, FullEndpoints,
      HiddenDisagreement;
    var reach, log := Ancestry(FinalEdges(updates)), DeclaredLog(updates, slot, |updates|);
    ReplayHolds(updates, |updates|, slot);
    AncestryIsPartialOrder(History(updates));
    VerdictDiffersExactly(reach, log, listing);
    FlagShowsConflict(Replay(FRESH, updates, |updates|).value.overlay, slot, reach, log);
  }

  lemma {:induction false} FlagShowsConflict(o: Overlay, slot: Slot, reach: Relation, log: seq<Assignment>)
    requires Shown(o, slot) && RowsAt(o.assignments, slot) == KeptAfter(reach, log) && log != []
    ensures slot.target in o.metadata
    ensures slot.key in o.metadata[slot.target].conflicts <==> Conflicted(KeptAfter(reach, log))
  {
    assert log[|log| - 1].source in KeptAfter(reach, log);
  }

  // ---------------------------------------------------------------- a history on which they differ

  function Root(t: Oid): Update {
    Update(Commit(t, []), None, [], true)
  }

  /** A META commit that sets the owner of commit `t`. */
  function Claim(oid: Oid, parent: Oid, t: Oid, owner: Option<string>): Update {
    Update(Commit(oid, [parent]), None, [MetadataPatch(t, t, [Operation(Owner, owner)])], true)
  }

  /** Two concurrent claims disagree; a child of the second restates the first. */
  function Claims(t: Oid, a: Oid, b: Oid, s: Oid, x: Option<string>, y: Option<string>): seq<Update> {
    [Root(t), Claim(a, t, t, x), Claim(b, t, t, y), Claim(s, b, t, x)]
  }

  /** Four different OIDs, none of the others abbreviated by the root's. */
  predicate Apart(t: Oid, a: Oid, b: Oid, s: Oid) {
    a != b && a != s && b != s && t != a && t != b && t != s && !(t <= a) && !(t <= b) && !(t <= s)
  }

  lemma ClaimsHistory(t: Oid, a: Oid, b: Oid, s: Oid, x: Option<string>, y: Option<string>)
    ensures History(Claims(t, a, b, s, x, y)) == [Commit(t, []), Commit(a, [t]), Commit(b, [t]), Commit(s, [b])]
  {
  }

  lemma ClaimsAreParentFirst(t: Oid, a: Oid, b: Oid, s: Oid, x: Option<string>, y: Option<string>)
    requires Apart(t, a, b, s)
    ensures var updates := Claims(t, a, b, s, x, y); ParentFirst(History(updates)) && FullEndpoints(updates)
  {
    hide History, FullOid;
    var updates := Claims(t, a, b, s, x, y);
    ClaimsHistory(t, a, b, s, x, y);
    RootIsFull(t, a, b, s);
    forall i, p | 0 <= i < |updates| && p in updates[i].actions && p.MetadataPatch?
      ensures FullOid(History(updates), p.from) && FullOid(History(updates), p.to)
    {
      assert p.from == t && p.to == t;
    }
  }

  lemma RootIsFull(t: Oid, a: Oid, b: Oid, s: Oid)
    requires Apart(t, a, b, s)
    ensures FullOid([Commit(t, []), Commit(a, [t]), Commit(b, [t]), Commit(s, [b])], t)
  {
  }

  lemma ClaimsEdges(t: Oid, a: Oid, b: Oid, s: Oid, x: Option<string>, y: Option<string>)
    requires Apart(t, a, b, s)
    ensures FinalEdges(Claims(t, a, b, s, x, y)) == {(a, t), (b, t), (s, b)}
  {
    hide TablesOf, ParentFirst, Apart;
    ClaimsHistory(t, a, b, s, x, y);
    ClaimsAreParentFirst(t, a, b, s, x, y);
    var history := [Commit(t, []), Commit(a, [t]), Commit(b, [t]), Commit(s, [b])];
    TablesShape(history);
    EdgesOfFour(t, a, b, s, TablesOf(history).edges);
  }

  lemma EdgesOfFour(t: Oid, a: Oid, b: Oid, s: Oid, edges: set<(Oid, Oid)>)
    requires EdgesMirror([Commit(t, []), Commit(a, [t]), Commit(b, [t]), Commit(s, [b])], edges)
    ensures edges == {(a, t), (b, t), (s, b)}
  {
    var history := [Commit(t, []), Commit(a, [t]), Commit(b, [t]), Commit(s, [b])];
    assert t in history[1].parents && t in history[2].parents && b in history[3].parents;
    assert (history[1].oid, t) in edges && (history[2].oid, t) in edges && (history[3].oid, b) in edges;
    forall e | e in edges ensures e in {(a, t), (b, t), (s, b)} {
      var k :| 0 <= k < |history| && history[k].oid == e.0 && e.1 in history[k].parents;
    }
  }

  lemma ClaimsReach(t: Oid, a: Oid, b: Oid, s: Oid)
    requires Apart(t, a, b, s)
    ensures var edges := {(a, t), (b, t), (s, b)};
            forall c :: && (Reaches(edges, t, c) <==> c in {t}) && (Reaches(edges, a, c) <==> c in {a, t})
                        && (Reaches(edges, b, c) <==> c in {b, t}) && (Reaches(edges, s, c) <==> c in {s, b, t})
  {
    hide Reaches, StrictlyReaches;
    var edges := {(a, t), (b, t), (s, b)};
    ReachesSelf(edges, t);
    ReachesSelf(edges, a);
    ReachesSelf(edges, b);
    ReachesSelf(edges, s);
    ReachesStep(edges, a, t, t);
    ReachesStep(edges, b, t, t);
    ReachesStep(edges, s, b, b);
    ReachesStep(edges, s, b, t);
    forall c ensures && (Reaches(edges, t, c) ==> c in {t}) && (Reaches(edges, a, c) ==> c in {a, t})
                     && (Reaches(edges, b, c) ==> c in {b, t}) && (Reaches(edges, s, c) ==> c in {s, b, t})
    {
      OnlyReaches(edges, t, {t}, c);
      OnlyReaches(edges, a, {a, t}, c);
      OnlyReaches(edges, b, {b, t}, c);
      OnlyReaches(edges, s, {s, b, t}, c);
    }
  }

  lemma ClaimsAncestors(t: Oid, a: Oid, b: Oid, s: Oid)
    requires Apart(t, a, b, s)
    ensures var edges := {(a, t), (b, t), (s, b)};
            && StrictAncestors(edges, t) == {} && StrictAncestors(edges, a) == {t}
            && StrictAncestors(edges, b) == {t} && StrictAncestors(edges, s) == {b, t}
  {
    hide Reaches, StrictAncestors;
    var edges := {(a, t), (b, t), (s, b)};
    ClaimsReach(t, a, b, s);
    forall c, d
      ensures d in StrictAncestors(edges, c) <==> exists e :: e in edges && e.0 == c && Reaches(edges, e.1, d)
    {
      InStrictAncestors(edges, c, d);
    }
    assert (a, t) in edges && (b, t) in edges && (s, b) in edges;
  }

  lemma OnlyReaches(edges: set<(Oid, Oid)>, from: Oid, nodes: set<Oid>, c: Oid)
    requires from in nodes && Closed(edges, nodes)
    ensures Reaches(edges, from, c) ==> c in nodes
  {
    ReachableIsLeast(edges, {from}, nodes);
    ReachableOfOne(edges, from, c);
  }

  lemma {:induction false} NothingBelow(membership: seq<TrailCommit>, root: TrailCommit)
    requires root.ancestors == {} && forall k :: 0 <= k < |membership| ==> membership[k].oid != root.oid
    ensures InRange(membership, root, root) == []
  {
    if membership != [] {
      NothingBelow(membership[1..], root);
    }
  }

  /** Each of the three patches covers the root alone. */
  lemma ClaimsTargetRoot(t: Oid, a: Oid, b: Oid, s: Oid, x: Option<string>, y: Option<string>, i: nat)
    requires Apart(t, a, b, s) && 1 <= i < 4
    ensures DeclaredTargets(Claims(t, a, b, s, x, y), i, t, t) == Success([t])
  {
    hide TablesOf, StrictAncestors, ParentFirst, FullEndpoints, InRange;
    var updates := Claims(t, a, b, s, x, y);
    var history, edges := History(updates), FinalEdges(updates);
    ClaimsAreParentFirst(t, a, b, s, x, y);
    ClaimsEdges(t, a, b, s, x, y);
    ClaimsAncestors(t, a, b, s);
    var members := Membership(history, edges);
    assert history[0].oid == t && history[1].oid == a && history[2].oid == b && history[3].oid == s;
    FindIn(history, edges, 0);
    FindIn(history, edges, i);
    var root := members[0];
    forall k | 0 <= k < 3 ensures members[1..][k].oid != root.oid {
      assert members[1..][k] == members[k + 1];
    }
    OnlyRoot(members, root);
  }

  lemma {:induction false} OnlyRoot(members: seq<TrailCommit>, root: TrailCommit)
    requires members != [] && members[0] == root && root.ancestors == {}
    requires forall k :: 0 <= k < |members| - 1 ==> members[1..][k].oid != root.oid
    ensures InRange(members, root, root) == [root.oid]
  {
    NothingBelow(members[1..], root);
  }

  lemma ClaimsDeclare(t: Oid, a: Oid, b: Oid, s: Oid, x: Option<string>, y: Option<string>)
    requires Apart(t, a, b, s)
    ensures var updates := Claims(t, a, b, s, x, y);
            && DeclaredLog(updates, Slot(t, Owner), 4) == [Assignment(a, x), Assignment(b, y), Assignment(s, x)]
            && forall i :: 0 <= i < 4 ==> Admissible(updates, i)
  {
    hide DeclaredTargets, Chosen;
    var updates, slot := Claims(t, a, b, s, x, y), Slot(t, Owner);
    forall i | 1 <= i < 4 ensures DeclaredTargets(updates, i, t, t) == Success([t]) {
      ClaimsTargetRoot(t, a, b, s, x, y, i);
    }
    OneChosen(x, a);
    OneChosen(y, b);
    OneChosen(x, s);
    forall i | 1 <= i < 4
      ensures DeclaredByActions(updates, i, slot, 1) == DeclaredByAction(updates, i, slot, updates[i].actions[0])
    {
      assert DeclaredByActions(updates, i, slot, 0) == [];
    }
    assert DeclaredByActions(updates, 1, slot, 1) == [Assignment(a, x)];
    assert DeclaredByActions(updates, 2, slot, 1) == [Assignment(b, y)];
    assert DeclaredByActions(updates, 3, slot, 1) == [Assignment(s, x)];
    assert DeclaredLog(updates, slot, 1) == [];
    assert DeclaredLog(updates, slot, 2) == [Assignment(a, x)];
    assert DeclaredLog(updates, slot, 3) == [Assignment(a, x), Assignment(b, y)];
  }

  lemma OneChosen(v: Option<string>, source: Oid)
    ensures Chosen([Operation(Owner, v)], Owner, source, 1) == [Assignment(source, v)]
  {
    assert Chosen([Operation(Owner, v)], Owner, source, 0) == [];
  }

  lemma ClaimsRows(reach: Relation, a: Oid, b: Oid, s: Oid, x: Option<string>, y: Option<string>)
    requires a != b && a != s && b != s && x != y
    requires reach(s, b) && !reach(b, a) && !reach(s, a) && !reach(a, s) && !reach(b, s) && !reach(a, b)
    ensures var log := [Assignment(a, x), Assignment(b, y), Assignment(s, x)];
            Conflicted(KeptAfter(reach, log)) && Maximal(reach, Latest(log)).Values == {x}
  {
    var log := [Assignment(a, x), Assignment(b, y), Assignment(s, x)];
    ThreeSteps(reach, log[0], log[1], log[2]);
    var kept := KeptAfter(reach, log);
    assert kept[a] in kept.Values && kept[b] in kept.Values;
    OneValue(kept.Values, kept[a], kept[b]);
    var maximal := Maximal(reach, Latest(log));
    assert Descends(reach, s, b);
    assert a in maximal && b !in maximal;
    OnlyValue(maximal, a, x);
  }

  /**
   * A parent-first history of four commits after whose replay the owner of the root is flagged as conflicting although
   * the declarative definition resolves it.
   */
  lemma FlaggedThoughResolved(t: Oid, a: Oid, b: Oid, s: Oid, x: Option<string>, y: Option<string>)
    requires Apart(t, a, b, s) && x != y
    ensures var updates := Claims(t, a, b, s, x, y);
            var listing := [ReachableAssignment(a, x, {t}), ReachableAssignment(b, y, {t}),
                            ReachableAssignment(s, x, {b, t})];
            && ParentFirst(History(updates)) && FullEndpoints(updates)
            && Lists(Ancestry(FinalEdges(updates)), Latest(DeclaredLog(updates, Slot(t, Owner), 4)), listing)
            && ResolveMetadataAssignments(listing) == Resolved(x)
            && Replay(FRESH, updates, 4).Success?
            && t in Replay(FRESH, updates, 4).value.overlay.metadata
            && Owner in Replay(FRESH, updates, 4).value.overlay.metadata[t].conflicts
  {
    hide TablesOf, Replay, DeclaredLog, ResolveMetadataAssignments, Reaches, ParentFirst, FullEndpoints, Admissible,
      KeptAfter, Maximal;
    var updates, slot := Claims(t, a, b, s, x, y), Slot(t, Owner);
    var listing := [ReachableAssignment(a, x, {t}), ReachableAssignment(b, y, {t}), ReachableAssignment(s, x, {b, t})];
    ClaimsAreParentFirst(t, a, b, s, x, y);
    ClaimsEdges(t, a, b, s, x, y);
    ClaimsReach(t, a, b, s);
    ClaimsDeclare(t, a, b, s, x, y);
    ReplayHolds(updates, 4, slot);
    var reach, log := Ancestry(FinalEdges(updates)), DeclaredLog(updates, slot, 4);
    ClaimsRows(reach, a, b, s, x, y);
    ThreeSteps(reach, log[0], log[1], log[2]);
    ClaimsListed(reach, listing, log, t, a, b, s);
    DefinitionByMaximal(reach, Latest(log), listing, x);
    FlagShowsConflict(Replay(FRESH, updates, 4).value.overlay, slot, reach, log);
  }

  lemma {:induction false} ClaimsListed(reach: Relation, listing: seq<ReachableAssignment>, log: seq<Assignment>,
      t: Oid, a: Oid, b: Oid, s: Oid)
    requires |log| == 3 && log[0].source == a && log[1].source == b && log[2].source == s
    requires a != b && a != s && b != s && t != a && t != b && t != s
    requires Latest(log) == map[a := log[0].value, b := log[1].value, s := log[2].value]
    requires listing == [ReachableAssignment(a, log[0].value, {t}), ReachableAssignment(b, log[1].value, {t}),
                         ReachableAssignment(s, log[2].value, {b, t})]
    requires forall c ::
      && (reach(a, c) <==> c in {a, t})
      && (reach(b, c) <==> c in {b, t})
      && (reach(s, c) <==> c in {s, b, t})
    ensures Lists(reach, Latest(log), listing)
  {
    assert listing[0] in listing && listing[1] in listing && listing[2] in listing;
    forall source | source in Latest(log) ensures Listed(listing, source) {
    }
  }
}
