/** A whole parent-first replay stores the metadata that the declarative definitions give. */
module ProjectionRefinement {
  import opened Graphs
  import opened Results
  import opened MetaRange
  import opened MetaRefinement
  import opened Metadata
  import opened Projection

  function History(updates: seq<Update>): (r: seq<Commit>)
    ensures |r| == |updates|
    ensures forall k :: 0 <= k < |r| ==> r[k] == updates[k].commit
  {
    seq(|updates|, k requires 0 <= k < |updates| => updates[k].commit)
  }

  ghost function FinalEdges(updates: seq<Update>): set<(Oid, Oid)> {
    TablesOf(History(updates)).edges
  }

  // ---------------------------------------------------------------- what the updates declare

  /** The declarative range of a patch carried by update `i`, over the whole membership. */
  ghost function DeclaredTargets(updates: seq<Update>, i: nat, from: Oid, to: Oid): Result<seq<Oid>, MetaError>
    requires i < |updates|
  {
    ResolveMetaRange(Membership(History(updates), FinalEdges(updates)), updates[i].commit.oid, from, to,
      updates[i].complete)
  }

  function Chosen(operations: seq<Operation>, key: MetaKey, source: Oid, n: nat): seq<Assignment>
    requires n <= |operations|
  {
    if n == 0 then []
    else
      var before := Chosen(operations, key, source, n - 1);
      if operations[n - 1].key == key then before + [Assignment(source, operations[n - 1].value)] else before
  }

  ghost function DeclaredByAction(updates: seq<Update>, i: nat, slot: Slot, action: Action): seq<Assignment>
    requires i < |updates|
  {
    match action
    case MetadataPatch(from, to, operations) =>
      var targets := DeclaredTargets(updates, i, from, to);
      if targets.Success? && slot.target in targets.value
      then Chosen(operations, slot.key, updates[i].commit.oid, |operations|) else []
    case _ => []
  }

  ghost function DeclaredByActions(updates: seq<Update>, i: nat, slot: Slot, m: nat): seq<Assignment>
    requires i < |updates| && m <= |updates[i].actions|
  {
    if m == 0 then []
    else DeclaredByActions(updates, i, slot, m - 1) + DeclaredByAction(updates, i, slot, updates[i].actions[m - 1])
  }

  /** The assignments that the first `n` updates make to a target and key, in replay order. */
  ghost function DeclaredLog(updates: seq<Update>, slot: Slot, n: nat): seq<Assignment>
    requires n <= |updates|
  {
    if n == 0 then []
    else DeclaredLog(updates, slot, n - 1) + DeclaredByActions(updates, n - 1, slot, |updates[n - 1].actions|)
  }

  ghost predicate FullEndpoints(updates: seq<Update>) {
    forall i, a :: 0 <= i < |updates| && a in updates[i].actions && a.MetadataPatch? ==>
      FullOid(History(updates), a.from) && FullOid(History(updates), a.to)
  }

  /** Every declared range succeeds, and entries are added only to commits replayed by then. */
  ghost predicate AdmissibleAction(updates: seq<Update>, i: nat, action: Action)
    requires i < |updates|
  {
    match action
    case Effect(effect) => effect.AddEntry? ==> effect.oid in Oids(History(updates)[..i + 1])
    case MetadataPatch(from, to, _) => DeclaredTargets(updates, i, from, to).Success?
    case Diagnose(_) => true
  }

  ghost predicate Admissible(updates: seq<Update>, i: nat)
    requires i < |updates|
  {
    forall m :: 0 <= m < |updates[i].actions| ==> AdmissibleAction(updates, i, updates[i].actions[m])
  }

  // ---------------------------------------------------------------- rows of one slot

  ghost function AssignAll(reach: Relation, kept: Rows, log: seq<Assignment>): Rows {
    if log == [] then kept else AssignStep(reach, AssignAll(reach, kept, log[..|log| - 1]), log[|log| - 1])
  }

  lemma {:induction false} KeptAfterMore(reach: Relation, log: seq<Assignment>, more: seq<Assignment>)
    ensures KeptAfter(reach, log + more) == AssignAll(reach, KeptAfter(reach, log), more)
  {
    hide AssignStep;
    if more == [] {
      assert log + more == log;
    } else {
      var n := |more| - 1;
      assert (log + more)[..|log + more| - 1] == log + more[..n];
      KeptAfterMore(reach, log, more[..n]);
    }
  }

  lemma {:induction false} OperationsAtSlot(reach: Relation, o: Overlay, target: Oid, source: Oid,
      operations: seq<Operation>, n: nat, slot: Slot)
    requires n <= |operations|
    ensures RowsAt(AssignOperations(reach, o, target, source, operations, n).assignments, slot)
         == if slot.target == target
            then AssignAll(reach, RowsAt(o.assignments, slot), Chosen(operations, slot.key, source, n))
            else RowsAt(o.assignments, slot)
  {
    hide AssignStep, Reflect;
    if n > 0 {
      OperationsAtSlot(reach, o, target, source, operations, n - 1, slot);
      var before := Chosen(operations, slot.key, source, n - 1);
      var a := Assignment(source, operations[n - 1].value);
      assert (before + [a])[..|before + [a]| - 1] == before;
    }
  }

  /** The slot has no rows, or its column and conflict flag already say what the rows say. */
  ghost predicate Shown(o: Overlay, slot: Slot) {
    var rows := RowsAt(o.assignments, slot);
    rows == map[] || (slot.target in o.metadata
      && Reflect(o.metadata[slot.target], slot.key, rows) == o.metadata[slot.target])
  }

  lemma {:induction false} AssignOneShown(reach: Relation, o: Overlay, target: Oid, source: Oid,
      operation: Operation, slot: Slot)
    requires target in o.metadata && Shown(o, slot)
    ensures Shown(AssignOne(reach, o, target, source, operation), slot)
    ensures AssignOne(reach, o, target, source, operation).metadata.Keys == o.metadata.Keys
  {
    hide AssignStep, Metadata.Conflicted, AgreedValue;
    var after := AssignOne(reach, o, target, source, operation);
    if slot.target == target && slot.key == operation.key {
      var rows := RowsAt(after.assignments, slot);
      assert rows != map[] ==>
        var reflected := Reflect(o.metadata[target], slot.key, rows);
        Reflect(reflected, slot.key, rows) == reflected;
    }
  }

  lemma {:induction false} OperationsShown(reach: Relation, o: Overlay, target: Oid, source: Oid,
      operations: seq<Operation>, n: nat, slot: Slot)
    requires n <= |operations| && target in o.metadata && Shown(o, slot)
    ensures Shown(AssignOperations(reach, o, target, source, operations, n), slot)
    ensures AssignOperations(reach, o, target, source, operations, n).metadata.Keys == o.metadata.Keys
  {
    hide AssignOne, Shown;
    if n > 0 {
      OperationsShown(reach, o, target, source, operations, n - 1, slot);
      var before := AssignOperations(reach, o, target, source, operations, n - 1);
      assert target in before.metadata.Keys;
      AssignOneShown(reach, before, target, source, operations[n - 1], slot);
    }
  }

  lemma {:induction false} TargetsShown(reach: Relation, o: Overlay, targets: seq<Oid>, source: Oid,
      operations: seq<Operation>, n: nat, slot: Slot)
    requires n <= |targets| && Shown(o, slot) && forall t :: t in targets ==> t in o.metadata
    ensures Shown(AssignTargets(reach, o, targets, source, operations, n), slot)
    ensures AssignTargets(reach, o, targets, source, operations, n).metadata.Keys == o.metadata.Keys
  {
    hide AssignOperations, Shown;
    if n > 0 {
      TargetsShown(reach, o, targets, source, operations, n - 1, slot);
      var before := AssignTargets(reach, o, targets, source, operations, n - 1);
      assert targets[n - 1] in before.metadata.Keys;
      OperationsShown(reach, before, targets[n - 1], source, operations, |operations|, slot);
    }
  }

  ghost predicate Distinct(targets: seq<Oid>) {
    forall i, j :: 0 <= i < j < |targets| ==> targets[i] != targets[j]
  }

  lemma {:induction false} TargetsAtSlot(reach: Relation, o: Overlay, targets: seq<Oid>, source: Oid,
      operations: seq<Operation>, n: nat, slot: Slot)
    requires n <= |targets| && Distinct(targets)
    ensures RowsAt(AssignTargets(reach, o, targets, source, operations, n).assignments, slot)
         == if slot.target in targets[..n]
            then AssignAll(reach, RowsAt(o.assignments, slot),
              Chosen(operations, slot.key, source, |operations|))
            else RowsAt(o.assignments, slot)
  {
    hide AssignAll, AssignOperations, RowsAt;
    if n > 0 {
      TargetsAtSlot(reach, o, targets, source, operations, n - 1, slot);
      var before := AssignTargets(reach, o, targets, source, operations, n - 1);
      OperationsAtSlot(reach, before, targets[n - 1], source, operations, |operations|, slot);
      assert targets[..n] == targets[..n - 1] + [targets[n - 1]];
      assert targets[n - 1] !in targets[..n - 1];
    }
  }

  lemma {:induction false} AssignAllStable(reach: Relation, other: Relation, kept: Rows, log: seq<Assignment>,
      source: Oid)
    requires forall a :: a in log ==> a.source == source
    requires forall p :: p in kept || p == source ==> reach(source, p) == other(source, p)
    ensures AssignAll(reach, kept, log) == AssignAll(other, kept, log)
    ensures forall p :: p in AssignAll(reach, kept, log) ==> p in kept || p == source
  {
    if log != [] {
      var n := |log| - 1;
      assert log[n] in log;
      AssignAllStable(reach, other, kept, log[..n], source);
    }
  }

  lemma {:induction false} ChosenSources(operations: seq<Operation>, key: MetaKey, source: Oid, n: nat)
    requires n <= |operations|
    ensures forall a :: a in Chosen(operations, key, source, n) ==> a.source == source
  {
    if n > 0 {
      ChosenSources(operations, key, source, n - 1);
    }
  }

  // ---------------------------------------------------------------- one action of the replay

  /** The tables are those of the first `n` commits, and the slot keeps what the definition of the log keeps. */
  ghost predicate SlotHolds(updates: seq<Update>, t: State, n: nat, slot: Slot, log: seq<Assignment>)
    requires n <= |updates|
  {
    && t.tables == TablesOf(History(updates)[..n])
    && RowsAt(t.overlay.assignments, slot) == KeptAfter(Ancestry(FinalEdges(updates)), log)
    && (forall p :: p in RowsAt(t.overlay.assignments, slot) ==> p in Oids(History(updates)[..n]))
    && (forall c :: c in t.tables.commits ==> c in t.overlay.metadata)
    && Shown(t.overlay, slot)
  }

  lemma {:induction false} SelectDistinct(commits: seq<Oid>, keep: set<Oid>)
    requires Distinct(commits)
    ensures Distinct(Select(commits, keep))
  {
    if commits != [] {
      assert Distinct(commits[1..]) by {
        forall i, j | 0 <= i < j < |commits| - 1 ensures commits[1..][i] != commits[1..][j] {
          assert commits[i + 1] != commits[j + 1];
        }
      }
      SelectDistinct(commits[1..], keep);
      SelectWithin(commits[1..], keep);
      assert commits[0] !in commits[1..];
    }
  }

  lemma {:induction false} TargetsDistinct(history: seq<Commit>, n: nat, current: Oid, from: Oid, to: Oid,
      complete: bool)
    requires ParentFirst(history) && n <= |history|
    requires FreshTargets(TablesOf(history[..n]), current, from, to, complete).Success?
    ensures Distinct(FreshTargets(TablesOf(history[..n]), current, from, to, complete).value)
  {
    hide TablesOf, Reachable, Select, Told;
    var tables := TablesOf(history[..n]);
    TablesShape(history[..n]);
    var f, t := ResolveCommitPrefix(tables.commits, from).value, ResolveCommitPrefix(tables.commits, to).value;
    SelectDistinct(tables.commits, Reachable(Reverse(tables.edges), {f}) * Reachable(tables.edges, {t}));
  }

  lemma {:induction false} StableAncestry(history: seq<Commit>, i: nat, p: Oid)
    requires ParentFirst(history) && i < |history| && p in Oids(history[..i + 1])
    ensures Ancestry(TablesOf(history[..i + 1]).edges)(history[i].oid, p)
      == Ancestry(TablesOf(history).edges)(history[i].oid, p)
  {
    hide TablesOf, FreshRange, Reaches;
    assert history[..|history|] == history;
    assert Oids(history[..i + 1])[i] == history[i].oid;
    AnswersNeverChange(history, i + 1, |history|, history[i].oid, p);
  }

  lemma {:induction false} PatchStep(updates: seq<Update>, i: nat, t: State, slot: Slot, log: seq<Assignment>,
      targets: seq<Oid>, operations: seq<Operation>)
    requires ParentFirst(History(updates)) && i < |updates| && SlotHolds(updates, t, i + 1, slot, log)
      && Distinct(targets)
    requires forall x :: x in targets ==> x in t.tables.commits
    ensures var source := updates[i].commit.oid;
            var patched := AssignTargets(Ancestry(t.tables.edges), t.overlay, targets, source, operations, |targets|);
            var after := t.(overlay := patched);
            var made := if slot.target in targets then Chosen(operations, slot.key, source, |operations|) else [];
            SlotHolds(updates, after, i + 1, slot, log + made)
  {
    hide TablesOf, AssignTargets, AssignStep, Ancestry, KeptAfter, Shown;
    TargetsShown(Ancestry(t.tables.edges), t.overlay, targets, updates[i].commit.oid, operations, |targets|, slot);
    var history, source := History(updates), updates[i].commit.oid;
    var rows := RowsAt(t.overlay.assignments, slot);
    var made := if slot.target in targets then Chosen(operations, slot.key, source, |operations|) else [];
    assert targets[..|targets|] == targets;
    TargetsAtSlot(Ancestry(t.tables.edges), t.overlay, targets, source, operations, |targets|, slot);
    ChosenSources(operations, slot.key, source, |operations|);
    assert Oids(history[..i + 1])[i] == source;
    forall p | p in rows || p == source
      ensures Ancestry(t.tables.edges)(source, p) == Ancestry(FinalEdges(updates))(source, p)
    {
      StableAncestry(history, i, p);
    }
    AssignAllStable(Ancestry(t.tables.edges), Ancestry(FinalEdges(updates)), rows, made, source);
    KeptAfterMore(Ancestry(FinalEdges(updates)), log, made);
  }

  /** With nothing memoised the told ancestry is the ancestry. */
  lemma {:induction false} FreshPatch(t: State, source: Oid, targets: seq<Oid>, operations: seq<Operation>)
    ensures AssignTargets(ToldAncestry(t.tables.edges, NOTHING), t.overlay, targets, source, operations, |targets|)
         == AssignTargets(Ancestry(t.tables.edges), t.overlay, targets, source, operations, |targets|)
  {
    hide AssignTargets, Told, Reaches;
    EmptyIsSound(t.tables);
    SoundMemoTells(t.tables, NOTHING);
    var told, reach := ToldAncestry(t.tables.edges, NOTHING), Ancestry(t.tables.edges);
    AlikeTargets(told, reach, t.overlay, targets, source, operations, |targets|);
  }

  lemma {:induction false} ActionStep(updates: seq<Update>, i: nat, t: State, slot: Slot, log: seq<Assignment>,
      action: Action)
    requires ParentFirst(History(updates)) && FullEndpoints(updates) && i < |updates| && action in updates[i].actions
    requires SlotHolds(updates, t, i + 1, slot, log)
    ensures Act(t, NOTHING, updates[i], action).Success? <==> AdmissibleAction(updates, i, action)
    ensures Act(t, NOTHING, updates[i], action).Success? ==>
      SlotHolds(updates, Act(t, NOTHING, updates[i], action).value.0, i + 1, slot,
        log + DeclaredByAction(updates, i, slot, action))
  {
    hide TablesOf, AssignTargets, KeptAfter, ToldTargets, ResolveMetaRange, RowsAt, Chosen, Shown;
    assert log + [] == log;
    match action
    case Effect(effect) =>
      TablesShape(History(updates)[..i + 1]);
    case MetadataPatch(from, to, operations) =>
      RangeRefinement(History(updates), i, from, to, updates[i].complete);
      var targets := FreshTargets(t.tables, updates[i].commit.oid, from, to, updates[i].complete);
      if targets.Success? {
        TargetsDistinct(History(updates), i + 1, updates[i].commit.oid, from, to, updates[i].complete);
        NothingListsStored(t.tables.commits);
        SelectedFrom(t.tables, NOTHING, from, to, updates[i], targets.value);
        FreshPatch(t, updates[i].commit.oid, targets.value, operations);
        PatchStep(updates, i, t, slot, log, targets.value, operations);
      }
    case Diagnose(_) =>
  }

  lemma {:induction false} ActionsStep(updates: seq<Update>, i: nat, t: State, slot: Slot, log: seq<Assignment>, m: nat)
    requires ParentFirst(History(updates)) && FullEndpoints(updates) && i < |updates| && m <= |updates[i].actions|
    requires SlotHolds(updates, t, i + 1, slot, log)
    ensures RunActions(t, NOTHING, updates[i], m).Success? <==>
      forall k :: 0 <= k < m ==> AdmissibleAction(updates, i, updates[i].actions[k])
    ensures RunActions(t, NOTHING, updates[i], m).Success? ==>
      SlotHolds(updates, RunActions(t, NOTHING, updates[i], m).value.0, i + 1, slot,
        log + DeclaredByActions(updates, i, slot, m))
  {
    hide Act, SlotHolds, AdmissibleAction, DeclaredByAction, FullEndpoints, ParentFirst;
    if m == 0 {
      assert log + [] == log;
    } else {
      ActionsStep(updates, i, t, slot, log, m - 1);
      var before := RunActions(t, NOTHING, updates[i], m - 1);
      if before.Success? {
        var made := DeclaredByActions(updates, i, slot, m - 1);
        var action := updates[i].actions[m - 1];
        ActionStep(updates, i, before.value.0, slot, log + made, action);
        assert log + (made + DeclaredByAction(updates, i, slot, action))
          == (log + made) + DeclaredByAction(updates, i, slot, action);
      }
    }
  }

  lemma WithoutAbsentOid(tables: Tables, commit: Commit)
    requires Arrives(tables, commit)
    ensures InsertCommit(tables, commit).commits == tables.commits + [commit.oid]
  {
    InsertArriving(tables, commit);
  }

  lemma ArrivesNew(tables: Tables, commit: Commit)
    requires Arrives(tables, commit)
    ensures commit.oid !in tables.commits
  {
  }

  lemma {:induction false} ArriveStep(updates: seq<Update>, i: nat, s: State, slot: Slot, log: seq<Assignment>)
    requires ParentFirst(History(updates)) && i < |updates| && SlotHolds(updates, s, i, slot, log)
    ensures SlotHolds(updates, Arrive(s, updates[i]), i + 1, slot, log)
    ensures Arrives(s.tables, updates[i].commit)
  {
    hide TablesOf, KeptAfter, Arrives, Purged, Reflect, InsertCommit;
    ReplayStep(History(updates), i);
    WithoutAbsentOid(s.tables, updates[i].commit);
    ArrivesNew(s.tables, updates[i].commit);
    assert Oids(History(updates)[..i + 1])[..i] == Oids(History(updates)[..i]);
  }

  /** After `n` updates each slot keeps what the definition keeps of its declared log, and the replay has failed
      exactly when some update so far was inadmissible. */
  lemma {:induction false} ReplayHolds(updates: seq<Update>, n: nat, slot: Slot)
    requires ParentFirst(History(updates)) && FullEndpoints(updates) && n <= |updates|
    ensures Replay(FRESH, updates, n).Success? <==> forall i :: 0 <= i < n ==> Admissible(updates, i)
    ensures Replay(FRESH, updates, n).Success? ==>
      SlotHolds(updates, Replay(FRESH, updates, n).value, n, slot, DeclaredLog(updates, slot, n))
  {
    hide SlotHolds, RunActions, Arrive, FullEndpoints, ParentFirst, DeclaredByActions, AdmissibleAction;
    if n == 0 {
      NothingReplayed(updates, slot);
    } else {
      ReplayHolds(updates, n - 1, slot);
      var before := Replay(FRESH, updates, n - 1);
      if before.Success? {
        var log := DeclaredLog(updates, slot, n - 1);
        ArriveStep(updates, n - 1, before.value, slot, log);
        ActionsStep(updates, n - 1, Arrive(before.value, updates[n - 1]), slot, log, |updates[n - 1].actions|);
        assert Evaluate(before.value, NOTHING, updates[n - 1]).Success? <==> Admissible(updates, n - 1);
        assert (forall i :: 0 <= i < n - 1 ==> Admissible(updates, i));
      }
    }
  }

  lemma {:induction false} NothingReplayed(updates: seq<Update>, slot: Slot)
    ensures SlotHolds(updates, FRESH, 0, slot, [])
  {
  }

  /** A parent-first history satisfies what `ApplyRange` asks of each update. */
  lemma {:induction false} ParentFirstArrives(updates: seq<Update>)
    requires ParentFirst(History(updates)) && FullEndpoints(updates)
    ensures MemoSafe(FRESH, updates)
  {
    hide SlotHolds, Replay, Arrives, FullEndpoints, ParentFirst;
    var slot := Slot([], Owner);
    forall n | 0 <= n < |updates| ensures MemoSafeAt(FRESH, updates, n) {
      ReplayHolds(updates, n, slot);
      if Replay(FRESH, updates, n).Success? {
        ArriveStep(updates, n, Replay(FRESH, updates, n).value, slot, DeclaredLog(updates, slot, n));
      }
    }
  }

  // ---------------------------------------------------------------- ancestry of a replay is a partial order

  lemma {:induction false} AncestryAntisymmetric(history: seq<Commit>, a: Oid, b: Oid)
    requires ParentFirst(history)
    requires Reaches(TablesOf(history).edges, a, b) && Reaches(TablesOf(history).edges, b, a)
    ensures a == b
  {
    hide TablesOf, StrictAncestors, Reaches;
    var edges := TablesOf(history).edges;
    if a != b {
      TablesShape(history);
      ReachesSplit(edges, a, b);
      ReachesSplit(edges, b, a);
      InStrictAncestors(edges, a, b);
      InStrictAncestors(edges, b, a);
      var e :| e in edges && e.0 == a && Reaches(edges, e.1, b);
      var f :| f in edges && f.0 == b && Reaches(edges, f.1, a);
      var j :| 0 <= j < |history| && history[j].oid == a;
      var k :| 0 <= k < |history| && history[k].oid == b;
      AncestorsComeFirst(history, j, k);
      AncestorsComeFirst(history, k, j);
    }
  }

  lemma {:induction false} AncestryIsPartialOrder(history: seq<Commit>)
    requires ParentFirst(history)
    ensures PartialOrder(Ancestry(TablesOf(history).edges))
  {
    hide TablesOf, Reaches;
    var edges := TablesOf(history).edges;
    var reach := Ancestry(edges);
    forall a ensures reach(a, a) {
      ReachesSelf(edges, a);
    }
    forall a, b | reach(a, b) && reach(b, a) ensures a == b {
      AncestryAntisymmetric(history, a, b);
    }
    forall a, b, c | reach(a, b) && reach(b, c) ensures reach(a, c) {
      ReachesTransitive(edges, a, b, c);
    }
  }
}
