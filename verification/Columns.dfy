/** What the metadata columns of each commit show after a replay, said on the columns themselves. */
module Columns {
  import opened MetaRange
  import opened MetaRefinement
  import opened Metadata
  import opened Projection
  import opened ProjectionRefinement
  import opened Results
  import Effects

  /** The column of the key shows this value, or is empty. */
  ghost predicate Shows(m: CommitMetadata, key: MetaKey, v: Option<string>) {
    && (key == AffectedAreas ==> m.areas == if v.Some? then Some([v.value]) else None)
    && (key == Owner ==> m.owner == v)
    && (key == Tags ==> m.tags == if v.Some? then [v.value] else [])
  }

  ghost predicate SameColumn(a: CommitMetadata, b: CommitMetadata, key: MetaKey) {
    && (key == AffectedAreas ==> a.areas == b.areas)
    && (key == Owner ==> a.owner == b.owner)
    && (key == Tags ==> a.tags == b.tags)
    && (key in a.conflicts <==> key in b.conflicts)
  }

  // ---------------------------------------------------------------- one assignment

  /** The column and flag of a slot say what its rows say. */
  ghost predicate Tells(m: CommitMetadata, key: MetaKey, rows: Rows) {
    && (key in m.conflicts <==> exists a, b :: a in rows && b in rows && rows[a] != rows[b])
    && (key in m.conflicts ==> Shows(m, key, None))
    && (key !in m.conflicts ==> forall a :: a in rows ==> Shows(m, key, rows[a]))
  }

  lemma ConflictedExactly(rows: Rows)
    ensures Conflicted(rows) <==> exists a, b :: a in rows && b in rows && rows[a] != rows[b]
  {
    if a, b :| a in rows && b in rows && rows[a] != rows[b] {
      assert rows[a] in rows.Values && rows[b] in rows.Values;
      OneValue(rows.Values, rows[a], rows[b]);
    } else if a :| a in rows {
      assert rows[a] in rows.Values;
      SingletonValues(rows.Values, rows[a]);
    } else {
      assert rows.Values == {};
    }
  }

  lemma {:induction false} ReflectTells(m: CommitMetadata, key: MetaKey, rows: Rows)
    requires rows != map[]
    ensures Tells(Reflect(m, key, rows), key, rows)
    ensures forall other :: other != key ==> SameColumn(Reflect(m, key, rows), m, other)
  {
    ConflictedExactly(rows);
    if !Conflicted(rows) {
      forall a | a in rows ensures rows[a] == AgreedValue(rows) {
        assert rows[a] in rows.Values && AgreedValue(rows) in rows.Values;
        Effects.SameInSingleton(rows.Values, rows[a], AgreedValue(rows));
      }
    }
  }

  /**
   * One set or null operation: the source's row is written, and it alone is left if the source descends from every
   * source that had a row; the target's column shows the one value of the rows, or nothing with the conflict flag when
   * they disagree. Every other column, flag, target and slot is as it was.
   */
  lemma {:induction false} AssignmentMeans(reach: Relation, o: Overlay, target: Oid, source: Oid, operation: Operation)
    requires target in o.metadata
    ensures var slot, after := Slot(target, operation.key), AssignOne(reach, o, target, source, operation);
            var before, rows := RowsAt(o.assignments, slot), RowsAt(after.assignments, slot);
            && source in rows && rows[source] == operation.value
            && (forall s :: s in rows && s != source <==>
                  s in before && s != source && exists p :: p in before && !reach(source, p))
            && (forall s :: s in rows && s != source ==> rows[s] == before[s])
            && after.metadata.Keys == o.metadata.Keys
            && Tells(after.metadata[target], operation.key, rows)
            && (forall key :: key != operation.key ==> SameColumn(after.metadata[target], o.metadata[target], key))
            && (forall t :: t in o.metadata && t != target ==> after.metadata[t] == o.metadata[t])
            && (forall other :: other != slot ==> RowsAt(after.assignments, other) == RowsAt(o.assignments, other))
  {
    hide Reflect;
    var slot := Slot(target, operation.key);
    var rows := AssignStep(reach, RowsAt(o.assignments, slot), Assignment(source, operation.value));
    assert source in rows;
    ReflectTells(o.metadata[target], operation.key, rows);
  }

  // ---------------------------------------------------------------- after a whole replay

  lemma {:induction false} ShownTells(o: Overlay, slot: Slot)
    requires Shown(o, slot) && RowsAt(o.assignments, slot) != map[]
    ensures slot.target in o.metadata && Tells(o.metadata[slot.target], slot.key, RowsAt(o.assignments, slot))
  {
    hide Reflect;
    ReflectTells(o.metadata[slot.target], slot.key, RowsAt(o.assignments, slot));
  }

  /**
   * After a successful replay, a slot to which some META commit assigned a value shows in its column, unless it is
   * flagged as conflicting, the one value that the declarative resolution gives for its declared assignments. A flagged
   * slot has an empty column.
   */
  lemma {:induction false} StoredMetadataIsDeclared(updates: seq<Update>, slot: Slot, listing: seq<ReachableAssignment>)
    requires ParentFirst(History(updates)) && FullEndpoints(updates)
    requires Replay(FRESH, updates, |updates|).Success?
    requires DeclaredLog(updates, slot, |updates|) != []
    requires Lists(Ancestry(FinalEdges(updates)), Latest(DeclaredLog(updates, slot, |updates|)), listing)
    ensures var metadata := Replay(FRESH, updates, |updates|).value.overlay.metadata;
            && slot.target in metadata
            && (slot.key in metadata[slot.target].conflicts ==> Shows(metadata[slot.target], slot.key, None))
            && (slot.key !in metadata[slot.target].conflicts ==>
                 exists v :: ResolveMetadataAssignments(listing) == Resolved(v)
                   && Shows(metadata[slot.target], slot.key, v))
  {
    hide TablesOf, Replay, DeclaredLog, Lists, ResolveMetadataAssignments, ParentFirst, FullEndpoints, Shown,
      PartialOrder, Latest, Shows;
    var reach, log := Ancestry(FinalEdges(updates)), DeclaredLog(updates, slot, |updates|);
    ReplayHolds(updates, |updates|, slot);
    AncestryIsPartialOrder(History(updates));
    var o := Replay(FRESH, updates, |updates|).value.overlay;
    var rows := RowsAt(o.assignments, slot);
    assert log[|log| - 1].source in rows;
    ShownTells(o, slot);
    ConflictedExactly(rows);
    if slot.key !in o.metadata[slot.target].conflicts {
      NoConflictIsResolved(reach, log, listing);
      var v :| rows.Values == {v} && ResolveMetadataAssignments(listing) == Resolved(v);
      assert rows[log[|log| - 1].source] in rows.Values;
    }
  }

  // ---------------------------------------------------------------- columns without assignments

  /** The columns with which a commit arrives: its own affected areas, no owner, no tags, no conflict. */
  ghost predicate Untouched(m: CommitMetadata, key: MetaKey, areas: Option<seq<string>>) {
    && (key == AffectedAreas ==> m.areas == areas)
    && (key == Owner ==> m.owner == None)
    && (key == Tags ==> m.tags == [])
    && key !in m.conflicts
  }

  lemma {:induction false} OperationsLeave(reach: Relation, o: Overlay, target: Oid, source: Oid,
      operations: seq<Operation>, n: nat, slot: Slot)
    requires n <= |operations| && target in o.metadata && slot.target in o.metadata
    requires slot.target == target ==> Chosen(operations, slot.key, source, n) == []
    ensures var after := AssignOperations(reach, o, target, source, operations, n);
            && after.metadata.Keys == o.metadata.Keys
            && SameColumn(after.metadata[slot.target], o.metadata[slot.target], slot.key)
  {
    hide AssignOne;
    if n > 0 {
      if slot.target == target {
        assert Chosen(operations, slot.key, source, n - 1) == [] && operations[n - 1].key != slot.key;
      }
      OperationsLeave(reach, o, target, source, operations, n - 1, slot);
      var before := AssignOperations(reach, o, target, source, operations, n - 1);
      var after := AssignOperations(reach, o, target, source, operations, n);
      assert target in before.metadata.Keys && slot.target in before.metadata.Keys;
      AssignmentMeans(reach, before, target, source, operations[n - 1]);
      assert after == AssignOne(reach, before, target, source, operations[n - 1]);
      assert SameColumn(after.metadata[slot.target], before.metadata[slot.target], slot.key);
    }
  }

  lemma {:induction false} TargetsLeave(reach: Relation, o: Overlay, targets: seq<Oid>, source: Oid,
      operations: seq<Operation>, n: nat, slot: Slot)
    requires n <= |targets| && slot.target in o.metadata && forall t :: t in targets ==> t in o.metadata
    requires slot.target in targets ==> Chosen(operations, slot.key, source, |operations|) == []
    ensures var after := AssignTargets(reach, o, targets, source, operations, n);
            && after.metadata.Keys == o.metadata.Keys
            && SameColumn(after.metadata[slot.target], o.metadata[slot.target], slot.key)
  {
    hide AssignOperations, Chosen;
    if n > 0 {
      TargetsLeave(reach, o, targets, source, operations, n - 1, slot);
      var before := AssignTargets(reach, o, targets, source, operations, n - 1);
      assert targets[n - 1] in before.metadata.Keys;
      OperationsLeave(reach, before, targets[n - 1], source, operations, |operations|, slot);
    }
  }

  lemma {:induction false} ActionLeaves(updates: seq<Update>, i: nat, t: State, slot: Slot, log: seq<Assignment>,
      action: Action)
    requires ParentFirst(History(updates)) && FullEndpoints(updates) && i < |updates| && action in updates[i].actions
    requires SlotHolds(updates, t, i + 1, slot, log) && slot.target in t.overlay.metadata
    requires Act(t, NOTHING, updates[i], action).Success? && DeclaredByAction(updates, i, slot, action) == []
    ensures var after := Act(t, NOTHING, updates[i], action).value.0.overlay.metadata;
            slot.target in after && SameColumn(after[slot.target], t.overlay.metadata[slot.target], slot.key)
  {
    hide TablesOf, AssignTargets, KeptAfter, ToldTargets, ResolveMetaRange, RowsAt, Chosen, Shown;
    match action
    case Effect(effect) =>
    case MetadataPatch(from, to, operations) =>
      RangeRefinement(History(updates), i, from, to, updates[i].complete);
      var targets := FreshTargets(t.tables, updates[i].commit.oid, from, to, updates[i].complete);
      NothingListsStored(t.tables.commits);
      SelectedFrom(t.tables, NOTHING, from, to, updates[i], targets.value);
      TargetsLeave(ToldAncestry(t.tables.edges, NOTHING), t.overlay, targets.value, updates[i].commit.oid, operations,
                   |targets.value|, slot);
    case Diagnose(_) =>
  }

  lemma {:induction false} ActionsLeave(updates: seq<Update>, i: nat, t: State, slot: Slot, log: seq<Assignment>,
      m: nat)
    requires ParentFirst(History(updates)) && FullEndpoints(updates) && i < |updates| && m <= |updates[i].actions|
    requires SlotHolds(updates, t, i + 1, slot, log) && slot.target in t.overlay.metadata
    requires RunActions(t, NOTHING, updates[i], m).Success? && DeclaredByActions(updates, i, slot, m) == []
    ensures var after := RunActions(t, NOTHING, updates[i], m).value.0.overlay.metadata;
            slot.target in after && SameColumn(after[slot.target], t.overlay.metadata[slot.target], slot.key)
  {
    hide Act, SlotHolds, DeclaredByAction, FullEndpoints, ParentFirst, AdmissibleAction;
    if m > 0 {
      ActionsLeave(updates, i, t, slot, log, m - 1);
      ActionsStep(updates, i, t, slot, log, m - 1);
      var before := RunActions(t, NOTHING, updates[i], m - 1).value.0;
      ActionLeaves(updates, i, before, slot, log + DeclaredByActions(updates, i, slot, m - 1),
        updates[i].actions[m - 1]);
    }
  }

  /** Metadata rows exist for stored commits only. */
  ghost predicate RowsOfCommits(s: State) {
    forall c :: c in s.overlay.metadata ==> c in s.tables.commits
  }

  lemma {:induction false} OperationsKeepRows(reach: Relation, o: Overlay, target: Oid, source: Oid,
      operations: seq<Operation>, n: nat)
    requires n <= |operations|
    ensures AssignOperations(reach, o, target, source, operations, n).metadata.Keys == o.metadata.Keys
  {
    hide AssignStep, Reflect;
    if n > 0 {
      OperationsKeepRows(reach, o, target, source, operations, n - 1);
    }
  }

  lemma {:induction false} TargetsKeepRows(reach: Relation, o: Overlay, targets: seq<Oid>, source: Oid,
      operations: seq<Operation>, n: nat)
    requires n <= |targets|
    ensures AssignTargets(reach, o, targets, source, operations, n).metadata.Keys == o.metadata.Keys
  {
    hide AssignOperations;
    if n > 0 {
      TargetsKeepRows(reach, o, targets, source, operations, n - 1);
      OperationsKeepRows(reach, AssignTargets(reach, o, targets, source, operations, n - 1), targets[n - 1], source,
                         operations, |operations|);
    }
  }

  lemma ActKeepsRows(s: State, memo: Memo, update: Update, action: Action)
    requires RowsOfCommits(s) && Act(s, memo, update, action).Success?
    ensures RowsOfCommits(Act(s, memo, update, action).value.0)
  {
    hide ToldTargets, AssignTargets, Effects.Apply;
    if action.MetadataPatch? {
      var targets := ToldTargets(s.tables, memo, update.commit.oid, action.from, action.to, update.complete);
      TargetsKeepRows(ToldAncestry(s.tables.edges, memo), s.overlay, targets.value, update.commit.oid,
                      action.operations, |targets.value|);
    }
  }

  lemma {:induction false} ActionsKeepRows(s: State, memo: Memo, update: Update, n: nat)
    requires n <= |update.actions| && RowsOfCommits(s) && RunActions(s, memo, update, n).Success?
    ensures RowsOfCommits(RunActions(s, memo, update, n).value.0)
  {
    hide Act, RowsOfCommits;
    if n > 0 {
      ActionsKeepRows(s, memo, update, n - 1);
      ActKeepsRows(RunActions(s, memo, update, n - 1).value.0, memo, update, update.actions[n - 1]);
    }
  }

  lemma ArriveKeepsRows(s: State, update: Update)
    requires RowsOfCommits(s)
    ensures RowsOfCommits(Arrive(s, update))
  {
    WithoutMembers(s.tables.commits, update.commit.oid);
  }

  lemma {:induction false} MetadataRows(updates: seq<Update>, n: nat)
    requires n <= |updates| && Replay(FRESH, updates, n).Success?
    ensures RowsOfCommits(Replay(FRESH, updates, n).value)
  {
    hide RunActions, Arrive;
    if n > 0 {
      MetadataRows(updates, n - 1);
      var before, update := Replay(FRESH, updates, n - 1).value, updates[n - 1];
      ArriveKeepsRows(before, update);
      ActionsKeepRows(Arrive(before, update), NOTHING, update, |update.actions|);
    }
  }

  /**
   * After a successful replay, a column of a commit to which nothing was assigned is the one the commit arrived with:
   * its affected areas, no owner, no tags, and no conflict.
   */
  lemma {:induction false} UnassignedIsUntouched(updates: seq<Update>, n: nat, i: nat, key: MetaKey)
    requires ParentFirst(History(updates)) && FullEndpoints(updates) && i < n <= |updates|
    requires Replay(FRESH, updates, n).Success?
    requires DeclaredLog(updates, Slot(updates[i].commit.oid, key), n) == []
    ensures var metadata := Replay(FRESH, updates, n).value.overlay.metadata;
            updates[i].commit.oid in metadata && Untouched(metadata[updates[i].commit.oid], key, updates[i].areas)
  {
    hide RunActions, FullEndpoints, ParentFirst, DeclaredByActions, SlotHolds, Arrive;
    var slot := Slot(updates[i].commit.oid, key);
    var before, update := Replay(FRESH, updates, n - 1).value, updates[n - 1];
    var arrived := Arrive(before, update);
    ReplayHolds(updates, n - 1, slot);
    ArriveStep(updates, n - 1, before, slot, []);
    if i < n - 1 {
      UnassignedIsUntouched(updates, n - 1, i, key);
    }
    MetadataRows(updates, n - 1);
    ArrivalColumns(updates, n - 1, i, before, slot);
    ActionsLeave(updates, n - 1, arrived, slot, [], |update.actions|);
  }

  lemma {:induction false} ArrivalColumns(updates: seq<Update>, n: nat, i: nat, before: State, slot: Slot)
    requires ParentFirst(History(updates)) && i <= n < |updates| && slot.target == updates[i].commit.oid
    requires SlotHolds(updates, before, n, slot, []) && RowsOfCommits(before)
    requires i < n ==>
      slot.target in before.overlay.metadata
        && Untouched(before.overlay.metadata[slot.target], slot.key, updates[i].areas)
    ensures var arrived := Arrive(before, updates[n]).overlay.metadata;
            slot.target in arrived && Untouched(arrived[slot.target], slot.key, updates[i].areas)
  {
    hide TablesOf, KeptAfter, Shown;
    ArriveStep(updates, n, before, slot, []);
    ArrivesNew(before.tables, updates[n].commit);
    assert History(updates)[n].oid == updates[n].commit.oid && History(updates)[i].oid == updates[i].commit.oid;
  }

  // ---------------------------------------------------------------- an arrival

  /** A source has a row for the slot, with this value. */
  ghost predicate Assigned(o: Overlay, slot: Slot, source: Oid, v: Option<string>) {
    slot in o.assignments && source in o.assignments[slot] && o.assignments[slot][source] == v
  }

  /**
   * What the arrival of a commit leaves. It is listed last and once, with exactly its parent edges. A commit that was
   * stored before loses its entries, its metadata, and all assignments to it or by it; a new one loses nothing. Its
   * columns are then fresh, and the entries, edges, columns and assignments of and between other commits stay.
   */
  lemma ArrivalReplaces(s: State, update: Update)
    ensures var t, c, again := Arrive(s, update), update.commit.oid, update.commit.oid in s.tables.commits;
            && t.tables.commits != [] && t.tables.commits[|t.tables.commits| - 1] == c
            && c !in t.tables.commits[..|t.tables.commits| - 1]
            && (forall other :: other in t.tables.commits <==> other == c || other in s.tables.commits)
            && (forall edge :: edge in t.tables.edges <==>
                  if edge.0 == c then edge.1 in update.commit.parents else edge in s.tables.edges)
            && (forall key :: key in t.entries <==> key in s.entries && (again ==> key.0 != c))
            && (forall key :: key in t.entries ==> t.entries[key] == s.entries[key])
            && (forall slot, source, v :: Assigned(t.overlay, slot, source, v) <==>
                  Assigned(s.overlay, slot, source, v) && (again ==> slot.target != c && source != c))
            && (forall other :: other != c ==>
                  && (other in t.overlay.metadata <==> other in s.overlay.metadata)
                  && (other in s.overlay.metadata ==> t.overlay.metadata[other] == s.overlay.metadata[other]))
            && c in t.overlay.metadata
            && (again || c !in s.overlay.metadata ==>
                  t.overlay.metadata[c] == CommitMetadata(update.areas, None, [], {}))
  {
    WithoutMembers(s.tables.commits, update.commit.oid);
  }
}
