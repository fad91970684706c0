/** What publication stores, and that a trail reads back unchanged while it is present. */
module TrailReadback {
  import opened Results
  import opened Trails

  // ---------------------------------------------------------------- invariant of the tables

  ghost predicate MembersLinked(db: Db) {
    && (forall slot :: slot in db.overlay.members ==> slot.trail in db.trails && slot.commit in db.shared.commits)
    && (forall a, b ::
          a in db.overlay.members && b in db.overlay.members && a.trail == b.trail
            && db.overlay.members[a] == db.overlay.members[b]
          ==> a == b)
  }

  ghost predicate StatesLinked(db: Db) {
    forall slot :: slot in db.overlay.states ==>
      && slot.trail in db.trails
      && EntryKey(slot.commit, slot.index) in db.shared.entries
      && Slot(slot.trail, slot.commit) in db.overlay.metadata
  }

  ghost predicate OneRepository(db: Db) {
    && (forall slot :: slot in db.overlay.members && slot.trail in db.trails ==>
          slot.commit.repo == db.trails[slot.trail].repo)
    && (forall slot :: slot in db.overlay.states && slot.trail in db.trails ==>
          slot.commit.repo == db.trails[slot.trail].repo)
  }

  ghost predicate Linked(db: Db) {
    && MembersLinked(db)
    && StatesLinked(db)
    && OneRepository(db)
    && (forall slot :: slot in db.overlay.metadata ==> slot.trail in db.trails)
    && (forall key :: key in db.shared.entries ==> key.commit in db.shared.commits)
    && (forall alias :: alias in db.aliases ==> db.aliases[alias] in db.trails)
  }

  // ---------------------------------------------------------------- publication

  ghost predicate UntouchedBut(before: Overlay, after: Overlay, trail: string) {
    && (forall slot: Slot :: slot.trail != trail ==>
          && (slot in before.members <==> slot in after.members)
          && (slot in before.members ==> after.members[slot] == before.members[slot])
          && (slot in before.metadata <==> slot in after.metadata)
          && (slot in before.metadata ==> after.metadata[slot] == before.metadata[slot]))
    && (forall slot: EntrySlot :: slot.trail != trail ==>
          && (slot in before.states <==> slot in after.states)
          && (slot in before.states ==> after.states[slot] == before.states[slot]))
  }

  ghost predicate SharedGrows(before: Shared, after: Shared) {
    && before.commits.Keys <= after.commits.Keys
    && before.entries <= after.entries
    && (forall key :: key in before.metadata ==> key in after.metadata && after.metadata[key] == before.metadata[key])
    && (forall key :: key in after.entries && key !in before.entries ==> key.commit in after.commits)
  }

  predicate HasOid(commits: seq<CommitFact>, n: nat, oid: string)
    requires n <= |commits|
  {
    exists i :: 0 <= i < n && commits[i].oid == oid
  }

  /** The first `n` commits are members at their positions, and the trail has no other member. */
  ghost predicate CommitsPlaced(db: Db, p: Publication, n: nat)
    requires n <= |p.commits|
  {
    && (forall i, j :: 0 <= i < j < n ==> p.commits[i].oid != p.commits[j].oid)
    && (forall i :: 0 <= i < n ==>
          var slot := Slot(p.id, CommitKey(p.trail.repo, p.commits[i].oid));
          slot in db.overlay.members && db.overlay.members[slot] == i)
    && (forall slot :: slot in db.overlay.members && slot.trail == p.id ==>
          slot.commit.repo == p.trail.repo && HasOid(p.commits, n, slot.commit.oid) && slot.commit in db.shared.commits)
  }

  ghost predicate Fresh(overlay: Overlay, trail: string) {
    && (forall slot :: slot in overlay.members ==> slot.trail != trail)
    && (forall slot :: slot in overlay.states ==> slot.trail != trail)
    && (forall slot :: slot in overlay.metadata ==> slot.trail != trail)
  }

  lemma NoCommitPlaced(db: Db, p: Publication)
    requires Fresh(db.overlay, p.id)
    ensures CommitsPlaced(db, p, 0) && UntouchedBut(db.overlay, db.overlay, p.id) && SharedGrows(db.shared, db.shared)
  {
  }

  lemma CommitPlaced(db: Db, p: Publication, i: nat)
    requires i < |p.commits| && CommitsPlaced(db, p, i) && AddCommit(db, p, i).Some?
    ensures CommitsPlaced(AddCommit(db, p, i).value, p, i + 1)
  {
    var after, oid := AddCommit(db, p, i).value, p.commits[i].oid;
    forall j | 0 <= j < i ensures p.commits[j].oid != oid {
      assert Slot(p.id, CommitKey(p.trail.repo, p.commits[j].oid)) in db.overlay.members;
    }
    forall slot | slot in after.overlay.members && slot.trail == p.id
      ensures HasOid(p.commits, i + 1, slot.commit.oid)
    {
      if HasOid(p.commits, i, slot.commit.oid) {
        var j :| 0 <= j < i && p.commits[j].oid == slot.commit.oid;
        assert p.commits[j].oid == slot.commit.oid;
      } else {
        assert p.commits[i].oid == slot.commit.oid;
      }
    }
  }

  lemma CommitTouches(start: Db, db: Db, p: Publication, i: nat)
    requires i < |p.commits| && AddCommit(db, p, i).Some?
    requires UntouchedBut(start.overlay, db.overlay, p.id) && SharedGrows(start.shared, db.shared)
    ensures var after := AddCommit(db, p, i).value;
            UntouchedBut(start.overlay, after.overlay, p.id) && SharedGrows(start.shared, after.shared)
  {
  }

  lemma {:induction false} CommitsAdded(db: Db, p: Publication, n: nat)
    requires n <= |p.commits| && Fresh(db.overlay, p.id) && AddCommits(db, p, n).Some?
    ensures var after := AddCommits(db, p, n).value;
            && UntouchedBut(db.overlay, after.overlay, p.id)
            && SharedGrows(db.shared, after.shared) && after.shared.entries == db.shared.entries
            && after.trails == db.trails && after.aliases == db.aliases
            && after.overlay.states == db.overlay.states && after.overlay.metadata == db.overlay.metadata
            && CommitsPlaced(after, p, n)
  {
    hide UntouchedBut, SharedGrows, CommitsPlaced, Fresh;
    if n == 0 {
      NoCommitPlaced(db, p);
    } else {
      CommitsAdded(db, p, n - 1);
      CommitPlaced(AddCommits(db, p, n - 1).value, p, n - 1);
      CommitTouches(db, AddCommits(db, p, n - 1).value, p, n - 1);
    }
  }

  function LastMeta(entries: seq<Entry>, sha: string): Option<Meta> {
    if entries == [] then None
    else if entries[|entries| - 1].sha == sha then Some(entries[|entries| - 1].meta)
    else LastMeta(entries[..|entries| - 1], sha)
  }

  function SlotOf(p: Publication, entry: Entry): EntrySlot {
    EntrySlot(p.id, CommitKey(p.trail.repo, entry.sha), entry.index)
  }

  /** The state rows of the trail are the given entries, each once, with the last metadata of each commit. */
  ghost predicate EntriesStored(db: Db, p: Publication, entries: seq<Entry>) {
    && (forall i, j :: 0 <= i < j < |entries| ==> SlotOf(p, entries[i]) != SlotOf(p, entries[j]))
    && (forall e :: e in entries ==> SlotOf(p, e) in db.overlay.states && db.overlay.states[SlotOf(p, e)] == e.body)
    && (forall slot :: slot in db.overlay.states && slot.trail == p.id ==> HasSlot(p, entries, slot))
  }

  ghost predicate HasSlot(p: Publication, entries: seq<Entry>, slot: EntrySlot) {
    exists e :: e in entries && SlotOf(p, e) == slot
  }

  ghost predicate MetadataStored(db: Db, p: Publication, entries: seq<Entry>) {
    && (forall e :: e in entries ==> Slot(p.id, CommitKey(p.trail.repo, e.sha)) in db.overlay.metadata)
    && (forall slot :: slot in db.overlay.metadata && slot.trail == p.id ==>
          && slot.commit.repo == p.trail.repo
          && LastMeta(entries, slot.commit.oid) == Some(db.overlay.metadata[slot]))
  }

  ghost predicate EntriesShared(db: Db, p: Publication, entries: seq<Entry>) {
    forall e :: e in entries ==> EntryKey(CommitKey(p.trail.repo, e.sha), e.index) in db.shared.entries
  }

  lemma {:induction false} EntriesAdded(db: Db, p: Publication, n: nat)
    requires n <= |p.entries| && AddEntries(db, p, n).Some?
    requires forall slot :: slot in db.overlay.states ==> slot.trail != p.id
    requires forall slot :: slot in db.overlay.metadata ==> slot.trail != p.id
    ensures var after := AddEntries(db, p, n).value;
            && UntouchedBut(db.overlay, after.overlay, p.id)
            && SharedGrows(db.shared, after.shared) && after.shared.commits == db.shared.commits
            && after.trails == db.trails && after.aliases == db.aliases && after.overlay.members == db.overlay.members
            && EntriesStored(after, p, p.entries[..n])
            && MetadataStored(after, p, p.entries[..n])
            && EntriesShared(after, p, p.entries[..n])
  {
    hide EntriesStored, MetadataStored, EntriesShared, SharedGrows, UntouchedBut, AddEntry;
    if n == 0 {
      NothingStored(db, p);
    } else {
      EntriesAdded(db, p, n - 1);
      var before := AddEntries(db, p, n - 1).value;
      EntryFrame(before, p, p.entries[n - 1]);
      EntryStored(before, p, p.entries[..n - 1], p.entries[n - 1]);
      MetaStored(before, p, p.entries[..n - 1], p.entries[n - 1]);
      SharedStep(db, before, p, p.entries[..n - 1], p.entries[n - 1]);
      assert p.entries[..n] == p.entries[..n - 1] + [p.entries[n - 1]];
    }
  }

  lemma NothingStored(db: Db, p: Publication)
    requires forall slot :: slot in db.overlay.states ==> slot.trail != p.id
    requires forall slot :: slot in db.overlay.metadata ==> slot.trail != p.id
    ensures EntriesStored(db, p, []) && MetadataStored(db, p, []) && EntriesShared(db, p, [])
    ensures SharedGrows(db.shared, db.shared) && UntouchedBut(db.overlay, db.overlay, p.id)
  {
  }

  lemma EntryFrame(db: Db, p: Publication, e: Entry)
    requires AddEntry(db, p, e).Some?
    ensures var after := AddEntry(db, p, e).value;
            && after.shared.commits == db.shared.commits && after.trails == db.trails && after.aliases == db.aliases
            && after.overlay.members == db.overlay.members
  {
  }

  lemma {:induction false} EntryStored(db: Db, p: Publication, entries: seq<Entry>, e: Entry)
    requires EntriesStored(db, p, entries) && AddEntry(db, p, e).Some?
    ensures EntriesStored(AddEntry(db, p, e).value, p, entries + [e])
  {
  }

  lemma {:induction false} MetaStored(db: Db, p: Publication, entries: seq<Entry>, e: Entry)
    requires MetadataStored(db, p, entries) && AddEntry(db, p, e).Some?
    ensures MetadataStored(AddEntry(db, p, e).value, p, entries + [e])
  {
  }

  lemma {:induction false} SharedStep(start: Db, db: Db, p: Publication, entries: seq<Entry>, e: Entry)
    requires SharedGrows(start.shared, db.shared) && UntouchedBut(start.overlay, db.overlay, p.id)
    requires EntriesShared(db, p, entries) && AddEntry(db, p, e).Some?
    ensures var after := AddEntry(db, p, e).value;
            && SharedGrows(start.shared, after.shared)
            && UntouchedBut(start.overlay, after.overlay, p.id)
            && EntriesShared(after, p, entries + [e])
  {
  }

  // ---------------------------------------------------------------- what is read back

  function PositionOf(commits: seq<CommitFact>, oid: string): (r: Option<nat>)
    ensures r.Some? ==> r.value < |commits| && commits[r.value].oid == oid
    ensures r.None? ==> forall i :: 0 <= i < |commits| ==> commits[i].oid != oid
  {
    if commits == [] then None
    else if commits[|commits| - 1].oid == oid then Some(|commits| - 1)
    else PositionOf(commits[..|commits| - 1], oid)
  }

  /** The published entries whose commit the trail selects, with the last metadata given for that commit. */
  function PublishedRows(p: Publication): set<Row> {
    set e | e in p.entries && PositionOf(p.commits, e.sha).Some? && LastMeta(p.entries, e.sha).Some? ::
      Row(PositionOf(p.commits, e.sha).value, Entry(e.sha, e.index, e.body, LastMeta(p.entries, e.sha).value))
  }

  lemma {:induction false} MetaExists(entries: seq<Entry>, e: Entry)
    requires e in entries
    ensures LastMeta(entries, e.sha).Some?
    ensures exists f :: f in entries && f.sha == e.sha && LastMeta(entries, e.sha) == Some(f.meta)
  {
    var last := entries[|entries| - 1];
    if last.sha == e.sha {
      assert last in entries;
    } else {
      assert e in entries[..|entries| - 1];
      MetaExists(entries[..|entries| - 1], e);
    }
  }

  // ---------------------------------------------------------------- when publication succeeds

  ghost predicate DistinctOids(commits: seq<CommitFact>, n: nat)
    requires n <= |commits|
  {
    forall i, j :: 0 <= i < j < n ==> commits[i].oid != commits[j].oid
  }

  ghost predicate DistinctSlots(p: Publication, n: nat)
    requires n <= |p.entries|
  {
    forall i, j :: 0 <= i < j < n ==> SlotOf(p, p.entries[i]) != SlotOf(p, p.entries[j])
  }

  /** The commit of every entry is stored, or is one of the published commits. */
  ghost predicate CommitsKnown(db: Db, p: Publication) {
    forall i :: 0 <= i < |p.entries| ==>
      CommitKey(p.trail.repo, p.entries[i].sha) in db.shared.commits || HasOid(p.commits, |p.commits|, p.entries[i].sha)
  }

  lemma {:induction false} CommitsAddExactly(db: Db, p: Publication, n: nat)
    requires n <= |p.commits| && Fresh(db.overlay, p.id)
    ensures AddCommits(db, p, n).Some? <==> DistinctOids(p.commits, n)
    ensures AddCommits(db, p, n).Some? ==>
      forall oid :: CommitKey(p.trail.repo, oid) in AddCommits(db, p, n).value.shared.commits
               <==> CommitKey(p.trail.repo, oid) in db.shared.commits || HasOid(p.commits, n, oid)
  {
    hide AddCommit, HasOid, DistinctOids, CommitsPlaced, UntouchedBut, SharedGrows, Fresh;
    DistinctGrows(p.commits, n);
    if n > 0 {
      CommitsAddExactly(db, p, n - 1);
      var before, oid := AddCommits(db, p, n - 1), p.commits[n - 1].oid;
      if before.Some? {
        CommitsAdded(db, p, n - 1);
        SlotMeansOid(before.value, p, n - 1, oid);
        HasOidGrows(p.commits, n);
        CommitAddsExactly(before.value, p, n - 1);
      }
    }
  }

  lemma {:induction false} DistinctGrows(commits: seq<CommitFact>, n: nat)
    requires n <= |commits|
    ensures n == 0 ==> DistinctOids(commits, n) && forall oid :: !HasOid(commits, n, oid)
    ensures n > 0 ==> (DistinctOids(commits, n) <==>
      DistinctOids(commits, n - 1) && !HasOid(commits, n - 1, commits[n - 1].oid))
  {
  }

  lemma CommitAddsExactly(db: Db, p: Publication, i: nat)
    requires i < |p.commits|
    ensures AddCommit(db, p, i).Some? <==> Slot(p.id, CommitKey(p.trail.repo, p.commits[i].oid)) !in db.overlay.members
    ensures AddCommit(db, p, i).Some? ==>
      forall oid :: CommitKey(p.trail.repo, oid) in AddCommit(db, p, i).value.shared.commits
               <==> CommitKey(p.trail.repo, oid) in db.shared.commits || p.commits[i].oid == oid
  {
  }

  lemma {:induction false} SlotMeansOid(db: Db, p: Publication, n: nat, oid: string)
    requires n <= |p.commits| && CommitsPlaced(db, p, n)
    ensures Slot(p.id, CommitKey(p.trail.repo, oid)) in db.overlay.members <==> HasOid(p.commits, n, oid)
  {
  }

  lemma {:induction false} HasOidGrows(commits: seq<CommitFact>, n: nat)
    requires 0 < n <= |commits|
    ensures forall oid :: HasOid(commits, n, oid) <==> HasOid(commits, n - 1, oid) || commits[n - 1].oid == oid
  {
  }

  lemma {:induction false} EntriesAddExactly(db: Db, p: Publication, n: nat)
    requires n <= |p.entries|
    requires forall slot :: slot in db.overlay.states ==> slot.trail != p.id
    requires forall slot :: slot in db.overlay.metadata ==> slot.trail != p.id
    ensures AddEntries(db, p, n).Some? <==>
            && DistinctSlots(p, n)
            && forall i :: 0 <= i < n ==> CommitKey(p.trail.repo, p.entries[i].sha) in db.shared.commits
  {
    hide EntriesStored, MetadataStored, EntriesShared, UntouchedBut, SharedGrows, AddEntry, DistinctSlots;
    SlotsGrow(p, n);
    if n > 0 {
      EntriesAddExactly(db, p, n - 1);
      if AddEntries(db, p, n - 1).Some? {
        var before := AddEntries(db, p, n - 1).value;
        EntriesAdded(db, p, n - 1);
        StateMeansSlot(before, p, n - 1, SlotOf(p, p.entries[n - 1]));
        EntryAddsExactly(before, p, p.entries[n - 1]);
      }
    }
  }

  lemma SlotsGrow(p: Publication, n: nat)
    requires n <= |p.entries|
    ensures n == 0 ==> DistinctSlots(p, n)
    ensures n > 0 ==>
      (DistinctSlots(p, n) <==>
       DistinctSlots(p, n - 1) && !exists i :: 0 <= i < n - 1 && SlotOf(p, p.entries[i]) == SlotOf(p, p.entries[n - 1]))
  {
  }

  lemma EntryAddsExactly(db: Db, p: Publication, e: Entry)
    ensures AddEntry(db, p, e).Some? <==>
            CommitKey(p.trail.repo, e.sha) in db.shared.commits && SlotOf(p, e) !in db.overlay.states
  {
  }

  lemma {:induction false} StateMeansSlot(db: Db, p: Publication, n: nat, slot: EntrySlot)
    requires n <= |p.entries| && EntriesStored(db, p, p.entries[..n]) && slot.trail == p.id
    ensures slot in db.overlay.states <==> exists i :: 0 <= i < n && SlotOf(p, p.entries[i]) == slot
  {
  }

  /**
   * Publication succeeds exactly when the trail is new by its id and by its columns, whenever it was built, its commits
   * are distinct, its entries are distinct, and the commit of each entry is known.
   */
  lemma PublishSucceedsExactly(db: Db, p: Publication)
    requires Linked(db)
    ensures Publish(db, p).Some? <==>
            && p.id !in db.trails
            && (forall id :: id in db.trails ==>
                  db.trails[id].repo != p.trail.repo || db.trails[id].identity != p.trail.identity)
            && DistinctOids(p.commits, |p.commits|)
            && DistinctSlots(p, |p.entries|)
            && CommitsKnown(db, p)
  {
    hide AddCommits, AddEntries, DistinctOids, DistinctSlots, HasOid, UntouchedBut, SharedGrows, CommitsPlaced;
    if !IdTaken(db, p) {
      LinkedIsFresh(db, p.id);
      var start := db.(trails := db.trails[p.id := p.trail]);
      CommitsAddExactly(start, p, |p.commits|);
      if AddCommits(start, p, |p.commits|).Some? {
        var middle := AddCommits(start, p, |p.commits|).value;
        CommitsAdded(start, p, |p.commits|);
        EntriesAddExactly(middle, p, |p.entries|);
      }
    }
  }

  // ---------------------------------------------------------------- the shape of a published trail

  lemma LinkedIsFresh(db: Db, trail: string)
    requires Linked(db) && trail !in db.trails
    ensures Fresh(db.overlay, trail)
  {
  }

  lemma TouchesAdd(a: Db, b: Db, c: Db, trail: string)
    requires UntouchedBut(a.overlay, b.overlay, trail) && UntouchedBut(b.overlay, c.overlay, trail)
    requires SharedGrows(a.shared, b.shared) && SharedGrows(b.shared, c.shared)
    ensures UntouchedBut(a.overlay, c.overlay, trail) && SharedGrows(a.shared, c.shared)
  {
  }

  lemma PlacedAgain(middle: Db, after: Db, p: Publication)
    requires CommitsPlaced(middle, p, |p.commits|)
    requires after.overlay.members == middle.overlay.members && after.shared.commits == middle.shared.commits
    ensures CommitsPlaced(after, p, |p.commits|)
  {
  }

  lemma PublishShape(db: Db, p: Publication)
    requires Linked(db) && Publish(db, p).Some?
    ensures var after := Publish(db, p).value;
            && after.trails == db.trails[p.id := p.trail] && after.aliases == db.aliases
            && p.id !in db.trails
            && UntouchedBut(db.overlay, after.overlay, p.id)
            && SharedGrows(db.shared, after.shared)
            && CommitsPlaced(after, p, |p.commits|)
            && EntriesStored(after, p, p.entries)
            && MetadataStored(after, p, p.entries)
            && EntriesShared(after, p, p.entries)
  {
    hide EntriesStored, MetadataStored, EntriesShared, AddCommits, AddEntries, CommitsPlaced, Linked, UntouchedBut,
      SharedGrows;
    LinkedIsFresh(db, p.id);
    var start := db.(trails := db.trails[p.id := p.trail]);
    CommitsAdded(start, p, |p.commits|);
    var middle := AddCommits(start, p, |p.commits|).value;
    EntriesAdded(middle, p, |p.entries|);
    assert p.entries[..|p.entries|] == p.entries;
    PlacedAgain(middle, Publish(db, p).value, p);
    TouchesAdd(start, middle, Publish(db, p).value, p.id);
  }

  lemma PublishKeepsMembers(db: Db, after: Db, p: Publication)
    requires MembersLinked(db) && OneRepository(db) && UntouchedBut(db.overlay, after.overlay, p.id)
      && SharedGrows(db.shared, after.shared)
    requires p.id !in db.trails && after.trails == db.trails[p.id := p.trail] && CommitsPlaced(after, p, |p.commits|)
    ensures MembersLinked(after)
    ensures forall slot :: slot in after.overlay.members && slot.trail in after.trails ==>
      slot.commit.repo == after.trails[slot.trail].repo
  {
  }

  lemma PublishKeepsLinked(db: Db, p: Publication)
    requires Linked(db) && Publish(db, p).Some?
    ensures Linked(Publish(db, p).value)
  {
    hide Publish, MembersLinked, StatesLinked, CommitsPlaced, EntriesStored, MetadataStored, EntriesShared;
    PublishShape(db, p);
    var after := Publish(db, p).value;
    PublishKeepsMembers(db, after, p);
    PublishKeepsStates(db, after, p);
  }

  lemma PublishKeepsStates(db: Db, after: Db, p: Publication)
    requires StatesLinked(db) && OneRepository(db) && UntouchedBut(db.overlay, after.overlay, p.id)
      && SharedGrows(db.shared, after.shared)
    requires p.id !in db.trails && after.trails == db.trails[p.id := p.trail]
    requires EntriesStored(after, p, p.entries) && MetadataStored(after, p, p.entries)
      && EntriesShared(after, p, p.entries)
    ensures StatesLinked(after)
    ensures forall slot :: slot in after.overlay.states && slot.trail in after.trails ==>
      slot.commit.repo == after.trails[slot.trail].repo
  {
    forall slot | slot in after.overlay.states
      ensures slot.trail in after.trails && EntryKey(slot.commit, slot.index) in after.shared.entries
      ensures Slot(slot.trail, slot.commit) in after.overlay.metadata
      ensures slot.commit.repo == after.trails[slot.trail].repo
    {
      if slot.trail == p.id {
        assert HasSlot(p, p.entries, slot);
      }
    }
  }

  /** Publishing one trail leaves the rows of every other trail as they were. */
  lemma PublishFrame(db: Db, p: Publication, trail: string)
    requires Linked(db) && Publish(db, p).Some? && trail != p.id
    ensures RowsOf(Publish(db, p).value, trail) == RowsOf(db, trail)
  {
    hide Publish, CommitsPlaced, EntriesStored, MetadataStored, EntriesShared;
    PublishShape(db, p);
    SameRows(db, Publish(db, p).value, trail);
  }

  lemma SameRows(db: Db, after: Db, trail: string)
    requires StatesLinked(db)
    requires exists other :: other != trail && UntouchedBut(db.overlay, after.overlay, other)
    ensures RowsOf(after, trail) == RowsOf(db, trail)
  {
  }

  /** A published trail reads back as its published entries. */
  lemma PublishedReadBack(db: Db, p: Publication)
    requires Linked(db) && Publish(db, p).Some?
    ensures RowsOf(Publish(db, p).value, p.id) == PublishedRows(p)
  {
    hide Publish, Linked;
    PublishShape(db, p);
    var after := Publish(db, p).value;
    forall row | row in RowsOf(after, p.id) ensures row in PublishedRows(p) {
      StoredRowIsPublished(after, p, row);
    }
    forall row | row in PublishedRows(p) ensures row in RowsOf(after, p.id) {
      PublishedRowIsStored(after, p, row);
    }
  }

  lemma StoredRowIsPublished(db: Db, p: Publication, row: Row)
    requires CommitsPlaced(db, p, |p.commits|) && EntriesStored(db, p, p.entries) && MetadataStored(db, p, p.entries)
    requires row in RowsOf(db, p.id)
    ensures row in PublishedRows(p)
  {
  }

  lemma PublishedRowIsStored(db: Db, p: Publication, row: Row)
    requires CommitsPlaced(db, p, |p.commits|) && EntriesStored(db, p, p.entries) && MetadataStored(db, p, p.entries)
    requires row in PublishedRows(p)
    ensures row in RowsOf(db, p.id)
  {
  }

  // ---------------------------------------------------------------- exactly the published entries

  ghost predicate OneMetadataPerCommit(entries: seq<Entry>) {
    forall a, b :: a in entries && b in entries && a.sha == b.sha ==> a.meta == b.meta
  }

  ghost predicate WithinCommits(p: Publication) {
    forall e :: e in p.entries ==> PositionOf(p.commits, e.sha).Some?
  }

  function EntriesOf(rows: set<Row>): set<Entry> {
    set row | row in rows :: row.entry
  }

  /**
   * A trail reads back exactly the entries it was published with if and only if every entry belongs to a selected
   * commit and the entries of one commit agree on its metadata.
   */
  lemma ReadBackIsExact(p: Publication)
    requires forall i, j :: 0 <= i < j < |p.entries| ==> SlotOf(p, p.entries[i]) != SlotOf(p, p.entries[j])
    ensures EntriesOf(PublishedRows(p)) == (set e | e in p.entries) <==>
      WithinCommits(p) && OneMetadataPerCommit(p.entries)
  {
    hide PublishedRows, PositionOf, LastMeta;
    var back, given := EntriesOf(PublishedRows(p)), set e | e in p.entries;
    if WithinCommits(p) && OneMetadataPerCommit(p.entries) {
      forall e | e in p.entries ensures e in back {
        MetaExists(p.entries, e);
        EntryIsRead(p, e);
      }
      forall e | e in back ensures e in given {
        var f := ReadEntry(p, e);
        MetaExists(p.entries, f);
      }
    }
    if back == given {
      forall e | e in p.entries
        ensures PositionOf(p.commits, e.sha).Some? && LastMeta(p.entries, e.sha) == Some(e.meta)
      {
        assert e in back;
        var f := ReadEntry(p, e);
      }
    }
  }

  lemma EntryIsRead(p: Publication, e: Entry)
    requires e in p.entries && PositionOf(p.commits, e.sha).Some? && LastMeta(p.entries, e.sha) == Some(e.meta)
    ensures e in EntriesOf(PublishedRows(p))
  {
    var row := Row(PositionOf(p.commits, e.sha).value, e);
    assert row in PublishedRows(p);
    assert row.entry == e;
  }

  lemma ReadEntry(p: Publication, e: Entry) returns (f: Entry)
    requires e in EntriesOf(PublishedRows(p))
    ensures f in p.entries && f.sha == e.sha && f.index == e.index && f.body == e.body
    ensures PositionOf(p.commits, e.sha).Some? && LastMeta(p.entries, e.sha) == Some(e.meta)
  {
    var row :| row in PublishedRows(p) && row.entry == e;
    f :| f in p.entries && PositionOf(p.commits, f.sha).Some? && LastMeta(p.entries, f.sha).Some?
      && row == Row(PositionOf(p.commits, f.sha).value,
           Entry(f.sha, f.index, f.body, LastMeta(p.entries, f.sha).value));
  }
}
