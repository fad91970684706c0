/** Published trails over shared commits: publication, read-back, cascades of deletion. */
module Trails {
  import opened Results

  datatype CommitKey = CommitKey(repo: int, oid: string)

  datatype Body = Body(kind: string, content: string, score: real, valid: bool, time: int, scope: Option<string>)

  datatype Meta = Meta(areas: Option<string>, owner: Option<string>, tags: string, conflicts: string)

  datatype Entry = Entry(sha: string, index: nat, body: Body, meta: Meta)

  /** `identity` stands for the columns that are unique within a repository. */
  datatype Trail = Trail(repo: int, identity: string, time: int)

  datatype CommitFact = CommitFact(oid: string, time: int, areas: Option<string>)

  datatype Publication = Publication(id: string, trail: Trail, commits: seq<CommitFact>, entries: seq<Entry>)

  datatype Slot = Slot(trail: string, commit: CommitKey)

  datatype EntrySlot = EntrySlot(trail: string, commit: CommitKey, index: nat)

  datatype EntryKey = EntryKey(commit: CommitKey, index: nat)

  datatype AliasKey = AliasKey(repo: int, selector: string)

  /** The overlays of single trails. */
  datatype Overlay = Overlay(members: map<Slot, nat>, states: map<EntrySlot, Body>, metadata: map<Slot, Meta>)

  /** The rows that trails share. */
  datatype Shared = Shared(commits: map<CommitKey, int>, entries: set<EntryKey>, metadata: map<CommitKey, Meta>)

  datatype Db = Db(trails: map<string, Trail>, overlay: Overlay, shared: Shared, aliases: map<AliasKey, string>)

  // ---------------------------------------------------------------- publication

  function AddCommit(db: Db, p: Publication, i: nat): Option<Db>
    requires i < |p.commits|
  {
    var commit := p.commits[i];
    var key := CommitKey(p.trail.repo, commit.oid);
    var slot := Slot(p.id, key);
    if slot in db.overlay.members then None
    else
      var s := db.shared;
      Some(db.(overlay := db.overlay.(members := db.overlay.members[slot := i]),
               shared := s.(commits := if key in s.commits then s.commits else s.commits[key := commit.time],
                            metadata := if key in s.metadata then s.metadata
                                        else s.metadata[key := Meta(commit.areas, None, "[]", "[]")])))
  }

  function AddCommits(db: Db, p: Publication, n: nat): Option<Db>
    requires n <= |p.commits|
  {
    if n == 0 then Some(db)
    else
      match AddCommits(db, p, n - 1)
      case None => None
      case Some(before) => AddCommit(before, p, n - 1)
  }

  /** A state row needs its shared entry, that entry its commit, and each state row is new; metadata is replaced. */
  function AddEntry(db: Db, p: Publication, entry: Entry): Option<Db> {
    var key := CommitKey(p.trail.repo, entry.sha);
    var slot := EntrySlot(p.id, key, entry.index);
    if key !in db.shared.commits || slot in db.overlay.states then None
    else
      Some(db.(overlay := db.overlay.(states := db.overlay.states[slot := entry.body],
                                      metadata := db.overlay.metadata[Slot(p.id, key) := entry.meta]),
               shared := db.shared.(entries := db.shared.entries + {EntryKey(key, entry.index)})))
  }

  function AddEntries(db: Db, p: Publication, n: nat): Option<Db>
    requires n <= |p.entries|
  {
    if n == 0 then Some(db)
    else
      match AddEntries(db, p, n - 1)
      case None => None
      case Some(before) => AddEntry(before, p, p.entries[n - 1])
  }

  predicate IdTaken(db: Db, p: Publication) {
    p.id in db.trails || exists id :: id in db.trails && db.trails[id].(time := p.trail.time) == p.trail
  }

  /** A broken key undoes the whole publication. */
  function Publish(db: Db, p: Publication): Option<Db> {
    if IdTaken(db, p) then None
    else
      match AddCommits(db.(trails := db.trails[p.id := p.trail]), p, |p.commits|)
      case None => None
      case Some(withCommits) => AddEntries(withCommits, p, |p.entries|)
  }

  // ---------------------------------------------------------------- read-back

  datatype Row = Row(position: nat, entry: Entry)

  function MetaOf(db: Db, slot: Slot): Meta {
    if slot in db.overlay.metadata then db.overlay.metadata[slot]
    else if slot.commit in db.shared.metadata then db.shared.metadata[slot.commit]
    else Meta(None, None, "[]", "[]")
  }

  /** The rows of the query, before ordering. */
  function RowsOf(db: Db, trail: string): set<Row> {
    set slot | slot in db.overlay.states && slot.trail == trail && Slot(trail, slot.commit) in db.overlay.members ::
      Row(db.overlay.members[Slot(trail, slot.commit)],
          Entry(slot.commit.oid, slot.index, db.overlay.states[slot], MetaOf(db, Slot(trail, slot.commit))))
  }

  predicate RowBefore(a: Row, b: Row) {
    a.position < b.position || (a.position == b.position && a.entry.index < b.entry.index)
  }

  /** `list` holds exactly the given rows, in order of position and annotation index. */
  ghost predicate Lists(list: seq<Row>, rows: set<Row>) {
    && (forall row :: row in rows <==> row in list)
    && (forall i, j :: 0 <= i < j < |list| ==> RowBefore(list[i], list[j]))
  }

  // ---------------------------------------------------------------- deletion

  function DropTrails(db: Db, ids: set<string>): Db {
    Db(db.trails - ids,
       Overlay(map slot | slot in db.overlay.members && slot.trail !in ids :: db.overlay.members[slot],
               map slot | slot in db.overlay.states && slot.trail !in ids :: db.overlay.states[slot],
               map slot | slot in db.overlay.metadata && slot.trail !in ids :: db.overlay.metadata[slot]),
       db.shared,
       map alias | alias in db.aliases && db.aliases[alias] !in ids :: db.aliases[alias])
  }

  function DropCommits(db: Db, gone: set<CommitKey>): Db {
    Db(db.trails,
       Overlay(map slot | slot in db.overlay.members && slot.commit !in gone :: db.overlay.members[slot],
               map slot | slot in db.overlay.states && slot.commit !in gone :: db.overlay.states[slot],
               map slot | slot in db.overlay.metadata && slot.commit !in gone :: db.overlay.metadata[slot]),
       Shared(db.shared.commits - gone,
              (set key | key in db.shared.entries && key.commit !in gone),
              db.shared.metadata - gone),
       db.aliases)
  }

  predicate Referenced(db: Db, commit: CommitKey) {
    exists slot :: slot in db.overlay.members && slot.commit == commit
  }

  // ---------------------------------------------------------------- reading is determined by the rows

  lemma {:induction false} ListingIsUnique(a: seq<Row>, b: seq<Row>, rows: set<Row>)
    requires Lists(a, rows) && Lists(b, rows)
    ensures a == b
  {
    assert a != [] ==> a[0] in rows;
    assert b != [] ==> b[0] in rows;
    if a != [] && b != [] {
      FirstAgrees(a, b, rows);
      RestLists(a, rows);
      RestLists(b, rows);
      ListingIsUnique(a[1..], b[1..], rows - {a[0]});
    }
  }

  lemma {:induction false} FirstAgrees(a: seq<Row>, b: seq<Row>, rows: set<Row>)
    requires Lists(a, rows) && Lists(b, rows) && a != [] && b != []
    ensures a[0] == b[0]
  {
    assert a[0] in rows && b[0] in rows;
    var i :| 0 <= i < |b| && b[i] == a[0];
    var j :| 0 <= j < |a| && a[j] == b[0];
  }

  lemma {:induction false} RestLists(list: seq<Row>, rows: set<Row>)
    requires Lists(list, rows) && list != []
    ensures Lists(list[1..], rows - {list[0]})
  {
  }
}
