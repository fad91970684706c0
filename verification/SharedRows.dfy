/** What a publication adds to the rows that trails share. */
module SharedRows {
  import opened Results
  import opened TrailReadback
  import opened Trails

  /** A row of the table that was there stays; the published commits are added, each with its own value. */
  ghost predicate Joined<T>(before: map<CommitKey, T>, after: map<CommitKey, T>, p: Publication, n: nat,
      value: CommitFact -> T)
    requires n <= |p.commits|
  {
    && (forall key :: key in after <==>
          key in before || (key.repo == p.trail.repo && HasOid(p.commits, n, key.oid)))
    && (forall key :: key in before ==> key in after && after[key] == before[key])
    && (forall i :: 0 <= i < n ==>
          var key := CommitKey(p.trail.repo, p.commits[i].oid);
          key !in before ==> key in after && after[key] == value(p.commits[i]))
  }

  lemma JoinOne<T>(before: map<CommitKey, T>, middle: map<CommitKey, T>, p: Publication, n: nat,
      value: CommitFact -> T)
    requires n < |p.commits| && !HasOid(p.commits, n, p.commits[n].oid) && Joined(before, middle, p, n, value)
    ensures var key := CommitKey(p.trail.repo, p.commits[n].oid);
            Joined(before, if key in middle then middle else middle[key := value(p.commits[n])], p, n + 1, value)
  {
    HasOidGrows(p.commits, n + 1);
    forall i | 0 <= i < n ensures p.commits[i].oid != p.commits[n].oid {
    }
    hide HasOid;
  }

  function TimeOf(commit: CommitFact): int {
    commit.time
  }

  function FirstMeta(commit: CommitFact): Meta {
    Meta(commit.areas, None, "[]", "[]")
  }

  lemma NothingJoins<T>(table: map<CommitKey, T>, p: Publication, value: CommitFact -> T)
    ensures Joined(table, table, p, 0, value)
  {
  }

  lemma OneCommit(db: Db, p: Publication, i: nat)
    requires i < |p.commits| && AddCommit(db, p, i).Some?
    ensures var c, key, after := p.commits[i], CommitKey(p.trail.repo, p.commits[i].oid),
      AddCommit(db, p, i).value.shared;
            && after.entries == db.shared.entries
            && after.commits == (if key in db.shared.commits then db.shared.commits
                 else db.shared.commits[key := c.time])
            && after.metadata == (if key in db.shared.metadata then db.shared.metadata
                                  else db.shared.metadata[key := FirstMeta(c)])
  {
  }

  lemma {:induction false} CommitsJoin(db: Db, p: Publication, n: nat)
    requires n <= |p.commits| && AddCommits(db, p, n).Some? && DistinctOids(p.commits, n)
    ensures var after := AddCommits(db, p, n).value.shared;
            && after.entries == db.shared.entries
            && Joined(db.shared.commits, after.commits, p, n, TimeOf)
            && Joined(db.shared.metadata, after.metadata, p, n, FirstMeta)
  {
    hide Joined, HasOid, DistinctOids, AddCommit;
    if n == 0 {
      NothingJoins(db.shared.commits, p, TimeOf);
      NothingJoins(db.shared.metadata, p, FirstMeta);
    } else {
      DistinctGrows(p.commits, n);
      CommitsJoin(db, p, n - 1);
      var middle := AddCommits(db, p, n - 1).value.shared;
      OneCommit(AddCommits(db, p, n - 1).value, p, n - 1);
      JoinOne(db.shared.commits, middle.commits, p, n - 1, TimeOf);
      JoinOne(db.shared.metadata, middle.metadata, p, n - 1, FirstMeta);
    }
  }

  lemma {:induction false} EntriesJoin(db: Db, p: Publication, n: nat)
    requires n <= |p.entries| && AddEntries(db, p, n).Some?
    ensures var after := AddEntries(db, p, n).value.shared;
            && after.commits == db.shared.commits && after.metadata == db.shared.metadata
            && forall key :: key in after.entries <==> key in db.shared.entries || HasEntry(p, n, key)
  {
    if n > 0 {
      EntriesJoin(db, p, n - 1);
      assert forall key :: HasEntry(p, n, key) <==>
        HasEntry(p, n - 1, key)
        || key == EntryKey(CommitKey(p.trail.repo, p.entries[n - 1].sha), p.entries[n - 1].index);
    }
  }

  predicate HasEntry(p: Publication, n: nat, key: EntryKey)
    requires n <= |p.entries|
  {
    exists i :: 0 <= i < n && key == EntryKey(CommitKey(p.trail.repo, p.entries[i].sha), p.entries[i].index)
  }

  /**
   * What a publication adds to the rows that trails share: its commits with their times and, where the commit has no
   * metadata yet, its areas alone; and its entries. Rows that were there stay as they were.
   */
  lemma {:induction false} PublishShares(db: Db, p: Publication)
    requires Linked(db) && Publish(db, p).Some?
    ensures var after, n := Publish(db, p).value.shared, |p.commits|;
            && (forall key :: key in after.commits <==>
                  key in db.shared.commits || (key.repo == p.trail.repo && HasOid(p.commits, n, key.oid)))
            && (forall key :: key in db.shared.commits ==> after.commits[key] == db.shared.commits[key])
            && (forall key :: key in db.shared.metadata ==>
                  key in after.metadata && after.metadata[key] == db.shared.metadata[key])
            && (forall i :: 0 <= i < n ==>
                  var c := p.commits[i]; var key := CommitKey(p.trail.repo, c.oid);
                  && (key !in db.shared.commits ==> after.commits[key] == c.time)
                  && (key !in db.shared.metadata ==>
                        key in after.metadata && after.metadata[key] == Meta(c.areas, None, "[]", "[]")))
            && (forall key :: key in after.entries <==>
                  key in db.shared.entries || HasEntry(p, |p.entries|, key))
  {
    hide Linked, AddCommits, AddEntries, HasOid;
    PublishSucceedsExactly(db, p);
    var start := db.(trails := db.trails[p.id := p.trail]);
    CommitsJoin(start, p, |p.commits|);
    EntriesJoin(AddCommits(start, p, |p.commits|).value, p, |p.entries|);
  }
}
