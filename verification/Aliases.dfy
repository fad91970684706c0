/** Aliases of trails: what finalizing writes, and that an aliased trail stays. */
module Aliases {
  import opened Finalization
  import opened Retention
  import opened Trails
  import opened TrailReadback

  /** The alias that this finalization sets. */
  ghost predicate Sets(req: Request, alias: AliasKey) {
    req.alias.Some? && alias == AliasKey(req.repo, req.alias.value)
  }

  /** An alias may only name a stored trail; it then points to the active one, and no other alias or table changes. */
  lemma AliasIsWritten(db: Db, req: Request)
    ensures SetAlias(db, req).None? <==> req.alias.Some? && req.active !in db.trails
    ensures SetAlias(db, req).Some? ==>
      var named := SetAlias(db, req).value;
      && named.trails == db.trails && named.overlay == db.overlay && named.shared == db.shared
      && (forall alias :: Sets(req, alias) ==>
            alias in named.aliases && named.aliases[alias] == req.active && req.active in named.trails)
      && (forall alias :: !Sets(req, alias) ==>
            && (alias in named.aliases <==> alias in db.aliases)
            && (alias in db.aliases ==> named.aliases[alias] == db.aliases[alias]))
  {
  }

  /** What a finalization evicts takes no alias away. */
  lemma {:induction false} EvictionKeepsAliases(db: Db, req: Request, trails: seq<Cohort>, commits: seq<Cohort>)
    requires Prescribed(db, req, trails, commits)
    ensures Evicted(db, trails, commits).aliases == db.aliases
    ensures forall alias :: alias in db.aliases && db.aliases[alias] in db.trails ==>
              db.aliases[alias] in Evicted(db, trails, commits).trails
  {
    hide IsPlan, EligibleTrails, EligibleCommits, TrailTotal, LooseTotal;
    forall alias | alias in db.aliases ensures db.aliases[alias] !in Ids(trails) {
      assert Aliased(db, db.aliases[alias]);
      if db.aliases[alias] in Ids(trails) {
        EvictedTrailsAreExpendable(db, req, trails, db.aliases[alias]);
      }
    }
  }

  /**
   * After a finalization the requested alias points to the active trail, which is stored; every other alias points
   * where it pointed before; and a trail that has an alias is still stored.
   */
  lemma {:induction false} FinalizedAliases(db: Db, req: Request, trails: seq<Cohort>, commits: seq<Cohort>)
    requires SetAlias(db, req).Some? && Prescribed(SetAlias(db, req).value, req, trails, commits)
    ensures var after := Evicted(SetAlias(db, req).value, trails, commits);
            && (forall alias :: Sets(req, alias) ==>
                  alias in after.aliases && after.aliases[alias] == req.active && req.active in after.trails)
            && (forall alias :: !Sets(req, alias) ==>
                  && (alias in after.aliases <==> alias in db.aliases)
                  && (alias in db.aliases ==> after.aliases[alias] == db.aliases[alias])
                  && (alias in db.aliases && db.aliases[alias] in db.trails ==> after.aliases[alias] in after.trails))
  {
    hide Prescribed, SetAlias, Evicted, Sets;
    AliasIsWritten(db, req);
    EvictionKeepsAliases(SetAlias(db, req).value, req, trails, commits);
  }

  /** The operation does not point the alias to another trail. */
  ghost predicate LeavesAlias(op: Op, alias: AliasKey, trail: string) {
    op.FinalizeOp? && Sets(op.request, alias) ==> op.request.active == trail
  }

  lemma StepKeepsAlias(db: Db, op: Op, alias: AliasKey, trail: string)
    requires Linked(db) && Valid(db, op) && LeavesAlias(op, alias, trail)
    requires alias in db.aliases && db.aliases[alias] == trail && trail in db.trails
    ensures var after := Apply(db, op);
            Linked(after) && alias in after.aliases && after.aliases[alias] == trail && trail in after.trails
  {
    hide Linked, Prescribed, SetAlias, Evicted, Publish, Sets;
    StepKeeps(db, op, trail);
    match op
    case PublishOp(p) =>
      if Publish(db, p).Some? {
        PublishShape(db, p);
      }
    case FinalizeOp(req, trails, commits) =>
      if SetAlias(db, req).Some? {
        FinalizedAliases(db, req, trails, commits);
      }
  }

  /**
   * Over every run of publications and finalizations in which its alias is not pointed to another trail, an aliased
   * trail keeps its alias, stays stored, and reads back the same rows, however full the store gets.
   */
  lemma {:induction false} AliasedTrailStays(db: Db, ops: seq<Op>, alias: AliasKey, trail: string)
    requires Linked(db) && AllValid(db, ops)
    requires alias in db.aliases && db.aliases[alias] == trail && trail in db.trails
    requires forall op :: op in ops ==> LeavesAlias(op, alias, trail)
    ensures var after := Run(db, ops);
            && Linked(after) && alias in after.aliases && after.aliases[alias] == trail && trail in after.trails
            && RowsOf(after, trail) == RowsOf(db, trail)
  {
    hide Linked, RowsOf, Valid, Apply, LeavesAlias;
    if ops != [] {
      var before, op := ops[..|ops| - 1], ops[|ops| - 1];
      assert op in ops;
      forall i | 0 <= i < |before| ensures Valid(Run(db, before[..i]), before[i]) {
        assert before[..i] == ops[..i];
      }
      AliasedTrailStays(db, before, alias, trail);
      StepKeepsAlias(Run(db, before), op, alias, trail);
      StepKeeps(Run(db, before), op, trail);
    }
  }
}
