/** Replaying commit updates into a projection: `evaluate_update` inside an all-or-nothing `apply_range`. */
module Projection {
  import opened Graphs
  import opened Results
  import opened MetaRange
  import Metadata
  import Effects

  datatype MetaKey = AffectedAreas | Owner | Tags

  /** A set operation carries a value, a null operation carries none. */
  datatype Operation = Operation(key: MetaKey, value: Option<string>)

  datatype Action =
    | Effect(effect: Effects.Effect)
    | MetadataPatch(from: Oid, to: Oid, operations: seq<Operation>)
    | Diagnose(message: string)

  datatype Update = Update(commit: Commit, areas: Option<seq<string>>, actions: seq<Action>, complete: bool)

  datatype CommitMetadata = CommitMetadata(areas: Option<seq<string>>, owner: Option<string>, tags: seq<string>,
      conflicts: set<MetaKey>)

  /** The rows of one target and key. */
  datatype Slot = Slot(target: Oid, key: MetaKey)

  type Rows = map<Oid, Option<string>>

  /** The `metadata_assignments` and `commit_metadata` rows. */
  datatype Overlay = Overlay(assignments: map<Slot, Rows>, metadata: map<Oid, CommitMetadata>)

  datatype State = State(tables: Tables, entries: map<Effects.Key, Effects.Entry>, overlay: Overlay)

  datatype ReplayError = BadRange(error: MetaError) | MissingCommit

  const FRESH := State(EMPTY, map[], Overlay(map[], map[]))

  /** The ancestry relation of a set of parent edges. */
  ghost function Ancestry(edges: set<(Oid, Oid)>): Metadata.Relation {
    (a, b) => Reaches(edges, a, b)
  }

  /** The ancestry that is told while the memo holds what it held before. */
  ghost function ToldAncestry(edges: set<(Oid, Oid)>, memo: Memo): Metadata.Relation {
    (a, b) => Told(edges, memo, a, b)
  }

  function RowsAt(assignments: map<Slot, Rows>, slot: Slot): Rows {
    if slot in assignments then assignments[slot] else map[]
  }

  function SetColumn(metadata: CommitMetadata, key: MetaKey, value: Option<string>): CommitMetadata {
    match key
    case AffectedAreas => metadata.(areas := if value.Some? then Some([value.value]) else None)
    case Owner => metadata.(owner := value)
    case Tags => metadata.(tags := if value.Some? then [value.value] else [])
  }

  /** The one value of the rows, or none when the rows disagree. */
  function AgreedValue(rows: Rows): Option<string>
    requires rows != map[]
  {
    if Metadata.Conflicted(rows) then None
    else
      assert |rows.Values| == 1 by {
        var k :| k in rows;
        assert rows[k] in rows.Values;
      }
      Effects.TheOne(rows.Values)
  }

  function Reflect(metadata: CommitMetadata, key: MetaKey, rows: Rows): CommitMetadata
    requires rows != map[]
  {
    var flagged := metadata.(conflicts := if Metadata.Conflicted(rows) then metadata.conflicts + {key}
                                      else metadata.conflicts - {key});
    SetColumn(flagged, key, AgreedValue(rows))
  }

  // ---------------------------------------------------------------- specification of one update

  ghost function AssignOne(reach: Metadata.Relation, o: Overlay, target: Oid, source: Oid, operation: Operation)
    : Overlay
  {
    var slot := Slot(target, operation.key);
    var rows := Metadata.AssignStep(reach, RowsAt(o.assignments, slot), Metadata.Assignment(source, operation.value));
    assert source in rows;
    Overlay(o.assignments[slot := rows],
            if target in o.metadata then o.metadata[target := Reflect(o.metadata[target], operation.key, rows)]
            else o.metadata)
  }

  ghost function AssignOperations(reach: Metadata.Relation, o: Overlay, target: Oid, source: Oid,
      operations: seq<Operation>, n: nat): Overlay
    requires n <= |operations|
  {
    if n == 0 then o
    else
      var before := AssignOperations(reach, o, target, source, operations, n - 1);
      AssignOne(reach, before, target, source, operations[n - 1])
  }

  ghost function AssignTargets(reach: Metadata.Relation, o: Overlay, targets: seq<Oid>, source: Oid,
      operations: seq<Operation>, n: nat): Overlay
    requires n <= |targets|
  {
    if n == 0 then o
    else
      var before := AssignTargets(reach, o, targets, source, operations, n - 1);
      AssignOperations(reach, before, targets[n - 1], source, operations, |operations|)
  }

  /** One action. `memo` holds the answers to ancestry questions that were memoised before this update. */
  ghost function Act(s: State, memo: Memo, update: Update, action: Action)
    : Result<(State, seq<Effects.Outcome>), ReplayError>
  {
    match action
    case Effect(effect) =>
      if effect.AddEntry? && effect.oid !in s.tables.commits then Failure(MissingCommit)
      else
        var (entries, reported) := Effects.Apply(s.entries, Effects.Step(update.commit.oid, effect));
        Success((s.(entries := entries), if reported.Some? then [reported.value] else []))
    case MetadataPatch(from, to, operations) =>
      var targets := ToldTargets(s.tables, memo, update.commit.oid, from, to, update.complete);
      if targets.Failure? then Failure(BadRange(targets.error))
      else
        var reach := ToldAncestry(s.tables.edges, memo);
        var patched := AssignTargets(reach, s.overlay, targets.value, update.commit.oid, operations, |targets.value|);
        Success((s.(overlay := patched), []))
    case Diagnose(_) => Success((s, []))
  }

  ghost function RunActions(s: State, memo: Memo, update: Update, n: nat)
    : Result<(State, seq<Effects.Outcome>), ReplayError>
    requires n <= |update.actions|
  {
    if n == 0 then Success((s, []))
    else
      var before := RunActions(s, memo, update, n - 1);
      if before.Failure? then before
      else
        var acted := Act(before.value.0, memo, update, update.actions[n - 1]);
        if acted.Failure? then acted else Success((acted.value.0, before.value.1 + acted.value.1))
  }

  /** `INSERT OR IGNORE` of the commit's metadata row. */
  function WithRow(o: Overlay, update: Update): Overlay {
    if update.commit.oid in o.metadata then o
    else o.(metadata := o.metadata[update.commit.oid := CommitMetadata(update.areas, None, [], {})])
  }

  /**
   * What the cascade of a replaced commit row leaves: none of its entries, its metadata, or assignments to or by it.
   */
  function Purged(s: State, oid: Oid): State {
    State(s.tables,
          map key | key in s.entries && key.0 != oid :: s.entries[key],
          Overlay(map slot | slot in s.overlay.assignments && slot.target != oid :: s.overlay.assignments[slot] - {oid},
                  s.overlay.metadata - {oid}))
  }

  /** `INSERT OR REPLACE` of the commit row and its dependent rows. */
  function Arrive(s: State, update: Update): State {
    var kept := if update.commit.oid in s.tables.commits then Purged(s, update.commit.oid) else s;
    State(InsertCommit(s.tables, update.commit), kept.entries, WithRow(kept.overlay, update))
  }

  ghost function Evaluate(s: State, memo: Memo, update: Update): Result<(State, seq<Effects.Outcome>), ReplayError> {
    RunActions(Arrive(s, update), memo, update, |update.actions|)
  }

  /** The replay in which update `i` starts with the memo `memos[i]`. */
  ghost function ToldReplay(s: State, memos: seq<Memo>, updates: seq<Update>, n: nat): Result<State, ReplayError>
    requires n <= |updates| == |memos|
  {
    if n == 0 then Success(s)
    else
      var before := ToldReplay(s, memos, updates, n - 1);
      if before.Failure? then before
      else
        var evaluated := Evaluate(before.value, memos[n - 1], updates[n - 1]);
        if evaluated.Failure? then Failure(evaluated.error) else Success(evaluated.value.0)
  }

  /** The replay that asks every question afresh. */
  ghost function Replay(s: State, updates: seq<Update>, n: nat): Result<State, ReplayError>
    requires n <= |updates|
  {
    if n == 0 then Success(s)
    else
      var before := Replay(s, updates, n - 1);
      if before.Failure? then before
      else
        var evaluated := Evaluate(before.value, NOTHING, updates[n - 1]);
        if evaluated.Failure? then Failure(evaluated.error) else Success(evaluated.value.0)
  }

  predicate NoPatch(update: Update) {
    forall i :: 0 <= i < |update.actions| ==> !update.actions[i].MetadataPatch?
  }

  /** What update `i` may add to the memo: answers that are right on the tables it leaves, and none without a patch. */
  ghost predicate Learns(s: State, memos: seq<Memo>, updates: seq<Update>, i: nat)
    requires i + 1 < |memos| == |updates|
  {
    ToldReplay(s, memos, updates, i + 1).Success? ==>
      && Extends(ToldReplay(s, memos, updates, i + 1).value.tables, memos[i], memos[i + 1])
      && (NoPatch(updates[i]) ==> memos[i + 1] == memos[i])
  }

  ghost predicate ChainTo(s: State, memos: seq<Memo>, updates: seq<Update>, n: nat) {
    && |memos| == |updates|
    && (memos != [] ==> memos[0] == NOTHING)
    && forall i {:trigger Learns(s, memos, updates, i)} :: 0 <= i < n && i + 1 < |memos| ==>
         Learns(s, memos, updates, i)
  }

  /** The memos with which the updates of one range may start. */
  ghost predicate Chain(s: State, memos: seq<Memo>, updates: seq<Update>) {
    ChainTo(s, memos, updates, |updates|)
  }

  /** Only patches ask for ancestry, so before the first one the memo is empty. */
  predicate NoPatchBefore(updates: seq<Update>, n: nat)
    requires n <= |updates|
  {
    forall i :: 0 <= i < n ==> NoPatch(updates[i])
  }

  ghost predicate MemoSafeAt(s: State, updates: seq<Update>, n: nat)
    requires n < |updates|
  {
    || NoPatchBefore(updates, n)
    || (Replay(s, updates, n).Success? ==> Arrives(Replay(s, updates, n).value.tables, updates[n].commit))
  }

  /** After the first patch, each update brings a new commit that no earlier one names as a parent. */
  ghost predicate MemoSafe(s: State, updates: seq<Update>) {
    forall n {:trigger MemoSafeAt(s, updates, n)} :: 0 <= n < |updates| ==> MemoSafeAt(s, updates, n)
  }

  /** Every stored assignment is between stored commits, and every stored commit has a metadata row. */
  ghost predicate Consistent(commits: seq<Oid>, o: Overlay) {
    && (forall slot :: slot in o.assignments ==> slot.target in commits)
    && (forall slot, source :: slot in o.assignments && source in o.assignments[slot] ==> source in commits)
    && (forall c :: c in commits ==> c in o.metadata)
  }

  lemma {:induction false} ArriveConsistent(s: State, update: Update)
    requires Consistent(s.tables.commits, s.overlay)
    ensures Consistent(Arrive(s, update).tables.commits, Arrive(s, update).overlay)
  {
    WithoutMembers(s.tables.commits, update.commit.oid);
  }

  lemma AssignOneConsistent(reach: Metadata.Relation, commits: seq<Oid>, o: Overlay, target: Oid, source: Oid,
      operation: Operation)
    requires Consistent(commits, o) && source in commits && target in commits
    ensures Consistent(commits, AssignOne(reach, o, target, source, operation))
  {
  }

  /** A told range lists only stored commits if the memoised ranges do. */
  lemma {:induction false} SelectedFrom(tables: Tables, memo: Memo, from: Oid, to: Oid, update: Update,
      targets: seq<Oid>)
    requires ListsStored(tables.commits, memo)
    requires ToldTargets(tables, memo, update.commit.oid, from, to, update.complete) == Success(targets)
    ensures forall t :: t in targets ==> t in tables.commits
  {
    hide FreshRange, Told;
    var f, t := ResolveCommitPrefix(tables.commits, from).value, ResolveCommitPrefix(tables.commits, to).value;
    RangeListsStored(tables, f, t);
  }

  // ---------------------------------------------------------------- what the memo changes

  /** Two relations that answer alike lead to the same rows. */
  lemma {:induction false} AlikeOperations(a: Metadata.Relation, b: Metadata.Relation, o: Overlay, target: Oid,
      source: Oid, operations: seq<Operation>, n: nat)
    requires n <= |operations| && forall c, d :: a(c, d) == b(c, d)
    ensures AssignOperations(a, o, target, source, operations, n)
         == AssignOperations(b, o, target, source, operations, n)
  {
    hide Reflect;
    if n > 0 {
      AlikeOperations(a, b, o, target, source, operations, n - 1);
    }
  }

  lemma {:induction false} AlikeTargets(a: Metadata.Relation, b: Metadata.Relation, o: Overlay, targets: seq<Oid>,
      source: Oid, operations: seq<Operation>, n: nat)
    requires n <= |targets| && forall c, d :: a(c, d) == b(c, d)
    ensures AssignTargets(a, o, targets, source, operations, n) == AssignTargets(b, o, targets, source, operations, n)
  {
    hide AssignOperations;
    if n > 0 {
      AlikeTargets(a, b, o, targets, source, operations, n - 1);
      var before := AssignTargets(a, o, targets, source, operations, n - 1);
      AlikeOperations(a, b, before, targets[n - 1], source, operations, |operations|);
    }
  }

  /** Memos that tell the same have the same effect. */
  ghost predicate TellAlike(tables: Tables, a: Memo, b: Memo) {
    && (forall c, d :: Told(tables.edges, a, c, d) == Told(tables.edges, b, c, d))
    && (forall c, d :: ToldRange(tables, a, c, d) == ToldRange(tables, b, c, d))
  }

  lemma AlikeActs(s: State, a: Memo, b: Memo, update: Update, action: Action)
    requires TellAlike(s.tables, a, b)
    ensures Act(s, a, update, action) == Act(s, b, update, action)
  {
    hide Told, ToldRange, AssignTargets;
    if action.MetadataPatch? {
      var targets := ToldTargets(s.tables, a, update.commit.oid, action.from, action.to, update.complete);
      if targets.Success? {
        AlikeTargets(ToldAncestry(s.tables.edges, a), ToldAncestry(s.tables.edges, b), s.overlay, targets.value,
                     update.commit.oid, action.operations, |targets.value|);
      }
    }
  }

  lemma ActKeepsTables(s: State, memo: Memo, update: Update, action: Action)
    ensures Act(s, memo, update, action).Success? ==> Act(s, memo, update, action).value.0.tables == s.tables
  {
    hide ToldTargets, AssignTargets, Effects.Apply;
  }

  lemma {:induction false} AlikeRuns(s: State, a: Memo, b: Memo, update: Update, n: nat)
    requires n <= |update.actions| && TellAlike(s.tables, a, b)
    ensures RunActions(s, a, update, n) == RunActions(s, b, update, n)
    ensures RunActions(s, a, update, n).Success? ==> RunActions(s, a, update, n).value.0.tables == s.tables
  {
    hide Act, TellAlike;
    if n > 0 {
      AlikeRuns(s, a, b, update, n - 1);
      var before := RunActions(s, a, update, n - 1);
      if before.Success? {
        AlikeActs(before.value.0, a, b, update, update.actions[n - 1]);
        ActKeepsTables(before.value.0, a, update, update.actions[n - 1]);
      }
    }
  }

  /** With a memo that is sound for the tables of the update, it evaluates as if every question were asked afresh. */
  lemma SoundMemoEvaluates(s: State, memo: Memo, update: Update)
    requires SoundMemo(InsertCommit(s.tables, update.commit), memo)
    ensures Evaluate(s, memo, update) == Evaluate(s, NOTHING, update)
    ensures Evaluate(s, memo, update).Success? ==>
      Evaluate(s, memo, update).value.0.tables == InsertCommit(s.tables, update.commit)
  {
    hide Told, ToldRange, RunActions, SoundMemo;
    var tables := InsertCommit(s.tables, update.commit);
    SoundMemoTells(tables, memo);
    EmptyIsSound(tables);
    SoundMemoTells(tables, NOTHING);
    AlikeRuns(Arrive(s, update), memo, NOTHING, update, |update.actions|);
  }

  lemma EmptyIsSound(tables: Tables)
    ensures SoundMemo(tables, NOTHING)
  {
  }

  /**
   * A range in which every update after the first patch brings a new commit that no earlier one names as a parent
   * replays as if every question were asked afresh, whatever the memo learns.
   */
  lemma {:induction false} MemoSafeReplays(s: State, memos: seq<Memo>, updates: seq<Update>, n: nat)
    requires Chain(s, memos, updates) && MemoSafe(s, updates) && n <= |updates|
    ensures ToldReplay(s, memos, updates, n) == Replay(s, updates, n)
    ensures n < |updates| && Replay(s, updates, n).Success? ==>
      && SoundMemo(InsertCommit(Replay(s, updates, n).value.tables, updates[n].commit), memos[n])
      && (NoPatchBefore(updates, n) ==> memos[n] == NOTHING)
  {
    hide SoundMemo, Arrives, Evaluate, InsertCommit, Extends, NoPatch;
    if n > 0 {
      MemoSafeReplays(s, memos, updates, n - 1);
      var before := Replay(s, updates, n - 1);
      if before.Success? {
        SoundMemoEvaluates(before.value, memos[n - 1], updates[n - 1]);
      }
    }
    if n < |updates| && Replay(s, updates, n).Success? {
      var tables := Replay(s, updates, n).value.tables;
      assert MemoSafeAt(s, updates, n);
      if n > 0 {
        assert Learns(s, memos, updates, n - 1);
        SoundExtends(tables, memos[n - 1], memos[n]);
      }
      if NoPatchBefore(updates, n) {
        assert memos[n] == NOTHING;
        EmptyIsSound(InsertCommit(tables, updates[n].commit));
      } else {
        MemoSurvivesGrowth(tables, updates[n].commit, memos[n]);
      }
    }
  }

  // ---------------------------------------------------------------- the projection

  class ProjectionStore {
    var tables: Tables
    var entries: map<Effects.Key, Effects.Entry>
    var overlay: Overlay

    constructor ()
      ensures View() == FRESH
    {
      tables, entries, overlay := EMPTY, map[], Overlay(map[], map[]);
    }

    ghost function View(): State
      reads this
    {
      State(tables, entries, overlay)
    }

    /** The stored rows are consistent, and memoised ranges list stored commits. */
    ghost predicate Ready(cache: ReachabilityCache)
      reads this, cache
    {
      Consistent(tables.commits, overlay) && ListsStored(tables.commits, cache.Content())
    }

    method AssignMetadataValue(cache: ReachabilityCache, ghost memo: Memo, target: Oid, source: Oid,
        operation: Operation)
      requires Ready(cache) && source in tables.commits && target in tables.commits
      requires Extends(tables, memo, cache.Content())
      modifies this`overlay, cache
      ensures Ready(cache) && Extends(tables, memo, cache.Content())
      ensures overlay == AssignOne(ToldAncestry(tables.edges, memo), old(overlay), target, source, operation)
    {
      hide Extends, Told, ListsStored;
      var slot := Slot(target, operation.key);
      var rows := RowsAt(overlay.assignments, slot);
      var descendsFromAll := true;
      var pending := rows.Keys;
      while pending != {} && descendsFromAll
        invariant overlay == old(overlay) && Ready(cache) && Extends(tables, memo, cache.Content())
        invariant pending <= rows.Keys
        invariant descendsFromAll ==> forall p :: p in rows && p !in pending ==> Told(tables.edges, memo, source, p)
        invariant !descendsFromAll ==> exists p :: p in rows && !Told(tables.edges, memo, source, p)
        decreases pending
      {
        var previous :| previous in pending;
        descendsFromAll := Ask(cache, memo, source, previous);
        pending := pending - {previous};
      }
      assert descendsFromAll <==> Metadata.DescendsFromAll(ToldAncestry(tables.edges, memo), source, rows);
      if descendsFromAll {
        rows := map[];
      }
      rows := rows[source := operation.value];
      assert source in rows;
      overlay := Overlay(overlay.assignments[slot := rows],
                         overlay.metadata[target := Reflect(overlay.metadata[target], operation.key, rows)]);
      AssignOneConsistent(ToldAncestry(tables.edges, memo), tables.commits, old(overlay), target, source, operation);
    }

    /** An ancestry question in the middle of an update that started with `memo`. */
    method Ask(cache: ReachabilityCache, ghost memo: Memo, descendant: Oid, ancestor: Oid) returns (found: bool)
      requires descendant in tables.commits && ancestor in tables.commits
      requires ListsStored(tables.commits, cache.Content()) && Extends(tables, memo, cache.Content())
      modifies cache
      ensures found == Told(tables.edges, memo, descendant, ancestor)
      ensures ListsStored(tables.commits, cache.Content()) && Extends(tables, memo, cache.Content())
    {
      hide Extends, Told, ListsStored;
      ghost var before := cache.Content();
      LearningChangesNothing(tables, memo, before);
      found := cache.IsAncestor(tables, descendant, ancestor);
      ExtendsTransitively(tables, memo, before, cache.Content());
      ExtensionListsStored(tables, before, cache.Content());
    }

    /** One update, whatever the memo holds: each answer is the memoised one, or else right on the tables it leaves. */
    method EvaluateUpdate(cache: ReachabilityCache, update: Update)
      returns (result: Result<seq<Effects.Outcome>, ReplayError>)
      requires Ready(cache)
      modifies this, cache
      ensures tables == InsertCommit(old(tables), update.commit)
      ensures Ready(cache) && Extends(tables, old(cache.Content()), cache.Content())
      ensures NoPatch(update) ==> cache.Content() == old(cache.Content())
      ensures var expected := Evaluate(old(View()), old(cache.Content()), update);
              match result
              case Success(reported) => expected == Success((View(), reported))
              case Failure(error) => expected == Failure(error)
    {
      hide Act, Extends, ListsStored, Consistent;
      ghost var start, memo := Arrive(View(), update), cache.Content();
      ArriveConsistent(View(), update);
      ArriveListsStored(tables.commits, update.commit.oid, memo);
      ExtendsItself(InsertCommit(tables, update.commit), memo);
      InsertRow(update);
      var reported := [];
      for i := 0 to |update.actions|
        invariant tables == start.tables && Ready(cache) && Extends(tables, memo, cache.Content())
        invariant RunActions(start, memo, update, i) == Success((View(), reported))
        invariant NoPatch(update) ==> cache.Content() == memo
      {
        var acted := Perform(cache, memo, update, update.actions[i]);
        if acted.Failure? {
          FailureStays(start, memo, update, i + 1);
          return Failure(acted.error);
        }
        reported := reported + acted.value;
      }
      result := Success(reported);
    }

    /** Writes the commit row, with the cascade of the row it replaces, its metadata row and its parent edges. */
    method InsertRow(update: Update)
      modifies this
      ensures View() == Arrive(old(View()), update)
    {
      var oid := update.commit.oid;
      if oid in tables.commits {
        var kept := Purged(State(tables, entries, overlay), oid);
        entries, overlay := kept.entries, kept.overlay;
      }
      tables := InsertCommit(tables, update.commit);
      overlay := WithRow(overlay, update);
    }

    method Perform(cache: ReachabilityCache, ghost memo: Memo, update: Update, action: Action)
      returns (acted: Result<seq<Effects.Outcome>, ReplayError>)
      requires Ready(cache) && update.commit.oid in tables.commits && Extends(tables, memo, cache.Content())
      modifies this, cache
      ensures tables == old(tables) && Ready(cache) && Extends(tables, memo, cache.Content())
      ensures !action.MetadataPatch? ==> cache.Content() == old(cache.Content())
      ensures var expected := Act(old(View()), memo, update, action);
              match acted
              case Success(reported) => expected == Success((View(), reported))
              case Failure(error) => expected == Failure(error)
    {
      hide Extends, ListsStored, ToldTargets, Consistent;
      match action {
        case Effect(effect) =>
          if effect.AddEntry? && effect.oid !in tables.commits {
            return Failure(MissingCommit);
          }
          var (after, outcome) := Effects.Apply(entries, Effects.Step(update.commit.oid, effect));
          entries := after;
          return Success(if outcome.Some? then [outcome.value] else []);
        case MetadataPatch(from, to, operations) =>
          var targets := AskTargets(cache, memo, update, from, to);
          if targets.Failure? {
            return Failure(BadRange(targets.error));
          }
          PatchTargets(cache, memo, update.commit.oid, targets.value, operations);
          return Success([]);
        case Diagnose(_) =>
          return Success([]);
      }
    }

    method AskTargets(cache: ReachabilityCache, ghost memo: Memo, update: Update, from: Oid, to: Oid)
      returns (targets: Result<seq<Oid>, MetaError>)
      requires Ready(cache) && update.commit.oid in tables.commits && Extends(tables, memo, cache.Content())
      modifies cache
      ensures Ready(cache) && Extends(tables, memo, cache.Content())
      ensures targets == ToldTargets(tables, memo, update.commit.oid, from, to, update.complete)
      ensures targets.Success? ==> forall t :: t in targets.value ==> t in tables.commits
    {
      hide Extends, ListsStored, Told, ToldRange, Consistent;
      ghost var before := cache.Content();
      LearningChangesNothing(tables, memo, before);
      targets := cache.MetadataTargets(tables, update.commit.oid, from, to, update.complete);
      if targets.Success? {
        SelectedFrom(tables, before, from, to, update, targets.value);
      }
      ExtendsTransitively(tables, memo, before, cache.Content());
      ExtensionListsStored(tables, before, cache.Content());
    }

    method PatchTargets(cache: ReachabilityCache, ghost memo: Memo, source: Oid, targets: seq<Oid>,
        operations: seq<Operation>)
      requires Ready(cache) && source in tables.commits && Extends(tables, memo, cache.Content())
      requires forall t :: t in targets ==> t in tables.commits
      modifies this`overlay, cache
      ensures Ready(cache) && Extends(tables, memo, cache.Content())
      ensures overlay == AssignTargets(ToldAncestry(tables.edges, memo), old(overlay), targets, source, operations,
                                       |targets|)
    {
      hide Extends, ListsStored, Consistent, AssignOperations, ToldAncestry;
      for t := 0 to |targets|
        invariant Ready(cache) && Extends(tables, memo, cache.Content())
        invariant overlay == AssignTargets(ToldAncestry(tables.edges, memo), old(overlay), targets, source, operations,
                                           t)
      {
        PatchTarget(cache, memo, source, targets[t], operations);
      }
    }

    method PatchTarget(cache: ReachabilityCache, ghost memo: Memo, source: Oid, target: Oid,
        operations: seq<Operation>)
      requires Ready(cache) && source in tables.commits && target in tables.commits
      requires Extends(tables, memo, cache.Content())
      modifies this`overlay, cache
      ensures Ready(cache) && Extends(tables, memo, cache.Content())
      ensures overlay == AssignOperations(ToldAncestry(tables.edges, memo), old(overlay), target, source, operations,
                                          |operations|)
    {
      hide AssignOne, Extends, ListsStored, Consistent, ToldAncestry;
      ghost var start := overlay;
      for o := 0 to |operations|
        invariant Ready(cache) && Extends(tables, memo, cache.Content())
        invariant overlay == AssignOperations(ToldAncestry(tables.edges, memo), start, target, source, operations, o)
      {
        AssignMetadataValue(cache, memo, target, source, operations[o]);
      }
    }

    /**
     * One transaction: either every update is evaluated or the projection is left as it was. Each update starts with
     * what the memo has learnt from the updates before it.
     */
    method ApplyRange(updates: seq<Update>) returns (result: Result<(), ReplayError>, ghost memos: seq<Memo>)
      requires Consistent(tables.commits, overlay)
      modifies this
      ensures Chain(old(View()), memos, updates) && Consistent(tables.commits, overlay)
      ensures match result
              case Success(_) => ToldReplay(old(View()), memos, updates, |updates|) == Success(View())
              case Failure(error) =>
                ToldReplay(old(View()), memos, updates, |updates|) == Failure(error) && View() == old(View())
      ensures MemoSafe(old(View()), updates) ==>
        match result
        case Success(_) => Replay(old(View()), updates, |updates|) == Success(View())
        case Failure(error) => Replay(old(View()), updates, |updates|) == Failure(error) && View() == old(View())
    {
      hide Evaluate, InsertCommit, NoPatch, Extends, ListsStored, Consistent, MemoSafe;
      ghost var start := View();
      var savedTables, savedEntries, savedOverlay := tables, entries, overlay;
      var cache := new ReachabilityCache();
      memos := seq(|updates|, _ => NOTHING);
      NothingListsStored(tables.commits);
      for i := 0 to |updates|
        invariant fresh(cache) && Ready(cache) && ChainTo(start, memos, updates, i)
        invariant i < |updates| ==> memos[i] == cache.Content()
        invariant ToldReplay(start, memos, updates, i) == Success(View())
      {
        var evaluated := EvaluateUpdate(cache, updates[i]);
        if evaluated.Failure? {
          tables, entries, overlay := savedTables, savedEntries, savedOverlay;
          ToldFailureStays(start, memos, updates, i + 1, |updates|);
          FailureEndsChain(start, memos, updates, i);
          FreshWhenSafe(start, memos, updates);
          return Failure(evaluated.error), memos;
        }
        LearnsMore(start, memos, updates, i, cache.Content());
        if i + 1 < |updates| {
          memos := memos[i + 1 := cache.Content()];
        }
      }
      FreshWhenSafe(start, memos, updates);
      result := Success(());
    }
  }

  lemma {:induction false} ArriveListsStored(commits: seq<Oid>, oid: Oid, memo: Memo)
    requires ListsStored(commits, memo)
    ensures ListsStored(Without(commits, oid) + [oid], memo)
  {
    WithoutMembers(commits, oid);
  }

  lemma NothingListsStored(commits: seq<Oid>)
    ensures ListsStored(commits, NOTHING)
  {
  }

  lemma {:induction false} FailureStays(s: State, memo: Memo, update: Update, n: nat)
    requires n <= |update.actions| && RunActions(s, memo, update, n).Failure?
    ensures RunActions(s, memo, update, |update.actions|) == RunActions(s, memo, update, n)
    decreases |update.actions| - n
  {
    hide Act;
    if n < |update.actions| {
      FailureStays(s, memo, update, n + 1);
    }
  }

  lemma {:induction false} ToldFailureStays(s: State, memos: seq<Memo>, updates: seq<Update>, n: nat, m: nat)
    requires n <= m <= |updates| == |memos| && ToldReplay(s, memos, updates, n).Failure?
    ensures ToldReplay(s, memos, updates, m) == ToldReplay(s, memos, updates, n)
  {
    hide Evaluate;
    if n < m {
      ToldFailureStays(s, memos, updates, n, m - 1);
    }
  }

  lemma {:induction false} FreshWhenSafe(s: State, memos: seq<Memo>, updates: seq<Update>)
    requires Chain(s, memos, updates)
    ensures MemoSafe(s, updates) ==> ToldReplay(s, memos, updates, |updates|) == Replay(s, updates, |updates|)
  {
    hide Chain, MemoSafe, ToldReplay, Replay;
    if MemoSafe(s, updates) {
      MemoSafeReplays(s, memos, updates, |updates|);
    }
  }

  // ---------------------------------------------------------------- building the chain

  /** The replay of `n` updates does not look at later memos. */
  lemma {:induction false} LaterMemosDoNotMatter(s: State, a: seq<Memo>, b: seq<Memo>, updates: seq<Update>, n: nat)
    requires n <= |updates| == |a| == |b| && a[..n] == b[..n]
    ensures ToldReplay(s, a, updates, n) == ToldReplay(s, b, updates, n)
  {
    hide Evaluate;
    if n > 0 {
      assert a[..n][..n - 1] == a[..n - 1] && b[..n][..n - 1] == b[..n - 1];
      assert a[n - 1] == a[..n][n - 1] && b[n - 1] == b[..n][n - 1];
      LaterMemosDoNotMatter(s, a, b, updates, n - 1);
    }
  }

  lemma {:induction false} FailureEndsChain(s: State, memos: seq<Memo>, updates: seq<Update>, i: nat)
    requires i < |updates| && ChainTo(s, memos, updates, i) && ToldReplay(s, memos, updates, i + 1).Failure?
    ensures Chain(s, memos, updates)
  {
    hide ToldReplay;
    forall j | i <= j && j + 1 < |memos| ensures Learns(s, memos, updates, j) {
      ToldFailureStays(s, memos, updates, i + 1, j + 1);
    }
  }

  /** What update `i` learnt is where the next one starts. */
  lemma {:induction false} LearnsMore(s: State, memos: seq<Memo>, updates: seq<Update>, i: nat, learnt: Memo)
    requires i < |updates| && ChainTo(s, memos, updates, i) && ToldReplay(s, memos, updates, i + 1).Success?
    requires Extends(ToldReplay(s, memos, updates, i + 1).value.tables, memos[i], learnt)
    requires NoPatch(updates[i]) ==> learnt == memos[i]
    ensures var longer := if i + 1 < |updates| then memos[i + 1 := learnt] else memos;
            && ChainTo(s, longer, updates, i + 1)
            && ToldReplay(s, longer, updates, i + 1) == ToldReplay(s, memos, updates, i + 1)
  {
    hide ToldReplay, Extends, NoPatch;
    if i + 1 < |updates| {
      var longer := memos[i + 1 := learnt];
      forall j | 0 <= j <= i && j + 1 < |longer| ensures Learns(s, longer, updates, j) {
        assert longer[..j + 1] == memos[..j + 1];
        LaterMemosDoNotMatter(s, longer, memos, updates, j + 1);
        assert j < i ==> Learns(s, memos, updates, j);
      }
      assert longer[..i + 1] == memos[..i + 1];
      LaterMemosDoNotMatter(s, longer, memos, updates, i + 1);
    }
  }
}
