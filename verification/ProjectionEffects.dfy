/** The entries of a replayed projection are those of its effects, so their closed form holds for the store. */
module ProjectionEffects {
  import opened MetaRange
  import opened MetaRefinement
  import opened Projection
  import opened ProjectionRefinement
  import Effects

  /** The effects among the first `n` actions of an update. */
  function StepsOf(update: Update, n: nat): seq<Effects.Step>
    requires n <= |update.actions|
  {
    if n == 0 then []
    else
      var action := update.actions[n - 1];
      StepsOf(update, n - 1) + if action.Effect? then [Effects.Step(update.commit.oid, action.effect)] else []
  }

  /** The effects of the first `n` updates, in replay order. */
  function AllSteps(updates: seq<Update>, n: nat): seq<Effects.Step>
    requires n <= |updates|
  {
    if n == 0 then [] else AllSteps(updates, n - 1) + StepsOf(updates[n - 1], |updates[n - 1].actions|)
  }

  lemma {:induction false} ActionEntries(s: State, memo: Memo, update: Update, action: Action)
    requires Act(s, memo, update, action).Success?
    ensures Act(s, memo, update, action).value.0.entries
         == Effects.Replay(s.entries, if action.Effect? then [Effects.Step(update.commit.oid, action.effect)] else [])
  {
    hide ToldTargets, AssignTargets, Effects.Apply;
    if action.Effect? {
      assert [Effects.Step(update.commit.oid, action.effect)][1..] == [];
    }
  }

  /** The actions of one update change the entries as the effects among them do. */
  lemma {:induction false} ActionsEntries(s: State, memo: Memo, update: Update, n: nat)
    requires n <= |update.actions| && RunActions(s, memo, update, n).Success?
    ensures RunActions(s, memo, update, n).value.0.entries == Effects.Replay(s.entries, StepsOf(update, n))
  {
    hide Act;
    if n > 0 {
      ActionsEntries(s, memo, update, n - 1);
      var before, action := RunActions(s, memo, update, n - 1).value.0, update.actions[n - 1];
      ActionEntries(before, memo, update, action);
      Effects.ReplaySplit(s.entries, StepsOf(update, n - 1),
                          if action.Effect? then [Effects.Step(update.commit.oid, action.effect)] else []);
    }
  }

  /** No update replaces a commit row that is stored when its turn comes. */
  ghost predicate AllNew(s: State, updates: seq<Update>, n: nat)
    requires n <= |updates|
  {
    forall k {:trigger Replay(s, updates, k)} :: 0 <= k < n && Replay(s, updates, k).Success? ==>
      updates[k].commit.oid !in Replay(s, updates, k).value.tables.commits
  }

  /** A replay of new commits changes the entries as all its effects do, one after the other. */
  lemma {:induction false} ReplayEntries(s: State, updates: seq<Update>, n: nat)
    requires n <= |updates| && Replay(s, updates, n).Success? && AllNew(s, updates, n)
    ensures Replay(s, updates, n).value.entries == Effects.Replay(s.entries, AllSteps(updates, n))
  {
    hide RunActions, InsertCommit, WithRow;
    if n > 0 {
      assert Replay(s, updates, n - 1).Success?;
      ReplayEntries(s, updates, n - 1);
      var before, update := Replay(s, updates, n - 1).value, updates[n - 1];
      ActionsEntries(Arrive(before, update), NOTHING, update, |update.actions|);
      Effects.ReplaySplit(s.entries, AllSteps(updates, n - 1), StepsOf(update, |update.actions|));
    }
  }

  lemma {:induction false} ParentFirstIsNew(updates: seq<Update>)
    requires ParentFirst(History(updates)) && FullEndpoints(updates)
    ensures AllNew(FRESH, updates, |updates|)
  {
    hide SlotHolds, Replay, FullEndpoints, ParentFirst;
    var slot := Slot([], Owner);
    forall k | 0 <= k < |updates| && Replay(FRESH, updates, k).Success?
      ensures updates[k].commit.oid !in Replay(FRESH, updates, k).value.tables.commits
    {
      ReplayHolds(updates, k, slot);
      ArriveStep(updates, k, Replay(FRESH, updates, k).value, slot, DeclaredLog(updates, slot, k));
    }
  }

  /**
   * After a successful parent-first replay a stored entry is the closed form of its last addition: zero and invalid if
   * a later resolved CANCEL hit it as a DECISION, else scaled by every later resolved DECAY if it was added valid.
   */
  lemma {:induction false} StoredEntryClosedForm(updates: seq<Update>, j: nat, key: Effects.Key)
    requires ParentFirst(History(updates)) && FullEndpoints(updates) && Replay(FRESH, updates, |updates|).Success?
    requires j < |AllSteps(updates, |updates|)| && Effects.Adds(AllSteps(updates, |updates|)[j], key)
    requires forall i :: j < i < |AllSteps(updates, |updates|)| ==> !Effects.Adds(AllSteps(updates, |updates|)[i], key)
    ensures var steps, entries := AllSteps(updates, |updates|), Replay(FRESH, updates, |updates|).value.entries;
            var keys, later := Effects.Replay(map[], steps[..j + 1]).Keys, steps[j + 1..];
            && key in entries
            && entries[key] == Effects.ClosedForm(steps[j].effect.entry, Effects.Cancelled(keys, later, key),
                                                  Effects.DecayProduct(keys, later, key))
  {
    hide AllSteps, Replay, ParentFirst, FullEndpoints, AllNew;
    ParentFirstIsNew(updates);
    ReplayEntries(FRESH, updates, |updates|);
    Effects.AddedClosedForm(map[], AllSteps(updates, |updates|), j, key);
  }
}
