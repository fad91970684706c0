/** Which entry a DECAY or CANCEL changes, and how, said on OIDs and indices. */
module EffectTargets {
  import opened Effects
  import opened MetaRange
  import opened MetaRefinement
  import opened Projection
  import opened ProjectionEffects
  import opened ProjectionRefinement
  import opened Results

  /** The one entry with this index whose commit starts with the prefix and is not the acting commit. */
  ghost predicate Sole(keys: set<Key>, current: Oid, prefix: Oid, index: nat, oid: Oid) {
    && (oid, index) in keys
    && oid != current
    && prefix <= oid
    && forall other :: (other, index) in keys && other != current && prefix <= other ==> other == oid
  }

  lemma {:induction false} SoleIsResolved(keys: set<Key>, current: Oid, prefix: Oid, index: nat, oid: Oid)
    ensures Sole(keys, current, prefix, index, oid) <==>
      ResolveTarget(keys, current, prefix, index) == Some((oid, index))
  {
    var found := Candidates(keys, current, prefix, index);
    if Sole(keys, current, prefix, index, oid) {
      assert found == {(oid, index)};
    }
    if |found| == 1 && TheOne(found) == (oid, index) {
      forall other | (other, index) in keys && other != current && prefix <= other ensures other == oid {
        SameInSingleton(found, (other, index), (oid, index));
      }
    }
  }

  lemma ResolvesIndex(keys: set<Key>, current: Oid, prefix: Oid, index: nat)
    ensures var found := ResolveTarget(keys, current, prefix, index);
            found.Some? ==> found == Some((found.value.0, index)) && found.value in keys
  {
    assert ResolveTarget(keys, current, prefix, index).Some? ==>
      TheOne(Candidates(keys, current, prefix, index)) in Candidates(keys, current, prefix, index);
  }

  // ---------------------------------------------------------------- one action

  /** Only this entry may change, in its score and validity, and the outcome reports it before and after. */
  ghost predicate Reports(entries: map<Key, Entry>, key: Key, after: map<Key, Entry>, outcome: Option<Outcome>)
    requires key in entries
  {
    && after.Keys == entries.Keys
    && (forall other :: other in entries && other != key ==> after[other] == entries[other])
    && after[key].kind == entries[key].kind && after[key].content == entries[key].content
    && outcome.Some? && outcome.value.resolved == Some(key.0)
    && outcome.value.before == Some((entries[key].score, entries[key].valid))
    && outcome.value.after == Some((after[key].score, after[key].valid))
  }

  /** The score of a valid entry is multiplied, that of an invalid one stays. */
  ghost predicate Scales(entries: map<Key, Entry>, key: Key, factor: real, after: map<Key, Entry>,
      outcome: Option<Outcome>)
    requires key in entries
  {
    && Reports(entries, key, after, outcome)
    && after[key].valid == entries[key].valid
    && after[key].score == (if entries[key].valid then entries[key].score * factor else entries[key].score)
    && outcome.value.status == (if after[key].score != entries[key].score then Applied else NoOp)
  }

  /**
   * A DECAY changes exactly the one entry outside the acting commit that its prefix and index fix: a valid entry's
   * score is multiplied by the factor. Without such an entry nothing changes and the action is rejected.
   */
  lemma {:induction false} DecayScalesTheSole(entries: map<Key, Entry>, current: Oid, prefix: Oid, index: nat,
      factor: real)
    ensures var (after, outcome) := Apply(entries, Step(current, Decay(prefix, index, factor)));
            && (forall oid :: Sole(entries.Keys, current, prefix, index, oid) ==>
                  Scales(entries, (oid, index), factor, after, outcome))
            && ((forall oid :: !Sole(entries.Keys, current, prefix, index, oid)) ==>
                  after == entries && outcome == Some(Outcome(Rejected, None, None, None)))
  {
    hide Sole, ResolveTarget, Apply;
    forall oid | Sole(entries.Keys, current, prefix, index, oid)
      ensures ResolveTarget(entries.Keys, current, prefix, index) == Some((oid, index)) && (oid, index) in entries
    {
      SoleIsResolved(entries.Keys, current, prefix, index, oid);
      ResolvesIndex(entries.Keys, current, prefix, index);
    }
    SomeSole(entries.Keys, current, prefix, index);
    DecayResolved(entries, current, prefix, index, factor);
  }

  lemma DecayResolved(entries: map<Key, Entry>, current: Oid, prefix: Oid, index: nat, factor: real)
    ensures var (after, outcome) := Apply(entries, Step(current, Decay(prefix, index, factor)));
            match ResolveTarget(entries.Keys, current, prefix, index)
            case None => after == entries && outcome == Some(Outcome(Rejected, None, None, None))
            case Some(key) =>
              && key in entries
              && Scales(entries, key, factor, after, outcome)
  {
    hide ResolveTarget;
    ResolvesIndex(entries.Keys, current, prefix, index);
    var found := ResolveTarget(entries.Keys, current, prefix, index);
    if found.Some? {
      OutcomeIsTruthful(entries, Step(current, Decay(prefix, index, factor)));
    }
  }

  /** A CANCEL changes exactly that entry: a DECISION becomes invalid with score zero; any other kind is rejected. */
  lemma {:induction false} CancelZeroesTheSole(entries: map<Key, Entry>, current: Oid, prefix: Oid, index: nat)
    ensures var (after, outcome) := Apply(entries, Step(current, Cancel(prefix, index)));
            && (forall oid :: Sole(entries.Keys, current, prefix, index, oid) ==>
                  var e := entries[(oid, index)];
                  && Reports(entries, (oid, index), after, outcome)
                  && (e.kind == "DECISION" ==>
                        && after[(oid, index)].score == 0.0 && !after[(oid, index)].valid
                        && outcome.value.status == if e.valid || e.score != 0.0 then Applied else NoOp)
                  && (e.kind != "DECISION" ==> after == entries && outcome.value.status == Rejected))
            && ((forall oid :: !Sole(entries.Keys, current, prefix, index, oid)) ==>
                  after == entries && outcome == Some(Outcome(Rejected, None, None, None)))
  {
    hide Sole, ResolveTarget;
    forall oid | Sole(entries.Keys, current, prefix, index, oid)
      ensures ResolveTarget(entries.Keys, current, prefix, index) == Some((oid, index))
      ensures (oid, index) in entries
    {
      SoleIsResolved(entries.Keys, current, prefix, index, oid);
      ResolvesIndex(entries.Keys, current, prefix, index);
    }
    SomeSole(entries.Keys, current, prefix, index);
  }

  lemma {:induction false} SomeSole(keys: set<Key>, current: Oid, prefix: Oid, index: nat)
    ensures ResolveTarget(keys, current, prefix, index).Some? ==>
      Sole(keys, current, prefix, index, ResolveTarget(keys, current, prefix, index).value.0)
  {
    hide Sole, ResolveTarget;
    ResolvesIndex(keys, current, prefix, index);
    if ResolveTarget(keys, current, prefix, index).Some? {
      SoleIsResolved(keys, current, prefix, index, ResolveTarget(keys, current, prefix, index).value.0);
    }
  }

  // ---------------------------------------------------------------- full targets over a whole replay

  /** The action names this entry by its commit's full OID, from another commit. */
  predicate Names(step: Step, key: Key) {
    !step.effect.AddEntry? && step.effect.target == key.0 && step.effect.index == key.1 && step.current != key.0
  }

  /** The product of the factors of the DECAY actions that name the entry. */
  function Factors(steps: seq<Step>, key: Key): real
    decreases |steps|
  {
    if steps == [] then 1.0
    else
      var factor := if steps[0].effect.Decay? && Names(steps[0], key) then steps[0].effect.factor else 1.0;
      factor * Factors(steps[1..], key)
  }

  /** Every DECAY and CANCEL names a commit by an OID that abbreviates no other one that holds entries. */
  ghost predicate FullTargets(oids: set<Oid>, steps: seq<Step>) {
    forall step, oid :: step in steps && !step.effect.AddEntry? && oid in oids && step.effect.target <= oid ==>
      oid == step.effect.target
  }

  ghost predicate Within(keys: set<Key>, oids: set<Oid>) {
    forall key :: key in keys ==> key.0 in oids
  }

  ghost predicate AddsWithin(steps: seq<Step>, oids: set<Oid>) {
    forall step :: step in steps && step.effect.AddEntry? ==> step.effect.oid in oids
  }

  lemma {:induction false} NamedIsHit(keys: set<Key>, step: Step, key: Key, oids: set<Oid>)
    requires key in keys && Within(keys, oids) && FullTargets(oids, [step])
    ensures Hits(keys, step, key) <==> Names(step, key)
  {
    if !step.effect.AddEntry? {
      assert step in [step];
      SoleIsResolved(keys, step.current, step.effect.target, step.effect.index, key.0);
      ResolvesIndex(keys, step.current, step.effect.target, step.effect.index);
    }
  }

  lemma {:induction false} RestNames(oids: set<Oid>, steps: seq<Step>)
    requires steps != [] && FullTargets(oids, steps) && AddsWithin(steps, oids)
    ensures FullTargets(oids, [steps[0]]) && FullTargets(oids, steps[1..]) && AddsWithin(steps[1..], oids)
  {
    assert steps[0] in steps;
  }

  lemma {:induction false} NamedSteps(keys: set<Key>, steps: seq<Step>, key: Key, oids: set<Oid>)
    requires key in keys && Within(keys, oids) && AddsWithin(steps, oids) && FullTargets(oids, steps)
    ensures Cancelled(keys, steps, key) <==> exists step :: step in steps && step.effect.Cancel? && Names(step, key)
    ensures DecayProduct(keys, steps, key) == Factors(steps, key)
    decreases |steps|
  {
    hide Hits, Names;
    if steps != [] {
      var first, rest := steps[0], steps[1..];
      RestNames(oids, steps);
      assert steps == [first] + rest;
      NamedIsHit(keys, first, key, oids);
      NamedSteps(Grow(keys, first), rest, key, oids);
    }
  }

  lemma {:induction false} ReplayedWithin(entries: map<Key, Entry>, steps: seq<Step>, oids: set<Oid>)
    requires Within(entries.Keys, oids) && AddsWithin(steps, oids)
    ensures Within(Effects.Replay(entries, steps).Keys, oids)
    decreases |steps|
  {
    hide Apply;
    if steps != [] {
      assert steps[0] in steps && steps == [steps[0]] + steps[1..];
      ApplyKeys(entries, steps[0]);
      ReplayedWithin(Apply(entries, steps[0]).0, steps[1..], oids);
    }
  }

  function OidSet(history: seq<Commit>): set<Oid> {
    set commit | commit in history :: commit.oid
  }

  lemma {:induction false} StepsAddWithin(updates: seq<Update>, k: nat, n: nat)
    requires k < |updates| && n <= |updates[k].actions| && Admissible(updates, k)
    ensures AddsWithin(StepsOf(updates[k], n), OidSet(History(updates)))
  {
    if n > 0 {
      StepsAddWithin(updates, k, n - 1);
      assert AdmissibleAction(updates, k, updates[k].actions[n - 1]);
    }
  }

  lemma {:induction false} AllAddWithin(updates: seq<Update>, n: nat)
    requires n <= |updates| && forall i :: 0 <= i < n ==> Admissible(updates, i)
    ensures AddsWithin(AllSteps(updates, n), OidSet(History(updates)))
  {
    hide Admissible;
    if n > 0 {
      AllAddWithin(updates, n - 1);
      StepsAddWithin(updates, n - 1, |updates[n - 1].actions|);
    }
  }

  lemma {:induction false} LaterSteps(steps: seq<Step>, j: nat, oids: set<Oid>)
    requires j < |steps| && AddsWithin(steps, oids) && FullTargets(oids, steps)
    ensures AddsWithin(steps[j + 1..], oids) && FullTargets(oids, steps[j + 1..])
    ensures AddsWithin(steps[..j + 1], oids)
  {
  }

  /**
   * End to end, for a parent-first history whose DECAY and CANCEL actions name commits by full OIDs: each stored entry
   * is what its last addition made it, invalid with score zero if it is a DECISION that a later CANCEL of another
   * commit names, else, if it was added valid, its score times the factors of all later DECAYs of other commits that
   * name it.
   */
  lemma {:induction false} FullTargetsHit(updates: seq<Update>, j: nat, key: Key)
    requires ParentFirst(History(updates)) && FullEndpoints(updates)
    requires Projection.Replay(FRESH, updates, |updates|).Success?
    requires FullTargets(OidSet(History(updates)), AllSteps(updates, |updates|))
    requires j < |AllSteps(updates, |updates|)| && Adds(AllSteps(updates, |updates|)[j], key)
    requires forall i :: j < i < |AllSteps(updates, |updates|)| ==> !Adds(AllSteps(updates, |updates|)[i], key)
    ensures var steps, entries := AllSteps(updates, |updates|),
      Projection.Replay(FRESH, updates, |updates|).value.entries;
            var added, later := steps[j].effect.entry, steps[j + 1..];
            var cancelled := exists step :: step in later && step.effect.Cancel? && Names(step, key);
            && key in entries
            && entries[key] ==
                 if added.kind == "DECISION" && cancelled then Entry(added.kind, added.content, 0.0, false)
                 else if added.valid then Entry(added.kind, added.content, added.score * Factors(later, key), true)
                 else added
  {
    hide AllSteps, Projection.Replay, ParentFirst, FullEndpoints, Cancelled, DecayProduct, FullTargets, Factors, Names,
      Effects.Replay, Adds;
    var steps := AllSteps(updates, |updates|);
    NamedLater(updates, j, key);
    StoredEntryClosedForm(updates, j, key);
    assert steps[j].effect.AddEntry? by { AddsEntry(steps[j], key); }
  }

  lemma AddsEntry(step: Step, key: Key)
    requires Adds(step, key)
    ensures step.effect.AddEntry?
  {
  }

  lemma {:induction false} NamedLater(updates: seq<Update>, j: nat, key: Key)
    requires ParentFirst(History(updates)) && FullEndpoints(updates)
    requires Projection.Replay(FRESH, updates, |updates|).Success?
    requires FullTargets(OidSet(History(updates)), AllSteps(updates, |updates|))
    requires j < |AllSteps(updates, |updates|)| && Adds(AllSteps(updates, |updates|)[j], key)
    ensures var steps := AllSteps(updates, |updates|);
            var keys, later := Effects.Replay(map[], steps[..j + 1]).Keys, steps[j + 1..];
            && (Cancelled(keys, later, key) <==>
                  exists step :: step in later && step.effect.Cancel? && Names(step, key))
            && DecayProduct(keys, later, key) == Factors(later, key)
  {
    hide AllSteps, Projection.Replay, ParentFirst, FullEndpoints, Admissible, Cancelled, DecayProduct, FullTargets,
      AddsWithin, Factors, Names, Effects.Replay, Within;
    var steps, oids := AllSteps(updates, |updates|), OidSet(History(updates));
    ReplayHolds(updates, |updates|, Slot([], Owner));
    AllAddWithin(updates, |updates|);
    LaterSteps(steps, j, oids);
    NothingWithin(oids);
    ReplayedWithin(map[], steps[..j + 1], oids);
    KeyIsThere(steps, j, key);
    NamedSteps(Effects.Replay(map[], steps[..j + 1]).Keys, steps[j + 1..], key, oids);
  }

  lemma NothingWithin(oids: set<Oid>)
    ensures var none: map<Key, Entry> := map[]; Within(none.Keys, oids)
  {
  }

  lemma {:induction false} KeyIsThere(steps: seq<Step>, j: nat, key: Key)
    requires j < |steps| && Adds(steps[j], key)
    ensures key in Effects.Replay(map[], steps[..j + 1])
  {
    assert steps[..j + 1] == steps[..j] + [steps[j]] && [steps[j]][1..] == [];
    ReplaySplit(map[], steps[..j], [steps[j]]);
  }
}
