/** DECAY and CANCEL effects on published entries. */
module Effects {
  import opened Results
  import opened MetaRange

  type Key = (Oid, nat)

  datatype Entry = Entry(kind: string, content: string, score: real, valid: bool)

  datatype Effect =
    | AddEntry(oid: Oid, index: nat, entry: Entry)
    | Decay(target: Oid, index: nat, factor: real)
    | Cancel(target: Oid, index: nat)

  datatype Status = Applied | NoOp | Rejected

  datatype Outcome = Outcome(status: Status, resolved: Option<Oid>, before: Option<(real, bool)>,
      after: Option<(real, bool)>)

  /** One action together with the commit whose update carries it. */
  datatype Step = Step(current: Oid, effect: Effect)

  // ---------------------------------------------------------------- resolving a target

  lemma SameInSingleton<T>(s: set<T>, a: T, b: T)
    requires |s| == 1 && a in s && b in s
    ensures a == b
  {
    var rest := s - {a};
    assert |rest| == 0;
    assert b !in rest;
  }

  function TheOne<T(==)>(s: set<T>): (r: T)
    requires |s| == 1
    ensures r in s
  {
    assert s != {};
    assert forall a, b :: a in s && b in s ==> a == b by {
      forall a, b | a in s && b in s ensures a == b {
        SameInSingleton(s, a, b);
      }
    }
    var r :| r in s; r
  }

  function Candidates(keys: set<Key>, current: Oid, prefix: Oid, index: nat): set<Key> {
    set k | k in keys && k.1 == index && prefix <= k.0 && k.0 != current
  }

  /** The one entry with that index whose commit OID starts with the prefix, outside the acting commit. */
  function ResolveTarget(keys: set<Key>, current: Oid, prefix: Oid, index: nat): Option<Key> {
    var found := Candidates(keys, current, prefix, index);
    if |found| == 1 then Some(TheOne(found)) else None
  }

  // ---------------------------------------------------------------- one action

  function State(entry: Entry): (real, bool) {
    (entry.score, entry.valid)
  }

  function Apply(entries: map<Key, Entry>, step: Step): (map<Key, Entry>, Option<Outcome>) {
    match step.effect
    case AddEntry(oid, index, entry) => (entries[(oid, index) := entry], None)
    case Decay(target, index, factor) =>
      var found := ResolveTarget(entries.Keys, step.current, target, index);
      if found.None? then (entries, Some(Outcome(Rejected, None, None, None)))
      else
        var key := found.value;
        assert key in Candidates(entries.Keys, step.current, target, index);
        var before := entries[key];
        var score := if before.valid then before.score * factor else before.score;
        var status := if before.valid && score != before.score then Applied else NoOp;
        (if before.valid then entries[key := before.(score := score)] else entries,
         Some(Outcome(status, Some(key.0), Some(State(before)), Some((score, before.valid)))))
    case Cancel(target, index) =>
      var found := ResolveTarget(entries.Keys, step.current, target, index);
      if found.None? then (entries, Some(Outcome(Rejected, None, None, None)))
      else
        var key := found.value;
        assert key in Candidates(entries.Keys, step.current, target, index);
        var before := entries[key];
        if before.kind != "DECISION" then
          (entries, Some(Outcome(Rejected, Some(key.0), Some(State(before)), Some(State(before)))))
        else
          var status := if before.valid || before.score != 0.0 then Applied else NoOp;
          (entries[key := before.(score := 0.0, valid := false)],
           Some(Outcome(status, Some(key.0), Some(State(before)), Some((0.0, false)))))
  }

  function Replay(entries: map<Key, Entry>, steps: seq<Step>): map<Key, Entry>
    decreases |steps|
  {
    if steps == [] then entries else Replay(Apply(entries, steps[0]).0, steps[1..])
  }

  // ---------------------------------------------------------------- which actions hit an entry

  function Grow(keys: set<Key>, step: Step): set<Key> {
    if step.effect.AddEntry? then keys + {(step.effect.oid, step.effect.index)} else keys
  }

  predicate Adds(step: Step, key: Key) {
    step.effect.AddEntry? && (step.effect.oid, step.effect.index) == key
  }

  /** The action is a DECAY or CANCEL that resolves to the entry among the keys present when it runs. */
  predicate Hits(keys: set<Key>, step: Step, key: Key) {
    !step.effect.AddEntry? && ResolveTarget(keys, step.current, step.effect.target, step.effect.index) == Some(key)
  }

  predicate Cancelled(keys: set<Key>, steps: seq<Step>, key: Key)
    decreases |steps|
  {
    && steps != []
    && (|| (steps[0].effect.Cancel? && Hits(keys, steps[0], key))
        || Cancelled(Grow(keys, steps[0]), steps[1..], key))
  }

  function DecayProduct(keys: set<Key>, steps: seq<Step>, key: Key): real
    decreases |steps|
  {
    if steps == [] then 1.0
    else
      (if steps[0].effect.Decay? && Hits(keys, steps[0], key) then steps[0].effect.factor else 1.0)
      * DecayProduct(Grow(keys, steps[0]), steps[1..], key)
  }

  function ClosedForm(entry: Entry, cancelled: bool, product: real): Entry {
    if entry.kind == "DECISION" && cancelled then entry.(score := 0.0, valid := false)
    else if entry.valid then entry.(score := entry.score * product)
    else entry
  }

  lemma ApplyKeys(entries: map<Key, Entry>, step: Step)
    ensures Apply(entries, step).0.Keys == Grow(entries.Keys, step)
  {
  }

  /** What one action does to an entry that it does not itself add. */
  lemma ApplyAt(entries: map<Key, Entry>, step: Step, key: Key)
    requires key in entries && !Adds(step, key)
    ensures key in Apply(entries, step).0
    ensures Apply(entries, step).0[key] == ClosedForm(entries[key],
      step.effect.Cancel? && Hits(entries.Keys, step, key),
      if step.effect.Decay? && Hits(entries.Keys, step, key) then step.effect.factor else 1.0)
  {
  }

  lemma ClosedFormComposes(entry: Entry, c: bool, p: real, d: bool, q: real)
    ensures ClosedForm(ClosedForm(entry, c, p), d, q) == ClosedForm(entry, c || d, p * q)
  {
  }

  lemma ClosedFormUntouched(entry: Entry)
    ensures ClosedForm(entry, false, 1.0) == entry
  {
  }

  /** The final state of an entry that is not added again: zero and invalid if it is a cancelled DECISION, else scaled
      by every DECAY that resolved to it if it was valid, else unchanged. */
  lemma {:induction false} ReplayClosedForm(entries: map<Key, Entry>, steps: seq<Step>, key: Key)
    requires key in entries && forall i :: 0 <= i < |steps| ==> !Adds(steps[i], key)
    ensures key in Replay(entries, steps)
    ensures Replay(entries, steps)[key]
         == ClosedForm(entries[key], Cancelled(entries.Keys, steps, key), DecayProduct(entries.Keys, steps, key))
    decreases |steps|
  {
    hide Apply, Hits, ClosedForm, Grow;
    ClosedFormUntouched(entries[key]);
    if steps != [] {
      var next := Apply(entries, steps[0]).0;
      ApplyKeys(entries, steps[0]);
      ApplyAt(entries, steps[0], key);
      ReplayClosedForm(next, steps[1..], key);
      var hit := Hits(entries.Keys, steps[0], key);
      var cancelled := steps[0].effect.Cancel? && hit;
      var factor := if steps[0].effect.Decay? && hit then steps[0].effect.factor else 1.0;
      var later, product := Cancelled(next.Keys, steps[1..], key), DecayProduct(next.Keys, steps[1..], key);
      ClosedFormComposes(entries[key], cancelled, factor, later, product);
      assert Cancelled(entries.Keys, steps, key) == (cancelled || later);
      assert DecayProduct(entries.Keys, steps, key) == factor * product;
    }
  }

  // ---------------------------------------------------------------- bounds

  predicate UnitScore(score: real) {
    0.0 <= score <= 1.0
  }

  lemma {:induction false} ReplaySplit(entries: map<Key, Entry>, a: seq<Step>, b: seq<Step>)
    ensures Replay(entries, a + b) == Replay(Replay(entries, a), b)
    decreases |a|
  {
    hide Apply;
    if a == [] {
      assert a + b == b;
    } else {
      assert (a + b)[1..] == a[1..] + b;
      ReplaySplit(Apply(entries, a[0]).0, a[1..], b);
    }
  }

  /** The final state of an entry is the closed form of its last addition under the actions after it. */
  lemma {:induction false} AddedClosedForm(entries: map<Key, Entry>, steps: seq<Step>, j: nat, key: Key)
    requires j < |steps| && Adds(steps[j], key) && forall i :: j < i < |steps| ==> !Adds(steps[i], key)
    ensures var keys, later := Replay(entries, steps[..j + 1]).Keys, steps[j + 1..];
            && key in Replay(entries, steps)
            && Replay(entries, steps)[key]
               == ClosedForm(steps[j].effect.entry, Cancelled(keys, later, key), DecayProduct(keys, later, key))
  {
    hide ClosedForm, Cancelled, DecayProduct;
    var before, upTo, later := steps[..j], steps[..j + 1], steps[j + 1..];
    assert upTo == before + [steps[j]] && steps == upTo + later;
    ReplaySplit(entries, before, [steps[j]]);
    assert [steps[j]][1..] == [];
    assert Replay(entries, upTo) == Apply(Replay(entries, before), steps[j]).0;
    ReplaySplit(entries, upTo, later);
    ReplayClosedForm(Replay(entries, upTo), later, key);
  }

  /** The journal validation admits only factors and scores in [0, 1]. */
  predicate Validated(steps: seq<Step>) {
    forall i :: 0 <= i < |steps| ==>
      match steps[i].effect
      case AddEntry(_, _, entry) => UnitScore(entry.score)
      case Decay(_, _, factor) => UnitScore(factor)
      case Cancel(_, _) => true
  }

  predicate AllUnit(entries: map<Key, Entry>) {
    forall k :: k in entries ==> UnitScore(entries[k].score)
  }

  lemma {:induction false} UnitProduct(a: real, b: real)
    requires UnitScore(a) && UnitScore(b)
    ensures UnitScore(a * b) && a * b <= a
  {
  }

  lemma {:induction false} ScoresStayInUnitInterval(entries: map<Key, Entry>, steps: seq<Step>)
    requires AllUnit(entries) && Validated(steps)
    ensures AllUnit(Replay(entries, steps))
    decreases |steps|
  {
    if steps != [] {
      var next := Apply(entries, steps[0]).0;
      ApplyKeys(entries, steps[0]);
      forall k | k in next ensures UnitScore(next[k].score) {
        if !Adds(steps[0], k) {
          ApplyAt(entries, steps[0], k);
          if steps[0].effect.Decay? {
            UnitProduct(entries[k].score, steps[0].effect.factor);
          }
        }
      }
      assert Validated(steps[1..]);
      ScoresStayInUnitInterval(next, steps[1..]);
    }
  }

  lemma {:induction false} ProductInUnitInterval(keys: set<Key>, steps: seq<Step>, key: Key)
    requires Validated(steps)
    ensures UnitScore(DecayProduct(keys, steps, key))
    decreases |steps|
  {
    if steps != [] {
      assert Validated(steps[1..]);
      ProductInUnitInterval(Grow(keys, steps[0]), steps[1..], key);
      UnitProduct(if steps[0].effect.Decay? && Hits(keys, steps[0], key) then steps[0].effect.factor else 1.0,
                  DecayProduct(Grow(keys, steps[0]), steps[1..], key));
    }
  }

  lemma ClosedFormShrinks(entry: Entry, cancelled: bool, product: real)
    requires UnitScore(entry.score) && UnitScore(product)
    ensures ClosedForm(entry, cancelled, product).score <= entry.score
    ensures ClosedForm(entry, cancelled, product).valid ==> entry.valid
  {
  }

  /** Effects never raise a score and never make an invalid entry valid. */
  lemma {:induction false} ScoresNeverRise(entries: map<Key, Entry>, steps: seq<Step>, key: Key)
    requires AllUnit(entries) && Validated(steps)
    requires key in entries && forall i :: 0 <= i < |steps| ==> !Adds(steps[i], key)
    ensures key in Replay(entries, steps)
    ensures Replay(entries, steps)[key].score <= entries[key].score
    ensures Replay(entries, steps)[key].valid ==> entries[key].valid
  {
    ReplayClosedForm(entries, steps, key);
    ProductInUnitInterval(entries.Keys, steps, key);
    var product := DecayProduct(entries.Keys, steps, key);
    assert UnitScore(entries[key].score);
    ClosedFormShrinks(entries[key], Cancelled(entries.Keys, steps, key), product);
  }

  // ---------------------------------------------------------------- reported outcomes

  /**
   * What the outcome says is what happened: Applied exactly when the (score, valid) pair of the resolved entry changed,
   * Rejected exactly when the target is not unique or is cancelled without being a DECISION, no other entry changed.
   */
  lemma OutcomeIsTruthful(entries: map<Key, Entry>, step: Step)
    requires !step.effect.AddEntry?
    ensures var (after, reported) := Apply(entries, step);
            var found := ResolveTarget(entries.Keys, step.current, step.effect.target, step.effect.index);
            && reported.Some?
            && after.Keys == entries.Keys
            && (reported.value.status == Applied <==> after != entries)
            && (reported.value.status == Rejected <==>
                 found.None? || (step.effect.Cancel? && found.value in entries
                   && entries[found.value].kind != "DECISION"))
            && (found.None? ==>
                  && reported.value.before == None
                  && reported.value.after == None
                  && reported.value.resolved == None)
            && (found.Some? ==>
                 && found.value in entries
                 && reported.value.resolved == Some(found.value.0)
                 && reported.value.before == Some(State(entries[found.value]))
                 && reported.value.after == Some(State(after[found.value]))
                 && (reported.value.status == Applied <==> State(after[found.value]) != State(entries[found.value]))
                 && forall k :: k in entries && k != found.value ==> after[k] == entries[k])
  {
  }
}
