/** META assignments to one target and key: what the store keeps, against the definition by maximal assignments. */
module Metadata {
  import opened Results
  import opened MetaRange

  /** `reach(a, b)`: commit `b` is `a` or an ancestor of `a`. */
  type Relation = (Oid, Oid) -> bool

  ghost predicate PartialOrder(reach: Relation) {
    && (forall a :: reach(a, a))
    && (forall a, b :: reach(a, b) && reach(b, a) ==> a == b)
    && (forall a, b, c :: reach(a, b) && reach(b, c) ==> reach(a, c))
  }

  datatype Assignment = Assignment(source: Oid, value: Option<string>)

  // ---------------------------------------------------------------- declarative definition

  datatype ReachableAssignment = ReachableAssignment(oid: Oid, value: Option<string>, ancestors: set<Oid>)

  datatype EffectiveValue = Resolved(value: Option<string>) | Conflict(values: set<Option<string>>)

  predicate Undominated(candidate: ReachableAssignment, assignments: seq<ReachableAssignment>) {
    !exists other :: other in assignments && other.oid != candidate.oid && candidate.oid in other.ancestors
  }

  function MaximalOf(candidates: seq<ReachableAssignment>,
      assignments: seq<ReachableAssignment>): (r: seq<ReachableAssignment>)
    ensures forall a :: a in r <==> a in candidates && Undominated(a, assignments)
  {
    if candidates == [] then []
    else
      var rest := MaximalOf(candidates[1..], assignments);
      if Undominated(candidates[0], assignments) then [candidates[0]] + rest else rest
  }

  function ResolveMetadataAssignments(assignments: seq<ReachableAssignment>): EffectiveValue {
    var maximal := MaximalOf(assignments, assignments);
    var values := set a | a in maximal :: a.value;
    if |values| == 1 then
      assert maximal != [] by {
        assert maximal == [] ==> values == {};
      }
      Resolved(maximal[0].value)
    else Conflict(values)
  }

  // ---------------------------------------------------------------- what the store keeps

  ghost predicate DescendsFromAll(reach: Relation, source: Oid, kept: map<Oid, Option<string>>) {
    forall p :: p in kept ==> reach(source, p)
  }

  /** The `metadata_assignments` rows of the slot after one set or null operation. */
  ghost function AssignStep(reach: Relation, kept: map<Oid, Option<string>>, assignment: Assignment)
    : map<Oid, Option<string>>
  {
    if DescendsFromAll(reach, assignment.source, kept)
    then map[assignment.source := assignment.value]
    else kept[assignment.source := assignment.value]
  }

  ghost function KeptAfter(reach: Relation, log: seq<Assignment>): map<Oid, Option<string>> {
    if log == [] then map[]
    else AssignStep(reach, KeptAfter(reach, log[..|log| - 1]), log[|log| - 1])
  }

  predicate Conflicted(kept: map<Oid, Option<string>>) {
    |kept.Values| > 1
  }

  // ---------------------------------------------------------------- latest and maximal assignments of a log

  function Latest(log: seq<Assignment>): map<Oid, Option<string>> {
    if log == [] then map[]
    else Latest(log[..|log| - 1])[log[|log| - 1].source := log[|log| - 1].value]
  }


  ghost predicate Descends(reach: Relation, a: Oid, b: Oid) {
    a != b && reach(a, b)
  }

  ghost predicate IsMaximal(reach: Relation, sources: set<Oid>, source: Oid) {
    source in sources && forall other :: other in sources ==> !Descends(reach, other, source)
  }

  ghost function Maximal(reach: Relation, latest: map<Oid, Option<string>>): map<Oid, Option<string>> {
    map source | source in latest && IsMaximal(reach, latest.Keys, source) :: latest[source]
  }

  ghost predicate Listed(listing: seq<ReachableAssignment>, source: Oid) {
    exists a :: a in listing && a.oid == source
  }

  /** The listing holds each source of `latest` with its value and its strict ancestors. */
  ghost predicate Lists(reach: Relation, latest: map<Oid, Option<string>>, listing: seq<ReachableAssignment>) {
    && (forall a :: a in listing ==> a.oid in latest && a.value == latest[a.oid])
    && (forall source {:trigger Listed(listing, source)} :: source in latest ==> Listed(listing, source))
    && (forall a, o :: a in listing ==> (o in a.ancestors <==> Descends(reach, a.oid, o)))
  }

  lemma {:induction false} SomeMaximalAbove(reach: Relation, sources: set<Oid>, source: Oid) returns (top: Oid)
    requires PartialOrder(reach) && source in sources
    ensures IsMaximal(reach, sources, top) && reach(top, source)
    decreases set other | other in sources && Descends(reach, other, source)
  {
    top := source;
    if !IsMaximal(reach, sources, source) {
      var next :| next in sources && Descends(reach, next, source);
      var above := set o | o in sources && Descends(reach, o, source);
      var higher := set o | o in sources && Descends(reach, o, next);
      forall o | o in higher ensures o in above {
      }
      assert next in above && next !in higher;
      top := SomeMaximalAbove(reach, sources, next);
    }
  }

  // ---------------------------------------------------------------- the store keeps the maximal assignments

  ghost predicate CoveredBy(reach: Relation, kept: map<Oid, Option<string>>, source: Oid) {
    exists k :: k in kept && reach(k, source)
  }

  ghost predicate Covers(reach: Relation, kept: map<Oid, Option<string>>, latest: map<Oid, Option<string>>) {
    && (forall s :: s in kept ==> s in latest && kept[s] == latest[s])
    && (forall s {:trigger CoveredBy(reach, kept, s)} :: s in latest ==> CoveredBy(reach, kept, s))
  }

  lemma CoversStep(reach: Relation, kept: map<Oid, Option<string>>, latest: map<Oid, Option<string>>, a: Assignment)
    requires PartialOrder(reach) && Covers(reach, kept, latest)
    ensures Covers(reach, AssignStep(reach, kept, a), latest[a.source := a.value])
  {
    var after := AssignStep(reach, kept, a);
    forall s | s in latest[a.source := a.value] ensures CoveredBy(reach, after, s) {
      if s == a.source {
        assert a.source in after && reach(a.source, s);
      } else {
        assert CoveredBy(reach, kept, s);
        var k :| k in kept && reach(k, s);
        if DescendsFromAll(reach, a.source, kept) {
          assert a.source in after && reach(a.source, s);
        } else {
          assert k in after;
        }
      }
    }
  }

  lemma {:induction false} KeptCovers(reach: Relation, log: seq<Assignment>)
    requires PartialOrder(reach)
    ensures Covers(reach, KeptAfter(reach, log), Latest(log))
  {
    if log != [] {
      KeptCovers(reach, log[..|log| - 1]);
      CoversStep(reach, KeptAfter(reach, log[..|log| - 1]), Latest(log[..|log| - 1]), log[|log| - 1]);
    }
  }

  /** Every latest-per-source assignment that no other one descends from is kept, with its latest value. */
  lemma {:induction false} KeptIncludesMaximal(reach: Relation, log: seq<Assignment>, source: Oid)
    requires PartialOrder(reach) && source in Maximal(reach, Latest(log))
    ensures source in KeptAfter(reach, log) && KeptAfter(reach, log)[source] == Latest(log)[source]
  {
    KeptCovers(reach, log);
    assert CoveredBy(reach, KeptAfter(reach, log), source);
    var k :| k in KeptAfter(reach, log) && reach(k, source);
    assert !Descends(reach, k, source);
  }

  /** A source that descends from every kept source leaves only its own assignment. */
  lemma {:induction false} DescendantLeavesOnlyItself(reach: Relation, log: seq<Assignment>, a: Assignment)
    requires forall k :: k in KeptAfter(reach, log) ==> reach(a.source, k)
    ensures KeptAfter(reach, log + [a]) == map[a.source := a.value]
  {
  }

  // ---------------------------------------------------------------- the definition, read through `Maximal`

  lemma SingletonValues<T>(values: set<T>, v: T)
    requires v in values && forall w :: w in values ==> w == v
    ensures values == {v} && |values| == 1
  {
  }

  lemma OneValue<T>(values: set<T>, v: T, w: T)
    requires v in values && w in values && v != w
    ensures |values| > 1
  {
    assert {v, w} <= values;
    assert |values| == |{v, w}| + |values - {v, w}| by {
      assert values == {v, w} + (values - {v, w});
    }
  }

  lemma {:induction false} UndominatedIsMaximal(reach: Relation, latest: map<Oid, Option<string>>,
      listing: seq<ReachableAssignment>, a: ReachableAssignment)
    requires Lists(reach, latest, listing) && a in listing
    ensures Undominated(a, listing) <==> a.oid in Maximal(reach, latest)
  {
    if Undominated(a, listing) {
      forall other | other in latest ensures !Descends(reach, other, a.oid) {
        assert Listed(listing, other);
        var b :| b in listing && b.oid == other;
        assert !(b.oid != a.oid && a.oid in b.ancestors);
      }
    }
  }

  /** The definition resolves exactly when the maximal assignments carry one value, and then to that value. */
  lemma {:induction false} DefinitionByMaximal(reach: Relation, latest: map<Oid, Option<string>>,
      listing: seq<ReachableAssignment>, v: Option<string>)
    requires Lists(reach, latest, listing)
    ensures ResolveMetadataAssignments(listing) == Resolved(v) <==> Maximal(reach, latest).Values == {v}
  {
    var maximal := MaximalOf(listing, listing);
    var values := set a | a in maximal :: a.value;
    var top := Maximal(reach, latest);
    forall a | a in maximal ensures a.value in top.Values {
      UndominatedIsMaximal(reach, latest, listing, a);
      assert top[a.oid] == a.value;
    }
    forall w | w in top.Values ensures w in values {
      var s :| s in top && top[s] == w;
      assert Listed(listing, s);
      var a :| a in listing && a.oid == s;
      UndominatedIsMaximal(reach, latest, listing, a);
      assert a in maximal;
    }
    assert values == top.Values;
    if values == {v} {
      assert |values| == 1 && maximal[0].value in values;
    }
    if ResolveMetadataAssignments(listing) == Resolved(v) {
      forall w | w in values ensures w == v {
        assert v in values;
        if w != v {
          OneValue(values, v, w);
        }
      }
    }
  }

  /** When the store reports no conflict, its value is the one the definition gives. */
  lemma {:induction false} NoConflictIsResolved(reach: Relation, log: seq<Assignment>,
      listing: seq<ReachableAssignment>)
    requires PartialOrder(reach) && log != [] && Lists(reach, Latest(log), listing)
    requires !Conflicted(KeptAfter(reach, log))
    ensures exists v :: KeptAfter(reach, log).Values == {v} && ResolveMetadataAssignments(listing) == Resolved(v)
  {
    var kept, latest := KeptAfter(reach, log), Latest(log);
    var top := SomeMaximalAbove(reach, latest.Keys, log[|log| - 1].source);
    var maximal := Maximal(reach, latest);
    assert top in maximal;
    KeptIncludesMaximal(reach, log, top);
    var v := maximal[top];
    assert v in kept.Values && v in maximal.Values;
    forall w | w in kept.Values ensures w == v {
      if w != v {
        OneValue(kept.Values, v, w);
      }
    }
    forall w | w in maximal.Values ensures w == v {
      var s :| s in maximal && maximal[s] == w;
      KeptIncludesMaximal(reach, log, s);
      assert w in kept.Values;
    }
    SingletonValues(kept.Values, v);
    SingletonValues(maximal.Values, v);
    DefinitionByMaximal(reach, latest, listing, v);
  }

  // ---------------------------------------------------------------- when the kept rows are exactly the maximal ones

  ghost predicate Exact(reach: Relation, log: seq<Assignment>) {
    KeptAfter(reach, log) == Maximal(reach, Latest(log))
  }

  ghost predicate ComparableToNone(reach: Relation, source: Oid, kept: map<Oid, Option<string>>) {
    forall k :: k in kept ==> !Descends(reach, source, k) && !Descends(reach, k, source)
  }

  lemma {:induction false} AfterStep(reach: Relation, log: seq<Assignment>, a: Assignment)
    ensures KeptAfter(reach, log + [a]) == AssignStep(reach, KeptAfter(reach, log), a)
    ensures Latest(log + [a]) == Latest(log)[a.source := a.value]
  {
  }

  lemma {:induction false} ResetIsExact(reach: Relation, log: seq<Assignment>, a: Assignment)
    requires PartialOrder(reach) && DescendsFromAll(reach, a.source, KeptAfter(reach, log))
    ensures Exact(reach, log + [a])
  {
    AfterStep(reach, log, a);
    KeptCovers(reach, log);
    var latest := Latest(log + [a]);
    forall s | s in latest ensures reach(a.source, s) {
      if s != a.source {
        assert CoveredBy(reach, KeptAfter(reach, log), s);
      }
    }
    forall s | s in latest ensures IsMaximal(reach, latest.Keys, s) <==> s == a.source {
      assert s != a.source ==> Descends(reach, a.source, s);
      assert a.source in latest.Keys;
    }
  }

  /** Exactness survives a step exactly when its source descends from every kept source or is comparable to none. */
  lemma {:induction false} ExactStep(reach: Relation, log: seq<Assignment>, a: Assignment)
    requires PartialOrder(reach) && Exact(reach, log)
    ensures Exact(reach, log + [a]) <==>
      DescendsFromAll(reach, a.source, KeptAfter(reach, log))
        || ComparableToNone(reach, a.source, KeptAfter(reach, log))
  {
    var kept, latest := KeptAfter(reach, log), Latest(log);
    AfterStep(reach, log, a);
    if DescendsFromAll(reach, a.source, kept) {
      ResetIsExact(reach, log, a);
    } else if ComparableToNone(reach, a.source, kept) {
      forall other | other in latest ensures !Descends(reach, other, a.source) {
        var top := SomeMaximalAbove(reach, latest.Keys, other);
        assert top in kept;
        assert !Descends(reach, top, a.source);
      }
      MaximalAfterIncomparable(reach, kept, latest, a);
    } else {
      var k :| k in kept && (Descends(reach, a.source, k) || Descends(reach, k, a.source));
      var after := Maximal(reach, latest[a.source := a.value]);
      assert k !in after || a.source !in after;
    }
  }

  lemma MaximalAfterIncomparable(reach: Relation, kept: map<Oid, Option<string>>, latest: map<Oid, Option<string>>,
      a: Assignment)
    requires kept == Maximal(reach, latest) && ComparableToNone(reach, a.source, kept)
    requires forall other :: other in latest ==> !Descends(reach, other, a.source)
    ensures Maximal(reach, latest[a.source := a.value]) == kept[a.source := a.value]
  {
  }

  // ---------------------------------------------------------------- conflicts the definition does not report

  /** Some other kept source descends from `source`. */
  ghost predicate Dominated(reach: Relation, kept: map<Oid, Option<string>>, source: Oid) {
    exists o :: o in kept && Descends(reach, o, source)
  }

  /** Over every sequence of assignments the maximal ones are exactly the stored rows that no stored row dominates. */
  lemma {:induction false} MaximalAreUndominated(reach: Relation, log: seq<Assignment>)
    requires PartialOrder(reach)
    ensures var kept := KeptAfter(reach, log);
            Maximal(reach, Latest(log)) == map k | k in kept && !Dominated(reach, kept, k) :: kept[k]
  {
    var kept, latest := KeptAfter(reach, log), Latest(log);
    KeptCovers(reach, log);
    forall k | k in kept ensures IsMaximal(reach, latest.Keys, k) <==> !Dominated(reach, kept, k) {
      if s :| s in latest && Descends(reach, s, k) {
        assert CoveredBy(reach, kept, s);
        var top :| top in kept && reach(top, s);
        assert Descends(reach, top, k);
      }
    }
    forall k | k in Maximal(reach, latest) ensures k in kept {
      KeptIncludesMaximal(reach, log, k);
    }
  }

  /** All undominated rows carry this value. */
  ghost predicate AgreesOn(reach: Relation, kept: map<Oid, Option<string>>, v: Option<string>) {
    forall o :: o in kept && !Dominated(reach, kept, o) ==> kept[o] == v
  }

  /** A dominated row carries another value. */
  ghost predicate Dissents(reach: Relation, kept: map<Oid, Option<string>>, k: Oid, v: Option<string>) {
    k in kept && Dominated(reach, kept, k) && kept[k] != v
  }

  /** All undominated rows carry one value, and some dominated row carries another. */
  ghost predicate HiddenDisagreement(reach: Relation, kept: map<Oid, Option<string>>) {
    exists k, v :: AgreesOn(reach, kept, v) && Dissents(reach, kept, k, v)
  }

  /**
   * Over every sequence of assignments the store's verdict differs from the definition's if and only if the undominated
   * rows agree and a dominated row disagrees with them.
   */
  lemma {:induction false} VerdictDiffersExactly(reach: Relation, log: seq<Assignment>,
      listing: seq<ReachableAssignment>)
    requires PartialOrder(reach) && log != [] && Lists(reach, Latest(log), listing)
    ensures (Conflicted(KeptAfter(reach, log)) <==> ResolveMetadataAssignments(listing).Conflict?)
       <==> !HiddenDisagreement(reach, KeptAfter(reach, log))
  {
    hide PartialOrder, Lists, ResolveMetadataAssignments, Dominated, Latest;
    var kept, maximal := KeptAfter(reach, log), Maximal(reach, Latest(log));
    MaximalAreUndominated(reach, log);
    var top := SomeUndominated(reach, log);
    var v := kept[top];
    assert v in kept.Values && maximal[top] == v && v in maximal.Values;
    DefinitionByMaximal(reach, Latest(log), listing, v);
    DefinitionResolvedValue(reach, Latest(log), listing, v);
    ConflictedUnless(kept, v);
    OnlyValue(kept, top, v);
    OnlyValue(maximal, top, v);
    if maximal.Values == {v} && kept.Values != {v} {
      var k :| k in kept && kept[k] != v;
      forall o | o in kept && !Dominated(reach, kept, o) ensures kept[o] == v {
        assert o in maximal && maximal[o] == kept[o];
      }
      assert Dominated(reach, kept, k);
      assert AgreesOn(reach, kept, v) && Dissents(reach, kept, k, v);
    }
    if HiddenDisagreement(reach, kept) {
      var k, w :| AgreesOn(reach, kept, w) && Dissents(reach, kept, k, w);
      assert w == v;
      forall o | o in maximal ensures maximal[o] == v {
      }
    }
  }

  lemma {:induction false} SomeUndominated(reach: Relation, log: seq<Assignment>) returns (top: Oid)
    requires PartialOrder(reach) && log != []
    ensures top in KeptAfter(reach, log) && !Dominated(reach, KeptAfter(reach, log), top)
  {
    top := SomeMaximalAbove(reach, Latest(log).Keys, log[|log| - 1].source);
    MaximalAreUndominated(reach, log);
    assert top in Maximal(reach, Latest(log));
  }

  // ---------------------------------------------------------------- the same before a step

  ghost predicate NoKeptDescendant(reach: Relation, kept: map<Oid, Option<string>>, source: Oid) {
    forall k :: k in kept ==> !Descends(reach, k, source)
  }

  /** `k` lies below the new source or below a kept one. */
  ghost predicate Overtaken(reach: Relation, kept: map<Oid, Option<string>>, source: Oid, k: Oid) {
    Descends(reach, source, k) || Dominated(reach, kept, k)
  }

  /** The source does not descend from all kept sources, some overtaken row differs from its value, and every other row
      agrees with it. */
  ghost predicate FalseAlarm(reach: Relation, kept: map<Oid, Option<string>>, a: Assignment) {
    && !DescendsFromAll(reach, a.source, kept)
    && (exists k :: k in kept && k != a.source && Overtaken(reach, kept, a.source, k) && kept[k] != a.value)
    && (forall k :: k in kept && k != a.source && !Overtaken(reach, kept, a.source, k) ==> kept[k] == a.value)
  }

  lemma DominatedAfter(reach: Relation, kept: map<Oid, Option<string>>, a: Assignment, k: Oid)
    requires NoKeptDescendant(reach, kept, a.source)
    ensures !Dominated(reach, kept[a.source := a.value], a.source)
    ensures Dominated(reach, kept[a.source := a.value], k) <==> Overtaken(reach, kept, a.source, k)
  {
    var after := kept[a.source := a.value];
    if Descends(reach, a.source, k) {
      assert a.source in after;
    }
    if o :| o in kept && Descends(reach, o, k) {
      assert o in after;
    }
  }

  /**
   * In replay order, after any log, the store's verdict after one more assignment differs from the definition's if and
   * only if that assignment is a false alarm on the rows stored before it.
   */
  lemma {:induction false} VerdictDiffersExactlyOnFalseAlarm(reach: Relation, log: seq<Assignment>, a: Assignment,
      listing: seq<ReachableAssignment>)
    requires PartialOrder(reach) && NoKeptDescendant(reach, KeptAfter(reach, log), a.source)
    requires Lists(reach, Latest(log + [a]), listing)
    ensures (Conflicted(KeptAfter(reach, log + [a])) <==> ResolveMetadataAssignments(listing).Conflict?)
       <==> !FalseAlarm(reach, KeptAfter(reach, log), a)
  {
    hide PartialOrder, Lists, ResolveMetadataAssignments, Dominated, Latest, Overtaken;
    var kept, after := KeptAfter(reach, log), KeptAfter(reach, log + [a]);
    AfterStep(reach, log, a);
    VerdictDiffersExactly(reach, log + [a], listing);
    if DescendsFromAll(reach, a.source, kept) {
      DescendantLeavesOnlyItself(reach, log, a);
      OneRowIsUndominated(reach, a);
    } else {
      forall k ensures Dominated(reach, after, k) <==> Overtaken(reach, kept, a.source, k) {
        DominatedAfter(reach, kept, a, k);
      }
      DominatedAfter(reach, kept, a, a.source);
      AlarmIsHidden(reach, kept, after, a);
    }
  }

  lemma OneRowIsUndominated(reach: Relation, a: Assignment)
    ensures !HiddenDisagreement(reach, map[a.source := a.value])
  {
  }

  lemma AlarmIsHidden(reach: Relation, kept: map<Oid, Option<string>>, after: map<Oid, Option<string>>, a: Assignment)
    requires after == kept[a.source := a.value] && !DescendsFromAll(reach, a.source, kept)
    requires !Dominated(reach, after, a.source)
    requires forall k :: Dominated(reach, after, k) <==> Overtaken(reach, kept, a.source, k)
    ensures FalseAlarm(reach, kept, a) <==> HiddenDisagreement(reach, after)
  {
    hide Dominated, Overtaken;
    if FalseAlarm(reach, kept, a) {
      var k :| k in kept && k != a.source && Overtaken(reach, kept, a.source, k) && kept[k] != a.value;
      assert AgreesOn(reach, after, a.value) && Dissents(reach, after, k, a.value);
    }
    if HiddenDisagreement(reach, after) {
      var k, v :| AgreesOn(reach, after, v) && Dissents(reach, after, k, v);
      assert after[a.source] == a.value == v;
      forall o | o in kept && o != a.source && !Overtaken(reach, kept, a.source, o) ensures kept[o] == a.value {
        assert o in after;
      }
    }
  }

  lemma {:induction false} DefinitionResolvedValue(reach: Relation, latest: map<Oid, Option<string>>,
      listing: seq<ReachableAssignment>, v: Option<string>)
    requires Lists(reach, latest, listing) && v in Maximal(reach, latest).Values
    ensures ResolveMetadataAssignments(listing).Resolved? ==> ResolveMetadataAssignments(listing) == Resolved(v)
  {
    if ResolveMetadataAssignments(listing).Resolved? {
      DefinitionByMaximal(reach, latest, listing, ResolveMetadataAssignments(listing).value);
    }
  }

  lemma ConflictedUnless(kept: map<Oid, Option<string>>, v: Option<string>)
    requires v in kept.Values
    ensures Conflicted(kept) <==> kept.Values != {v}
  {
    if w :| w in kept.Values && w != v {
      OneValue(kept.Values, v, w);
    } else {
      SingletonValues(kept.Values, v);
    }
  }

  lemma OnlyValue(m: map<Oid, Option<string>>, source: Oid, v: Option<string>)
    requires source in m && m[source] == v
    ensures m.Values == {v} <==> forall k :: k in m ==> m[k] == v
  {
    if m.Values == {v} {
      forall k | k in m ensures m[k] == v {
        assert m[k] in m.Values;
      }
    }
  }

  lemma {:induction false} ThreeSteps(reach: Relation, a: Assignment, b: Assignment, c: Assignment)
    requires a.source != b.source && a.source != c.source && b.source != c.source
    requires !reach(b.source, a.source) && !reach(c.source, a.source)
    ensures KeptAfter(reach, [a, b, c]) == map[a.source := a.value, b.source := b.value, c.source := c.value]
    ensures Latest([a, b, c]) == map[a.source := a.value, b.source := b.value, c.source := c.value]
  {
    assert [a, b] + [c] == [a, b, c] && [a] + [b] == [a, b] && [] + [a] == [a];
    AfterStep(reach, [], a);
    AfterStep(reach, [a], b);
    AfterStep(reach, [a, b], c);
    assert a.source in KeptAfter(reach, [a]) && a.source in KeptAfter(reach, [a, b]);
  }
}
