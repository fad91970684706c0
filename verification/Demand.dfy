/** The demand policy of a route: spaced samples within an hour, and the depth they justify. */
module Demand {
  import opened Results

  datatype Observation = Observation(at: nat, depth: nat)

  const WINDOW: nat := 500
  const SAMPLE_SECONDS: nat := 60
  const EXPIRY_SECONDS: nat := 3600
  const MAX_SAMPLES: nat := 60
  const USIZE_MAX: nat := 0xFFFF_FFFF_FFFF_FFFF

  predicate Live(sample: Observation, now: nat) {
    sample.at <= now && now - sample.at < EXPIRY_SECONDS
  }

  // ---------------------------------------------------------------- expiry

  function KeepLive(samples: seq<Observation>, now: nat): seq<Observation> {
    if samples == [] then []
    else
      KeepLive(samples[..|samples| - 1], now)
      + if Live(samples[|samples| - 1], now) then [samples[|samples| - 1]] else []
  }

  /** The stable place of a sample among samples sorted by time. */
  function InsertByTime(sorted: seq<Observation>, sample: Observation): seq<Observation> {
    if sorted == [] || sorted[|sorted| - 1].at <= sample.at then sorted + [sample]
    else InsertByTime(sorted[..|sorted| - 1], sample) + [sorted[|sorted| - 1]]
  }

  function SortByTime(samples: seq<Observation>): seq<Observation> {
    if samples == [] then []
    else InsertByTime(SortByTime(samples[..|samples| - 1]), samples[|samples| - 1])
  }

  /** Keeps a sample when it lies at least a minute after the last one kept. */
  function Thin(sorted: seq<Observation>): seq<Observation> {
    if sorted == [] then []
    else
      var kept, sample := Thin(sorted[..|sorted| - 1]), sorted[|sorted| - 1];
      if kept != [] && sample.at < kept[|kept| - 1].at + SAMPLE_SECONDS then kept else kept + [sample]
  }

  function Thinned(samples: seq<Observation>, now: nat): seq<Observation> {
    Thin(SortByTime(KeepLive(samples, now)))
  }

  function LastOf(samples: seq<Observation>, n: nat): seq<Observation> {
    if |samples| > n then samples[|samples| - n..] else samples
  }

  function Expired(samples: seq<Observation>, now: nat): seq<Observation> {
    LastOf(Thinned(samples, now), MAX_SAMPLES)
  }

  // ---------------------------------------------------------------- observing and the target

  function Accepts(samples: seq<Observation>, now: nat): bool {
    var live := Expired(samples, now);
    live == [] || now >= live[|live| - 1].at + SAMPLE_SECONDS
  }

  function Observed(samples: seq<Observation>, now: nat, depth: nat): seq<Observation> {
    Expired(samples, now) + if Accepts(samples, now) then [Observation(now, depth)] else []
  }

  predicate Deep(sample: Observation, now: nat) {
    Live(sample, now) && sample.depth > WINDOW
  }

  function DeepDepths(samples: seq<Observation>, now: nat): seq<nat> {
    if samples == [] then []
    else
      DeepDepths(samples[..|samples| - 1], now)
      + if Deep(samples[|samples| - 1], now) then [samples[|samples| - 1].depth] else []
  }

  function Deepest(depths: seq<nat>): nat {
    if depths == [] then 0
    else
      var rest, last := Deepest(depths[..|depths| - 1]), depths[|depths| - 1];
      if last > rest then last else rest
  }

  function Saturated(depth: nat): nat {
    if depth + WINDOW > USIZE_MAX then USIZE_MAX else depth + WINDOW
  }

  function Min(a: nat, b: nat): nat {
    if a < b then a else b
  }

  function Target(samples: seq<Observation>, now: nat, ceiling: nat): Option<nat> {
    var depths := DeepDepths(samples, now);
    if |depths| < 2 then None
    else
      var target := Min(Saturated(Deepest(depths)), ceiling);
      if target > Deepest(depths) then Some(target) else None
  }

  // ---------------------------------------------------------------- samples stay spaced and recent

  ghost predicate Spaced(samples: seq<Observation>) {
    forall i, j :: 0 <= i < j < |samples| ==> samples[i].at + SAMPLE_SECONDS <= samples[j].at
  }

  ghost predicate Sorted(samples: seq<Observation>) {
    forall i, j :: 0 <= i < j < |samples| ==> samples[i].at <= samples[j].at
  }

  ghost predicate Recent(samples: seq<Observation>, now: nat) {
    forall i :: 0 <= i < |samples| ==> Live(samples[i], now)
  }

  lemma {:induction false} KeptAreLive(samples: seq<Observation>, now: nat)
    ensures Recent(KeepLive(samples, now), now)
    ensures forall s :: s in KeepLive(samples, now) <==> s in samples && Live(s, now)
  {
    if samples != [] {
      var rest := samples[..|samples| - 1];
      KeptAreLive(rest, now);
      assert samples == rest + [samples[|samples| - 1]];
    }
  }

  lemma {:induction false} InsertSorts(sorted: seq<Observation>, sample: Observation)
    requires Sorted(sorted)
    ensures Sorted(InsertByTime(sorted, sample))
    ensures forall s :: s in InsertByTime(sorted, sample) <==> s in sorted || s == sample
  {
    if sorted != [] && sorted[|sorted| - 1].at > sample.at {
      var rest, last := sorted[..|sorted| - 1], sorted[|sorted| - 1];
      InsertSorts(rest, sample);
      assert sorted == rest + [last];
      forall s | s in InsertByTime(rest, sample) ensures s.at <= last.at {
        if s in rest {
          var i :| 0 <= i < |rest| && rest[i] == s;
          assert sorted[i] == s;
        }
      }
    }
  }

  lemma {:induction false} SortSorts(samples: seq<Observation>)
    ensures Sorted(SortByTime(samples))
    ensures forall s :: s in SortByTime(samples) <==> s in samples
  {
    if samples != [] {
      var rest := samples[..|samples| - 1];
      SortSorts(rest);
      InsertSorts(SortByTime(rest), samples[|samples| - 1]);
      assert samples == rest + [samples[|samples| - 1]];
    }
  }

  lemma {:induction false} AppendSpaced(kept: seq<Observation>, sample: Observation)
    requires Spaced(kept) && (kept != [] ==> kept[|kept| - 1].at + SAMPLE_SECONDS <= sample.at)
    ensures Spaced(kept + [sample])
  {
  }

  lemma {:induction false} ThinSpaces(sorted: seq<Observation>)
    requires Sorted(sorted)
    ensures Spaced(Thin(sorted))
    ensures forall s :: s in Thin(sorted) ==> s in sorted
    ensures sorted != [] ==> Thin(sorted) != [] && Thin(sorted)[0] == sorted[0]
  {
    if sorted != [] {
      var rest := sorted[..|sorted| - 1];
      hide Spaced;
      ThinSpaces(rest);
      var kept, last := Thin(rest), sorted[|sorted| - 1];
      if kept == [] || kept[|kept| - 1].at + SAMPLE_SECONDS <= last.at {
        AppendSpaced(kept, last);
      }
      assert sorted == rest + [sorted[|sorted| - 1]];
    }
  }

  /** Minute-spaced samples within one hour number at most sixty. */
  lemma {:induction false} SpacedAreFew(samples: seq<Observation>, now: nat)
    requires Spaced(samples) && Recent(samples, now)
    ensures |samples| <= MAX_SAMPLES
  {
    if samples != [] {
      SpanGrows(samples, |samples| - 1);
    }
  }

  lemma {:induction false} SpanGrows(samples: seq<Observation>, k: nat)
    requires Spaced(samples) && k < |samples|
    ensures samples[0].at + SAMPLE_SECONDS * k <= samples[k].at
  {
    if k > 0 {
      SpanGrows(samples, k - 1);
    }
  }

  /** After expiry samples are spaced and recent, whatever was stored; the cut to sixty never removes one. */
  lemma {:induction false} ExpiryHolds(samples: seq<Observation>, now: nat)
    ensures Spaced(Expired(samples, now)) && Recent(Expired(samples, now), now)
    ensures Expired(samples, now) == Thinned(samples, now) && |Expired(samples, now)| <= MAX_SAMPLES
    ensures forall s :: s in Expired(samples, now) ==> s in samples
  {
    hide KeepLive, SortByTime, Thin;
    KeptAreLive(samples, now);
    SortSorts(KeepLive(samples, now));
    ThinSpaces(SortByTime(KeepLive(samples, now)));
    var thinned := Thinned(samples, now);
    forall i | 0 <= i < |thinned| ensures Live(thinned[i], now) {
      assert thinned[i] in thinned;
    }
    SpacedAreFew(thinned, now);
  }

  // ---------------------------------------------------------------- expiry of spaced samples only drops the dead

  lemma {:induction false} SortedStays(samples: seq<Observation>)
    requires Sorted(samples)
    ensures SortByTime(samples) == samples
  {
    if samples != [] {
      SortedStays(samples[..|samples| - 1]);
    }
  }

  lemma {:induction false} SpacedStays(samples: seq<Observation>)
    requires Spaced(samples)
    ensures Thin(samples) == samples
  {
    hide Spaced;
    if samples != [] {
      SpacedFront(samples);
      SpacedStays(samples[..|samples| - 1]);
    }
  }

  lemma {:induction false} SpacedFront(samples: seq<Observation>)
    requires Spaced(samples) && samples != []
    ensures var rest := samples[..|samples| - 1];
            && Spaced(rest)
            && (rest != [] ==> rest[|rest| - 1].at + SAMPLE_SECONDS <= samples[|samples| - 1].at)
  {
  }

  lemma {:induction false} KeepLiveSpaced(samples: seq<Observation>, now: nat)
    requires Spaced(samples)
    ensures Spaced(KeepLive(samples, now))
    ensures forall s :: s in KeepLive(samples, now) ==> s in samples
  {
    hide Spaced;
    if samples == [] {
      NothingIsSpaced();
    } else {
      var rest, last := samples[..|samples| - 1], samples[|samples| - 1];
      SpacedFront(samples);
      KeepLiveSpaced(rest, now);
      var kept := KeepLive(rest, now);
      if kept != [] {
        LastIsLater(samples, kept[|kept| - 1]);
      }
      AppendSpaced(kept, last);
      assert kept + [] == kept && samples == rest + [last];
    }
  }

  lemma NothingIsSpaced()
    ensures Spaced([])
  {
  }

  lemma {:induction false} LastIsLater(samples: seq<Observation>, s: Observation)
    requires Spaced(samples) && samples != [] && s in samples[..|samples| - 1]
    ensures s.at + SAMPLE_SECONDS <= samples[|samples| - 1].at
  {
    var k :| 0 <= k < |samples| - 1 && samples[..|samples| - 1][k] == s;
    assert samples[k] == s;
  }

  /** For samples that observing has produced, expiry keeps exactly the live ones. */
  lemma {:induction false} ExpiryKeepsLive(samples: seq<Observation>, now: nat)
    requires Spaced(samples)
    ensures Expired(samples, now) == KeepLive(samples, now)
  {
    hide KeepLive, Thin, SortByTime;
    KeepLiveSpaced(samples, now);
    var live := KeepLive(samples, now);
    SortedStays(live);
    SpacedStays(live);
    ExpiryHolds(samples, now);
  }

  /** An observation is accepted exactly when no live sample lies within the last minute. */
  lemma {:induction false} AcceptedExactly(samples: seq<Observation>, now: nat)
    requires Spaced(samples)
    ensures Accepts(samples, now) <==> forall s :: s in samples && s.at <= now < s.at + 3600 ==> s.at + 60 <= now
  {
    hide KeepLive, Thinned;
    ExpiryKeepsLive(samples, now);
    KeptAreLive(samples, now);
    ExpiryHolds(samples, now);
    var live := Expired(samples, now);
    if live != [] {
      var last := live[|live| - 1];
      assert last in live;
      forall s | s in live ensures s == last || s.at + SAMPLE_SECONDS <= last.at {
        var k :| 0 <= k < |live| && live[k] == s;
      }
    }
  }

  lemma {:induction false} ObservedHolds(samples: seq<Observation>, now: nat, depth: nat)
    ensures var after := Observed(samples, now, depth);
            Spaced(after) && Recent(after, now) && |after| <= MAX_SAMPLES
  {
    hide Thinned, LastOf;
    ExpiryHolds(samples, now);
    var live, after := Expired(samples, now), Observed(samples, now, depth);
    forall i, j | 0 <= i < j < |after| ensures after[i].at + SAMPLE_SECONDS <= after[j].at {
      if j == |live| && i < |live| - 1 {
        assert live[i].at + SAMPLE_SECONDS <= live[|live| - 1].at;
      }
    }
    SpacedAreFew(after, now);
  }

  // ---------------------------------------------------------------- the target

  lemma {:induction false} DeepestAppended(depths: seq<nat>, depth: nat)
    ensures Deepest(depths + [depth]) == if depth > Deepest(depths) then depth else Deepest(depths)
  {
  }

  lemma {:induction false} DeepestBounds(depths: seq<nat>)
    ensures forall i :: 0 <= i < |depths| ==> depths[i] <= Deepest(depths)
    ensures depths != [] ==> exists i :: 0 <= i < |depths| && depths[i] == Deepest(depths)
  {
    if depths != [] {
      var rest, last := depths[..|depths| - 1], depths[|depths| - 1];
      DeepestBounds(rest);
      forall i | 0 <= i < |depths| ensures depths[i] <= Deepest(depths) {
        if i < |rest| {
          assert depths[i] == rest[i];
        }
      }
      if last > Deepest(rest) || rest == [] {
        assert depths[|rest|] == Deepest(depths);
      } else {
        var i :| 0 <= i < |rest| && rest[i] == Deepest(rest);
        assert depths[i] == Deepest(depths);
      }
    }
  }

  lemma {:induction false} DeepDepthsMean(samples: seq<Observation>, now: nat)
    ensures forall d :: d in DeepDepths(samples, now) <==> exists s :: s in samples && Deep(s, now) && s.depth == d
    ensures |DeepDepths(samples, now)| >= 2 <==> TwoDeep(samples, now)
  {
    if samples != [] {
      var rest, last := samples[..|samples| - 1], samples[|samples| - 1];
      DeepDepthsMean(rest, now);
      DeepCount(samples, now);
      assert samples == rest + [last];
      forall d | d in DeepDepths(samples, now) ensures exists s :: s in samples && Deep(s, now) && s.depth == d {
        if d in DeepDepths(rest, now) {
          var s :| s in rest && Deep(s, now) && s.depth == d;
          assert s in samples;
        } else {
          assert last in samples;
        }
      }
      forall s | s in samples && Deep(s, now) ensures s.depth in DeepDepths(samples, now) {
        if s in rest {
          assert s.depth in DeepDepths(rest, now);
        }
      }
    }
  }

  ghost predicate DeepAt(samples: seq<Observation>, now: nat, i: nat) {
    i < |samples| && samples[i].at <= now < samples[i].at + 3600 && samples[i].depth > 500
  }

  ghost predicate TwoDeep(samples: seq<Observation>, now: nat) {
    exists i: nat, j: nat :: i < j && DeepAt(samples, now, i) && DeepAt(samples, now, j)
  }

  lemma {:induction false} DeepCount(samples: seq<Observation>, now: nat)
    ensures |DeepDepths(samples, now)| >= 1 <==> exists i: nat :: DeepAt(samples, now, i)
    ensures |DeepDepths(samples, now)| >= 2 <==> TwoDeep(samples, now)
  {
    if samples != [] {
      var rest, n := samples[..|samples| - 1], |samples| - 1;
      DeepCount(rest, now);
      assert DeepDepths(rest, now) + [] == DeepDepths(rest, now);
      if Deep(samples[n], now) {
        assert DeepAt(samples, now, n);
      } else if i: nat :| DeepAt(rest, now, i) {
        assert DeepAt(samples, now, i);
      }
      forall i: nat ensures DeepAt(samples, now, i) <==> DeepAt(rest, now, i) || (i == n && Deep(samples[n], now)) {
      }
      if TwoDeep(rest, now) {
        var i: nat, j: nat :| i < j && DeepAt(rest, now, i) && DeepAt(rest, now, j);
        assert DeepAt(samples, now, i) && DeepAt(samples, now, j);
      } else if Deep(samples[n], now) && exists i: nat :: DeepAt(rest, now, i) {
        var i: nat :| DeepAt(rest, now, i);
        assert i < n && DeepAt(samples, now, i) && DeepAt(samples, now, n);
      }
    }
  }

  /** `depth` is the depth of the deepest live sample beyond the window. */
  ghost predicate IsDeepest(samples: seq<Observation>, now: nat, depth: nat) {
    && depth > 500
    && (exists s :: s in samples && s.at <= now < s.at + 3600 && s.depth == depth)
    && (forall s :: s in samples && s.at <= now < s.at + 3600 ==> s.depth <= depth)
  }

  lemma {:induction false} SomeDeepest(samples: seq<Observation>, now: nat) returns (depth: nat)
    requires TwoDeep(samples, now)
    ensures IsDeepest(samples, now, depth)
  {
    hide DeepDepths, Deepest;
    var i: nat, j: nat :| i < j && DeepAt(samples, now, i) && DeepAt(samples, now, j);
    DeepDepthsMean(samples, now);
    DeepestBounds(DeepDepths(samples, now));
    assert samples[i] in samples && Deep(samples[i], now);
    var depths := DeepDepths(samples, now);
    assert samples[i].depth in depths;
    depth := Deepest(depths);
    assert depth in depths;
    forall s | s in samples && Deep(s, now) ensures s.depth <= depth {
      assert s.depth in depths;
    }
  }

  /** The target one window beyond this depth, cut at the ceiling, if the ceiling exceeds the depth. */
  ghost predicate Aims(target: Option<nat>, depth: nat, ceiling: nat) {
    target == if ceiling <= depth then None else Some(if depth + 500 < ceiling then depth + 500 else ceiling)
  }

  /**
   * Without two live samples beyond the window there is no target. With two, the target is one window beyond the
   * deepest of them, cut at the ceiling, and there is none if the ceiling does not exceed that depth.
   */
  lemma {:induction false} TargetMeans(samples: seq<Observation>, now: nat, ceiling: nat)
    requires ceiling <= USIZE_MAX
    ensures !TwoDeep(samples, now) ==> Target(samples, now, ceiling).None?
    ensures TwoDeep(samples, now) ==>
      exists depth :: IsDeepest(samples, now, depth) && Aims(Target(samples, now, ceiling), depth, ceiling)
  {
    hide DeepDepths, Deepest, TwoDeep;
    var depths := DeepDepths(samples, now);
    DeepDepthsMean(samples, now);
    if TwoDeep(samples, now) {
      var depth := SomeDeepest(samples, now);
      DeepestIs(samples, now, depth);
      assert Aims(Target(samples, now, ceiling), depth, ceiling);
    }
  }

  // ---------------------------------------------------------------- what one observation does to the target

  lemma {:induction false} DeepDepthsAdd(a: seq<Observation>, b: seq<Observation>, now: nat)
    ensures DeepDepths(a + b, now) == DeepDepths(a, now) + DeepDepths(b, now)
  {
    if b == [] {
      assert a + b == a;
    } else {
      assert (a + b)[..|a + b| - 1] == a + b[..|b| - 1];
      DeepDepthsAdd(a, b[..|b| - 1], now);
    }
  }

  lemma {:induction false} OnlyLiveCount(samples: seq<Observation>, now: nat)
    ensures DeepDepths(KeepLive(samples, now), now) == DeepDepths(samples, now)
  {
    if samples != [] {
      var rest, last := samples[..|samples| - 1], samples[|samples| - 1];
      OnlyLiveCount(rest, now);
      DeepDepthsAdd(KeepLive(rest, now), if Live(last, now) then [last] else [], now);
      assert [last][..0] == [];
    }
  }

  /** An accepted observation beyond the window adds its depth to those the target looks at; nothing else does. */
  lemma {:induction false} ObservationAddsOneDepth(samples: seq<Observation>, now: nat, depth: nat)
    requires Spaced(samples)
    ensures DeepDepths(Observed(samples, now, depth), now)
         == DeepDepths(samples, now) + if Accepts(samples, now) && depth > WINDOW then [depth] else []
  {
    hide KeepLive, Thinned, Accepts;
    ExpiryKeepsLive(samples, now);
    OnlyLiveCount(samples, now);
    var added := if Accepts(samples, now) then [Observation(now, depth)] else [];
    DeepDepthsAdd(Expired(samples, now), added, now);
    assert added != [] ==> added[..0] == [];
  }

  /**
   * Where two live samples already lie beyond the window, an observation moves the target only if it is accepted and
   * deeper than all of them; it is then the new depth that the target leads. Repeating a depth leaves it as it was.
   */
  lemma {:induction false} OnlyDeeperMovesTheTarget(samples: seq<Observation>, now: nat, depth: nat, deepest: nat,
      ceiling: nat)
    requires Spaced(samples) && TwoDeep(samples, now) && IsDeepest(samples, now, deepest) && ceiling <= USIZE_MAX
    ensures Accepts(samples, now) && depth > deepest ==>
      Aims(Target(Observed(samples, now, depth), now, ceiling), depth, ceiling)
    ensures !Accepts(samples, now) || depth <= deepest ==>
      Target(Observed(samples, now, depth), now, ceiling) == Target(samples, now, ceiling)
  {
    hide DeepDepths, Deepest, TwoDeep, Accepts, Observed;
    var depths := DeepDepths(samples, now);
    ObservationAddsOneDepth(samples, now, depth);
    DeepDepthsMean(samples, now);
    DeepestIs(samples, now, deepest);
    DeepestAppended(depths, depth);
    assert depths + [] == depths;
  }

  lemma {:induction false} DeepestIs(samples: seq<Observation>, now: nat, deepest: nat)
    requires IsDeepest(samples, now, deepest)
    ensures Deepest(DeepDepths(samples, now)) == deepest > WINDOW
  {
    hide DeepDepths, Deepest;
    var depths := DeepDepths(samples, now);
    DeepDepthsMean(samples, now);
    DeepestBounds(depths);
    assert deepest in depths && Deepest(depths) in depths;
    var s :| s in samples && Deep(s, now) && s.depth == Deepest(depths);
  }

  // ---------------------------------------------------------------- over any sequence of observations

  /** A call of `observe`. */
  datatype Call = Call(now: nat, depth: nat)

  function Run(samples: seq<Observation>, calls: seq<Call>): seq<Observation> {
    if calls == [] then samples
    else Observed(Run(samples, calls[..|calls| - 1]), calls[|calls| - 1].now, calls[|calls| - 1].depth)
  }

  ghost predicate AtMost(samples: seq<Observation>, depth: nat) {
    forall s :: s in samples ==> s.depth <= depth
  }

  lemma {:induction false} RunHolds(samples: seq<Observation>, calls: seq<Call>, depth: nat)
    requires calls != [] && AtMost(samples, depth) && forall i :: 0 <= i < |calls| ==> calls[i].depth <= depth
    ensures var after, last := Run(samples, calls), calls[|calls| - 1];
            Spaced(after) && Recent(after, last.now) && |after| <= MAX_SAMPLES && AtMost(after, depth)
  {
    hide Expired, Accepts;
    var before, last := calls[..|calls| - 1], calls[|calls| - 1];
    if before != [] {
      RunHolds(samples, before, depth);
    }
    ObservedHolds(Run(samples, before), last.now, last.depth);
    ExpiryHolds(Run(samples, before), last.now);
  }

  /**
   * However often and with whatever clock depths up to `depth` are observed, a target never leads them by more than one
   * window, nor passes the ceiling.
   */
  lemma {:induction false} RepeatingADepthNeverRaisesTheTarget(samples: seq<Observation>, calls: seq<Call>,
      depth: nat, now: nat, ceiling: nat)
    requires calls != [] && AtMost(samples, depth) && (forall i :: 0 <= i < |calls| ==> calls[i].depth <= depth)
    requires ceiling <= USIZE_MAX && Target(Run(samples, calls), now, ceiling).Some?
    ensures Target(Run(samples, calls), now, ceiling).value <= Min(depth + WINDOW, ceiling)
  {
    hide Run, DeepDepths, Deepest;
    RunHolds(samples, calls, depth);
    var after := Run(samples, calls);
    var depths := DeepDepths(after, now);
    DeepDepthsMean(after, now);
    DeepestBounds(depths);
    assert Deepest(depths) in depths;
    var s :| s in after && Deep(s, now) && s.depth == Deepest(depths);
    assert s.depth <= depth;
  }

  // ---------------------------------------------------------------- the route

  class RouteDemand {
    var observations: seq<Observation>

    constructor ()
      ensures observations == []
    {
      observations := [];
    }

    method Expire(now: nat)
      modifies this
      ensures observations == Expired(old(observations), now)
      ensures Spaced(observations) && Recent(observations, now) && |observations| <= MAX_SAMPLES
    {
      hide KeepLive, InsertByTime, SortByTime, Thin;
      ghost var before := observations;
      SortSorts(KeepLive(observations, now));
      RetainLive(now);
      observations := SortByTime(observations);
      RetainSpaced();
      if |observations| > 60 {
        observations := observations[|observations| - 60..];
      }
      ExpiryHolds(before, now);
    }

    method RetainLive(now: nat)
      modifies this
      ensures observations == KeepLive(old(observations), now)
    {
      var kept: seq<Observation> := [];
      for i := 0 to |observations|
        invariant observations == old(observations)
        invariant kept == KeepLive(observations[..i], now)
      {
        assert observations[..i + 1][..i] == observations[..i];
        if observations[i].at <= now && now - observations[i].at < EXPIRY_SECONDS {
          kept := kept + [observations[i]];
        }
      }
      assert observations[..|observations|] == observations;
      observations := kept;
    }

    method RetainSpaced()
      requires Sorted(observations)
      modifies this
      ensures observations == Thin(old(observations))
    {
      var kept: seq<Observation>, last: Option<nat> := [], None;
      for i := 0 to |observations|
        invariant observations == old(observations)
        invariant kept == Thin(observations[..i])
        invariant last == if kept == [] then None else Some(kept[|kept| - 1].at)
        invariant last.Some? ==> i > 0 && last.value <= observations[i - 1].at
      {
        assert observations[..i + 1][..i] == observations[..i];
        if last.None? || observations[i].at - last.value >= SAMPLE_SECONDS {
          kept := kept + [observations[i]];
          last := Some(observations[i].at);
        }
      }
      assert observations[..|observations|] == observations;
      observations := kept;
    }

    method Observe(now: nat, depth: nat) returns (accepted: bool)
      modifies this
      ensures observations == Observed(old(observations), now, depth)
      ensures accepted == Accepts(old(observations), now)
      ensures Spaced(observations) && Recent(observations, now) && |observations| <= MAX_SAMPLES
    {
      hide Expired;
      ObservedHolds(observations, now, depth);
      Expire(now);
      if observations != [] && now - observations[|observations| - 1].at < SAMPLE_SECONDS {
        return false;
      }
      observations := observations + [Observation(now, depth)];
      return true;
    }

    /** `target`: the first two deep samples, then the deepest of the rest. */
    method TargetDepth(now: nat, ceiling: nat) returns (target: Option<nat>)
      ensures target == Target(observations, now, ceiling)
    {
      hide Deep;
      var count: nat, depth: nat := 0, 0;
      for i := 0 to |observations|
        invariant count == |DeepDepths(observations[..i], now)|
        invariant depth == Deepest(DeepDepths(observations[..i], now))
      {
        assert observations[..i + 1][..i] == observations[..i];
        ghost var before := DeepDepths(observations[..i], now);
        assert before + [] == before;
        if Deep(observations[i], now) {
          DeepestAppended(DeepDepths(observations[..i], now), observations[i].depth);
          count := count + 1;
          if observations[i].depth > depth {
            depth := observations[i].depth;
          }
        }
      }
      assert observations[..|observations|] == observations;
      if count < 2 {
        return None;
      }
      var lead := Min(Saturated(depth), ceiling);
      return if lead > depth then Some(lead) else None;
    }
  }
}
