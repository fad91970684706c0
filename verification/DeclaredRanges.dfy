/** What the declarative range of a META commit lists, and when it fails. */
module DeclaredRanges {
  import opened MetaRange
  import opened Results

  ghost predicate DistinctMembers(membership: seq<TrailCommit>) {
    forall i, j :: 0 <= i < j < |membership| ==> membership[i].oid != membership[j].oid
  }

  ghost predicate IsMember(membership: seq<TrailCommit>, oid: Oid) {
    exists c :: c in membership && c.oid == oid
  }

  /** Position `k` holds a commit at or after `from` and at or before `to`. */
  ghost predicate Between(membership: seq<TrailCommit>, from: Oid, to: TrailCommit, k: nat) {
    && k < |membership|
    && (membership[k].oid == from || from in membership[k].ancestors)
    && (membership[k].oid == to.oid || membership[k].oid in to.ancestors)
  }

  /** The list names the commits at these places, which are all the places in the range, in ascending order. */
  ghost predicate ListsPlaces(membership: seq<TrailCommit>, from: Oid, to: TrailCommit, list: seq<Oid>,
      places: seq<nat>)
  {
    && |places| == |list|
    && (forall k :: k in places <==> Between(membership, from, to, k))
    && (forall i, j :: 0 <= i < j < |places| ==> places[i] < places[j])
    && (forall i :: 0 <= i < |places| ==> places[i] < |membership| && list[i] == membership[places[i]].oid)
  }

  function Shifted(places: seq<nat>): seq<nat> {
    seq(|places|, i requires 0 <= i < |places| => places[i] + 1)
  }

  lemma ShiftedMembers(places: seq<nat>)
    ensures forall k :: k in Shifted(places) <==> k > 0 && k - 1 in places
  {
    forall k: nat ensures k in Shifted(places) <==> k > 0 && k - 1 in places {
      if k in Shifted(places) {
        var i :| 0 <= i < |places| && Shifted(places)[i] == k;
      }
      if k > 0 && k - 1 in places {
        var i :| 0 <= i < |places| && places[i] == k - 1;
        assert Shifted(places)[i] == k;
      }
    }
  }

  lemma {:induction false} PrependPlace(membership: seq<TrailCommit>, from: Oid, to: TrailCommit, list: seq<Oid>,
      places: seq<nat>)
    requires membership != [] && ListsPlaces(membership[1..], from, to, list, places)
    ensures Between(membership, from, to, 0) ==>
      ListsPlaces(membership, from, to, [membership[0].oid] + list, [0] + Shifted(places))
    ensures !Between(membership, from, to, 0) ==> ListsPlaces(membership, from, to, list, Shifted(places))
  {
    ShiftedMembers(places);
    forall k: nat
      ensures Between(membership, from, to, k) <==>
        if k == 0 then Between(membership, from, to, 0) else Between(membership[1..], from, to, k - 1)
    {
    }
    hide Between;
  }

  lemma {:induction false} RangePlaces(membership: seq<TrailCommit>, from: TrailCommit, to: TrailCommit)
    returns (places: seq<nat>)
    ensures ListsPlaces(membership, from.oid, to, InRange(membership, from, to), places)
  {
    hide ListsPlaces;
    if membership == [] {
      places := [];
      NoPlaces(membership, from.oid, to);
    } else {
      var rest := RangePlaces(membership[1..], from, to);
      PrependPlace(membership, from.oid, to, InRange(membership[1..], from, to), rest);
      places := if Between(membership, from.oid, to, 0) then [0] + Shifted(rest) else Shifted(rest);
    }
  }

  lemma NoPlaces(membership: seq<TrailCommit>, from: Oid, to: TrailCommit)
    requires membership == []
    ensures ListsPlaces(membership, from, to, [], [])
  {
  }

  lemma {:induction false} FindMeans(membership: seq<TrailCommit>, oid: Oid)
    requires DistinctMembers(membership)
    ensures Find(membership, oid).Some? <==> IsMember(membership, oid)
    ensures forall c :: c in membership && c.oid == oid ==> Find(membership, oid) == Some(c)
  {
    forall c | c in membership && c.oid == oid ensures Find(membership, oid) == Some(c) {
      var found := Find(membership, c.oid).value;
      var i :| 0 <= i < |membership| && membership[i] == c;
      var j :| 0 <= j < |membership| && membership[j] == found;
      assert i == j;
    }
  }

  /**
   * The declared range, for a membership of distinct commits. It fails for an incomplete membership; else when an
   * endpoint or the META commit is not a member; else when the first endpoint is neither the second nor one of its
   * ancestors; else when one of them is not an ancestor of the META commit. Otherwise it lists, in membership order,
   * exactly the members at or after the first endpoint and at or before the second.
   */
  lemma {:induction false} DeclaredRangeMeans(membership: seq<TrailCommit>, meta: Oid, from: Oid, to: Oid,
      complete: bool)
    requires DistinctMembers(membership)
    ensures var declared := ResolveMetaRange(membership, meta, from, to, complete);
            var named := IsMember(membership, from) && IsMember(membership, to);
            && (!complete ==> declared == Failure(IncompleteRange))
            && (complete && !named ==> declared == Failure(MissingEndpoint))
            && (complete && named && !IsMember(membership, meta) ==> declared == Failure(MissingMeta))
            && forall f, t, m ::
                 complete && f in membership && t in membership && m in membership
                   && f.oid == from && t.oid == to && m.oid == meta ==>
                   Outcome(membership, declared, f, t, m)
  {
    hide InRange, ListsPlaces, IsMember, DistinctMembers, Find;
    FindMeans(membership, from);
    FindMeans(membership, to);
    FindMeans(membership, meta);
    if Find(membership, from).Some? && Find(membership, to).Some? {
      var places := RangePlaces(membership, Find(membership, from).value, Find(membership, to).value);
    }
  }

  ghost predicate Outcome(membership: seq<TrailCommit>, declared: Result<seq<Oid>, MetaError>, f: TrailCommit,
      t: TrailCommit, m: TrailCommit)
  {
    var below, before := f.oid == t.oid || f.oid in t.ancestors, f.oid in m.ancestors && t.oid in m.ancestors;
    && (!below ==> declared == Failure(NotAnAncestor))
    && (below && !before ==> declared == Failure(NotBeforeMeta))
    && (below && before ==>
          declared.Success? && exists places :: ListsPlaces(membership, f.oid, t, declared.value, places))
  }
}
