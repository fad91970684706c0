/** The selection of commits under an attention policy: the longest newest-first prefix that fits the node limit. */
module Attention {
  import opened Identity
  import opened Results

  datatype Candidate = Candidate(oid: string, annotations: nat)

  datatype Selection = Selection(selected: seq<string>, usage: Usage)

  datatype AttentionError = ProposalTooLarge

  function Maximum(limit: Limit): Option<nat> {
    match limit
    case Zero => Some(0)
    case Limited(n) => Some(n)
    case Unlimited => None
  }

  function Nodes(candidates: seq<Candidate>): nat {
    if candidates == [] then 0 else Nodes(candidates[..|candidates| - 1]) + candidates[|candidates| - 1].annotations
  }

  function Reversed(candidates: seq<Candidate>): seq<string> {
    seq(|candidates|, i requires 0 <= i < |candidates| => candidates[|candidates| - 1 - i].oid)
  }

  /** No limit bounds nothing, a zero limit allows no node, and any other limit allows that many. */
  predicate WithinLimit(nodes: nat, limit: Limit) {
    limit.Unlimited? || nodes <= if limit.Limited? then limit.n else 0
  }

  lemma {:induction false} NodesGrow(candidates: seq<Candidate>, i: nat, j: nat)
    requires i <= j <= |candidates|
    ensures Nodes(candidates[..i]) <= Nodes(candidates[..j])
    decreases j
  {
    if i < j {
      NodesGrow(candidates, i, j - 1);
      assert candidates[..j][..j - 1] == candidates[..j - 1];
    }
  }

  /** The commits a selection takes are the first `k`, and no longer prefix fits. */
  ghost predicate IsLongest(candidates: seq<Candidate>, reserved: nat, limit: Limit, k: nat) {
    && k <= |candidates|
    && forall j :: 0 <= j <= |candidates| ==> (WithinLimit(reserved + Nodes(candidates[..j]), limit) <==> j <= k)
  }

  lemma {:induction false} LongestIsUnique(candidates: seq<Candidate>, reserved: nat, limit: Limit, a: nat, b: nat)
    requires IsLongest(candidates, reserved, limit, a) && IsLongest(candidates, reserved, limit, b)
    ensures a == b
  {
    assert a <= b <==> WithinLimit(reserved + Nodes(candidates[..a]), limit);
    assert b <= a <==> WithinLimit(reserved + Nodes(candidates[..b]), limit);
  }

  /** A prefix that fits is the longest if it is all, or if one commit more no longer fits. */
  lemma StopsAtLongest(candidates: seq<Candidate>, reserved: nat, limit: Limit, k: nat)
    requires k <= |candidates| && WithinLimit(reserved + Nodes(candidates[..k]), limit)
    requires k < |candidates| ==> !WithinLimit(reserved + Nodes(candidates[..k + 1]), limit)
    ensures IsLongest(candidates, reserved, limit, k)
  {
    forall j | 0 <= j <= |candidates|
      ensures WithinLimit(reserved + Nodes(candidates[..j]), limit) <==> j <= k
    {
      if j <= k {
        NodesGrow(candidates, j, k);
      } else {
        NodesGrow(candidates, k + 1, j);
      }
    }
  }

  /**
   * `select_attention`: it fails exactly when the reserved nodes alone exceed the limit; otherwise it takes the longest
   * prefix that fits, oldest first, and reports which bounds cut the selection.
   */
  method SelectAttention(candidates: seq<Candidate>, commitLimit: Limit, nodeLimit: Limit, reserved: nat,
      commitTruncated: bool)
    returns (r: Result<Selection, AttentionError>, ghost k: nat)
    ensures r.Failure? <==> !WithinLimit(reserved, nodeLimit)
    ensures r.Success? ==>
      var s := r.value;
      && IsLongest(candidates, reserved, nodeLimit, k)
      && s.selected == Reversed(candidates[..k])
      && s.usage.commitLimit == AsI64(commitLimit) && s.usage.nodeLimit == AsI64(nodeLimit)
      && s.usage.commits == k && s.usage.nodes == reserved + Nodes(candidates[..k])
      && (s.usage.truncated <==> commitTruncated || k < |candidates|)
      && s.usage.reached == (if commitTruncated then [CommitBound] else [])
           + (if k < |candidates| then [NodeBound] else [])
  {
    hide IsLongest;
    var maximum := Maximum(nodeLimit);
    k := 0;
    if maximum.Some? && reserved > maximum.value {
      return Failure(ProposalTooLarge), 0;
    }
    var nodes: nat, taken: nat, reached := reserved, 0, [];
    while taken < |candidates|
      invariant taken <= |candidates|
      invariant nodes == reserved + Nodes(candidates[..taken])
      invariant WithinLimit(nodes, nodeLimit) && reached == []
    {
      var candidate := candidates[taken];
      assert candidates[..taken + 1][..taken] == candidates[..taken];
      if maximum.Some? && nodes + candidate.annotations > maximum.value {
        reached := [NodeBound];
        break;
      }
      nodes := nodes + candidate.annotations;
      taken := taken + 1;
    }
    k := taken;
    StopsAtLongest(candidates, reserved, nodeLimit, taken);
    if commitTruncated {
      reached := [CommitBound] + reached;
    }
    r := Success(Selection(
      Reversed(candidates[..taken]),
      Usage(AsI64(commitLimit), AsI64(nodeLimit), taken, nodes, reached != [], reached)));
  }
}
