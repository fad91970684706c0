/** The usage ledger over every run: produced bytes are reused, evicted unused, or still unused. */
module Conservation {
  import opened Batches
  import opened Quota
  import opened Results
  import opened Staging
  import opened Totals

  datatype Op =
    | StageOp(request: Request)
    | StateOp(head: Key, state: JobState)
    | ReconcileOp
    | PublishOp(trail: string, batch: Batch, when: nat, undone: bool)
    | UseOp(used: string, at: nat)
    | EvictOp(trails: set<string>)

  datatype Move = Move(op: Op, at: Setting)

  ghost function Apply(s: State, move: Move): State {
    match move.op
    case StageOp(r) => Stage(s, r, move.at).state
    case StateOp(head, state) => ChangeState(s, head, state, move.at)
    case ReconcileOp => Reconcile(s, move.at)
    case PublishOp(trail, batch, when, undone) => Publish(s, trail, batch, when, undone)
    case UseOp(trail, when) => RecordUse(s, trail, when)
    case EvictOp(trails) => EvictTrails(s, trails)
  }

  ghost function Run(s: State, moves: seq<Move>): State {
    if moves == [] then s else Apply(Run(s, moves[..|moves| - 1]), moves[|moves| - 1])
  }

  predicate DistinctBatches(move: Move) {
    move.op.StageOp? ==> DistinctOids(move.op.request.batch.facts)
  }

  ghost predicate Balanced(ledger: Ledger) {
    var m := ledger.metrics;
    m.producedBytes == m.reusedBytes + m.unusedEvictedBytes + Total(Unused(ledger.usage))
  }

  /** How far the ledger is from its balance. */
  ghost function Gap(ledger: Ledger): int {
    var m := ledger.metrics;
    m.producedBytes - m.reusedBytes - m.unusedEvictedBytes - Total(Unused(ledger.usage))
  }

  lemma BalancedIsNoGap(ledger: Ledger)
    ensures Balanced(ledger) <==> Gap(ledger) == 0
  {
  }

  /** Usage rows exist only for stored facts. */
  ghost predicate Tracked(s: State) {
    s.ledger.usage.Keys <= s.raw.facts.Keys
  }

  ghost predicate Accounted(s: State) {
    Balanced(s.ledger) && Tracked(s)
  }

  /** A change that leaves the gap as it is. */
  ghost predicate KeepsGap(s: State, t: State) {
    Gap(t.ledger) == Gap(s.ledger) && (Tracked(s) ==> Tracked(t))
  }

  // ---------------------------------------------------------------- each kind of change

  lemma UnusedSplit(usage: map<Key, Usage>, keys: set<Key>)
    ensures Total(Unused(usage)) == Total(Unused(usage - keys)) + Total(Unused(Within(usage, keys)))
  {
    TotalSplit(Unused(usage), keys);
    assert Unused(usage) - keys == Unused(usage - keys);
    assert (map k | k in Unused(usage) && k in keys :: Unused(usage)[k]) == Unused(Within(usage, keys));
  }

  lemma ReclaimKeepsGap(s: State, at: Setting)
    ensures KeepsGap(s, Reclaim(s, at))
  {
    hide Victims, Unused, Within;
    UnusedSplit(s.ledger.usage, Victims(s, at));
  }

  lemma MarkedIsUsed(usage: map<Key, Usage>, trail: set<Key>, when: nat)
    ensures Unused(MarkUsed(usage, trail, when)) == Unused(usage - trail)
  {
  }

  lemma ReuseKeepsGap(ledger: Ledger, trail: set<Key>, when: nat)
    ensures Gap(Reuse(ledger, trail, when)) == Gap(ledger)
    ensures Reuse(ledger, trail, when).usage.Keys == ledger.usage.Keys
  {
    hide Unused, Within;
    UnusedSplit(ledger.usage, trail);
    MarkedIsUsed(ledger.usage, trail, when);
  }

  lemma RecordUseKeepsGap(s: State, trail: string, when: nat)
    ensures KeepsGap(s, RecordUse(s, trail, when))
  {
    hide Reuse, Gap, Demand;
    ReuseKeepsGap(s.ledger, MembersOf(s.members, trail), when);
  }

  lemma ProduceGap(ledger: Ledger, key: Key, bytes: nat)
    ensures Gap(Produce(ledger, key, bytes)) == Gap(ledger) + if key in ledger.usage then bytes else 0
  {
    if key !in ledger.usage {
      assert Unused(Produce(ledger, key, bytes).usage) == Unused(ledger.usage)[key := bytes];
      TotalInsert(Unused(ledger.usage), key, bytes);
    }
  }

  function KeysOf(facts: seq<NewFact>): set<Key> {
    set f | f in facts :: f.key
  }

  predicate DistinctKeys(facts: seq<NewFact>) {
    forall i, j :: 0 <= i < j < |facts| ==> facts[i].key != facts[j].key
  }

  lemma {:induction false} KeysOfSum(a: seq<NewFact>, b: seq<NewFact>)
    ensures KeysOf(a + b) == KeysOf(a) + KeysOf(b)
  {
  }

  predicate BatchHas(batch: Batch, n: nat, key: Key)
    requires n <= |batch.facts|
  {
    exists i :: 0 <= i < n && key == Key(batch.repo, batch.facts[i].oid)
  }

  function KeyAt(batch: Batch, i: nat): Key
    requires i < |batch.facts|
  {
    Key(batch.repo, batch.facts[i].oid)
  }

  lemma NotNamedBefore(batch: Batch, n: nat)
    requires 0 < n <= |batch.facts| && DistinctOids(batch.facts)
    ensures !BatchHas(batch, n - 1, KeyAt(batch, n - 1))
  {
  }

  /** The planned facts are the missing ones of the batch, each once. */
  lemma {:induction false} PlanKeys(raw: Raw, held: set<Key>, batch: Batch, n: nat)
    requires n <= |batch.facts| && DistinctOids(batch.facts)
    ensures var plan := PlanOf(raw, held, batch, n);
            && DistinctKeys(plan.facts)
            && (forall key :: key in KeysOf(plan.facts) <==> key !in raw.facts && BatchHas(batch, n, key))
            && (forall i :: 0 <= i < |plan.facts| ==> plan.facts[i].retained == (plan.facts[i].key in held))
  {
    hide MissingEdges, EdgeTotal, KeysOf, BatchHas;
    if n == 0 {
      assert KeysOf([]) == {} by { KeysOfNone(); }
      forall key ensures !BatchHas(batch, 0, key) {
        NoneNamed(batch, key);
      }
    } else {
      forall key ensures BatchHas(batch, n, key) <==> BatchHas(batch, n - 1, key) || key == KeyAt(batch, n - 1) {
        OneMoreNamed(batch, n, key);
      }
      NotNamedBefore(batch, n);
      PlanKeys(raw, held, batch, n - 1);
      var before, plan := PlanOf(raw, held, batch, n - 1), PlanOf(raw, held, batch, n);
      var key := Key(batch.repo, batch.facts[n - 1].oid);
      var mine := PlanFact(raw, held, batch, batch.facts[n - 1]);
      KeysOfSum(before.facts, mine.facts);
      KeysOfNone();
      if key in raw.facts {
        assert plan.facts == before.facts;
      } else {
        KeysOfOne(mine.facts[0]);
        forall i | 0 <= i < |before.facts| ensures before.facts[i].key != key {
          KeysOfMember(before.facts, i);
        }
      }
    }
  }

  lemma KeysOfNone()
    ensures KeysOf([]) == {}
  {
  }

  lemma KeysOfOne(f: NewFact)
    ensures KeysOf([f]) == {f.key}
  {
  }

  lemma {:induction false} KeysOfMember(facts: seq<NewFact>, i: nat)
    requires i < |facts|
    ensures facts[i].key in KeysOf(facts)
  {
  }

  lemma {:induction false} AddFactsKeys(raw: Raw, facts: seq<NewFact>)
    ensures AddFacts(raw, facts).facts.Keys == raw.facts.Keys + KeysOf(facts)
  {
    if facts != [] {
      AddFactsKeys(raw, facts[..|facts| - 1]);
      assert KeysOf(facts) == KeysOf(facts[..|facts| - 1]) + {facts[|facts| - 1].key};
    }
  }

  lemma {:induction false} AddEdgesFacts(raw: Raw, edges: seq<NewEdge>)
    ensures AddEdges(raw, edges).facts == raw.facts
  {
    if edges != [] {
      AddEdgesFacts(raw, edges[..|edges| - 1]);
    }
  }

  // ---------------------------------------------------------------- what repeated commits add

  /** A commit that is new, outside trails, and named earlier in the batch. */
  predicate Repeats(raw: Raw, held: set<Key>, batch: Batch, i: nat)
    requires i < |batch.facts|
  {
    var key := Key(batch.repo, batch.facts[i].oid);
    key !in raw.facts && key !in held && BatchHas(batch, i, key)
  }

  function ChargeAt(batch: Batch, edges: seq<NewEdge>, i: nat): nat
    requires i < |batch.facts|
  {
    batch.facts[i].bytes + EdgesFrom(edges, Key(batch.repo, batch.facts[i].oid))
  }

  /** What the repeated commits of a batch are charged on top of their first naming. */
  function RepeatCharge(raw: Raw, held: set<Key>, batch: Batch, edges: seq<NewEdge>, n: nat): nat
    requires n <= |batch.facts|
  {
    if n == 0 then 0
    else
      RepeatCharge(raw, held, batch, edges, n - 1)
      + if Repeats(raw, held, batch, n - 1) then ChargeAt(batch, edges, n - 1) else 0
  }

  /** The keys of the first `n` commits that get a usage row. */
  predicate Charged(raw: Raw, held: set<Key>, batch: Batch, n: nat, key: Key)
    requires n <= |batch.facts|
  {
    key !in raw.facts && key !in held && BatchHas(batch, n, key)
  }

  lemma OneMoreNamed(batch: Batch, n: nat, key: Key)
    requires 0 < n <= |batch.facts|
    ensures BatchHas(batch, n, key) <==> BatchHas(batch, n - 1, key) || key == Key(batch.repo, batch.facts[n - 1].oid)
  {
  }

  lemma {:induction false} ProducePlanGap(ledger: Ledger, raw: Raw, held: set<Key>, batch: Batch, edges: seq<NewEdge>,
      n: nat)
    requires n <= |batch.facts| && ledger.usage.Keys <= raw.facts.Keys
    ensures var after := ProduceFacts(ledger, PlanOf(raw, held, batch, n).facts, edges);
            && Gap(after) == Gap(ledger) + RepeatCharge(raw, held, batch, edges, n)
            && forall key :: key in after.usage <==> key in ledger.usage || Charged(raw, held, batch, n, key)
  {
    hide Gap, ChargeAt, Produce, ProduceFacts, PlanOf, BatchHas;
    if n == 0 {
      assert ProduceFacts(ledger, PlanOf(raw, held, batch, 0).facts, edges) == ledger by {
        NothingProduced(ledger, raw, held, batch, edges);
      }
      forall key ensures !BatchHas(batch, 0, key) {
        NoneNamed(batch, key);
      }
    } else {
      ProducePlanGap(ledger, raw, held, batch, edges, n - 1);
      var before := ProduceFacts(ledger, PlanOf(raw, held, batch, n - 1).facts, edges);
      ProduceOneMore(ledger, raw, held, batch, edges, n);
      ProduceGap(before, Key(batch.repo, batch.facts[n - 1].oid), ChargeAt(batch, edges, n - 1));
      ProduceKeys(before, Key(batch.repo, batch.facts[n - 1].oid), ChargeAt(batch, edges, n - 1));
      forall k
        ensures BatchHas(batch, n, k) <==> BatchHas(batch, n - 1, k) || k == Key(batch.repo, batch.facts[n - 1].oid)
      {
        OneMoreNamed(batch, n, k);
      }
    }
  }

  /** The last commit is charged when it is missing and outside trails. */
  lemma {:induction false} ProduceOneMore(ledger: Ledger, raw: Raw, held: set<Key>, batch: Batch, edges: seq<NewEdge>,
      n: nat)
    requires 0 < n <= |batch.facts|
    ensures var key := Key(batch.repo, batch.facts[n - 1].oid);
            var before := ProduceFacts(ledger, PlanOf(raw, held, batch, n - 1).facts, edges);
            ProduceFacts(ledger, PlanOf(raw, held, batch, n).facts, edges)
            == if key in raw.facts || key in held then before else Produce(before, key, ChargeAt(batch, edges, n - 1))
  {
    hide EdgesFrom, MissingEdges, EdgeTotal, Produce;
    var f := batch.facts[n - 1];
    var key := Key(batch.repo, f.oid);
    var before, facts := PlanOf(raw, held, batch, n - 1).facts, PlanOf(raw, held, batch, n).facts;
    if key in raw.facts {
      assert facts == before;
    } else {
      assert facts == before + [NewFact(key, Fact(f.bytes, f.time), key in held)] && facts[..|before|] == before;
    }
  }

  lemma NothingProduced(ledger: Ledger, raw: Raw, held: set<Key>, batch: Batch, edges: seq<NewEdge>)
    ensures ProduceFacts(ledger, PlanOf(raw, held, batch, 0).facts, edges) == ledger
  {
  }

  lemma NoneNamed(batch: Batch, key: Key)
    ensures !BatchHas(batch, 0, key)
  {
  }

  lemma ProduceKeys(ledger: Ledger, key: Key, bytes: nat)
    ensures Produce(ledger, key, bytes).usage.Keys == ledger.usage.Keys + {key}
  {
  }

  /** The planned facts are the missing ones that the batch names. */
  lemma {:induction false} PlanCoversNamed(raw: Raw, held: set<Key>, batch: Batch, n: nat, key: Key)
    requires n <= |batch.facts| && Charged(raw, held, batch, n, key)
    ensures key in KeysOf(PlanOf(raw, held, batch, n).facts)
  {
    hide KeysOf, MissingEdges, EdgeTotal;
    var f := batch.facts[n - 1];
    KeysOfSum(PlanOf(raw, held, batch, n - 1).facts, PlanFact(raw, held, batch, f).facts);
    if key == Key(batch.repo, f.oid) {
      KeysOfOne(PlanFact(raw, held, batch, f).facts[0]);
    } else {
      PlanCoversNamed(raw, held, batch, n - 1, key);
    }
  }

  lemma InsertGap(s: State, r: Request, now: int)
    requires Tracked(s)
    ensures var t := Insert(s, r, PlanFor(s, r), now);
            && Tracked(t)
            && Gap(t.ledger) == Gap(s.ledger)
                 + RepeatCharge(s.raw, Held(s.members), r.batch, PlanFor(s, r).edges, |r.batch.facts|)
  {
    hide Gap, PlanOf, ProduceFacts, AddFacts, AddEdges, Held, UpsertRow, RepeatCharge, Charged, KeysOf;
    var held, plan := Held(s.members), PlanFor(s, r);
    var t := Insert(s, r, plan, now);
    ProducePlanGap(s.ledger, s.raw, held, r.batch, plan.edges, |r.batch.facts|);
    AddFactsKeys(s.raw, plan.facts);
    AddEdgesFacts(AddFacts(s.raw, plan.facts), plan.edges);
    forall key | key in t.ledger.usage ensures key in t.raw.facts {
      if key !in s.ledger.usage {
        PlanCoversNamed(s.raw, held, r.batch, |r.batch.facts|, key);
      }
    }
  }

  lemma {:induction false} DistinctNeverRepeat(raw: Raw, held: set<Key>, batch: Batch, edges: seq<NewEdge>, n: nat)
    requires n <= |batch.facts| && DistinctOids(batch.facts)
    ensures RepeatCharge(raw, held, batch, edges, n) == 0
  {
    if n > 0 {
      DistinctNeverRepeat(raw, held, batch, edges, n - 1);
    }
  }

  ghost predicate RepeatsAreFree(raw: Raw, held: set<Key>, batch: Batch, edges: seq<NewEdge>, n: nat)
    requires n <= |batch.facts|
  {
    forall i :: 0 <= i < n && Repeats(raw, held, batch, i) ==> ChargeAt(batch, edges, i) == 0
  }

  lemma {:induction false} NoChargeExactly(raw: Raw, held: set<Key>, batch: Batch, edges: seq<NewEdge>, n: nat)
    requires n <= |batch.facts|
    ensures RepeatCharge(raw, held, batch, edges, n) == 0 <==> RepeatsAreFree(raw, held, batch, edges, n)
  {
    hide Repeats, ChargeAt;
    if n > 0 {
      NoChargeExactly(raw, held, batch, edges, n - 1);
    }
  }

  lemma BoundKeepsGap(s: State, caller: Option<Key>, at: Setting)
    ensures KeepsGap(s, Bound(s, caller, at))
  {
    hide Gap, Reclaim, DropOldest, ActiveCount;
    if Bound(s, caller, at) != s {
      var jobs := DropOldest(s.queue.jobs, caller, ActiveCount(s.queue.jobs) - MAX_ACTIVE);
      ReclaimKeepsGap(s.(queue := s.queue.(jobs := jobs)), at);
    }
  }

  lemma {:induction false} SettleKeepsGap(s: State, r: Request, at: Setting, attempts: nat)
    requires attempts <= MAX_ATTEMPTS
    ensures KeepsGap(s, Settle(s, r, at, attempts))
    decreases MAX_ATTEMPTS - attempts
  {
    hide Gap, Reclaim, Fits, First, Retire;
    if Fits(s, r) {
    } else if attempts == 0 {
      ReclaimKeepsGap(s, at);
      SettleKeepsGap(Reclaim(s, at), r, at, 1);
    } else if attempts < MAX_ATTEMPTS && EvictLru(s, r.Caller(), at).Some? {
      var head := LruVictim(s.queue, r.Caller(), at).value;
      ReclaimKeepsGap(s.(queue := s.queue.(jobs := Retire(s.queue.jobs, head))), at);
      SettleKeepsGap(EvictLru(s, r.Caller(), at).value, r, at, attempts + 1);
    }
  }

  /** What a step adds to the gap: the charges of repeated commits of a stored batch. */
  ghost function Extra(s: State, move: Move): nat {
    match move.op
    case StageOp(r) =>
      var t := Settle(s, r, move.at, 0);
      if Fits(t, r) then RepeatCharge(t.raw, Held(t.members), r.batch, PlanFor(t, r).edges, |r.batch.facts|) else 0
    case _ => 0
  }

  lemma StageGap(s: State, r: Request, at: Setting)
    requires Tracked(s)
    ensures var t := Stage(s, r, at).state;
            Tracked(t) && Gap(t.ledger) == Gap(s.ledger) + Extra(s, Move(StageOp(r), at))
  {
    hide Gap, Settle, Fits, Insert, Bound, PauseRow, PlanFor, RepeatCharge, Held;
    SettleKeepsGap(s, r, at, 0);
    var t := Settle(s, r, at, 0);
    if Fits(t, r) {
      InsertGap(t, r, at.now);
      BoundKeepsGap(Insert(t, r, PlanFor(t, r), at.now), Some(r.Caller()), at);
    } else {
      BoundKeepsGap(t.(queue := t.queue.(jobs := PauseRow(t.queue.jobs, PausedRow(r)))), Some(r.Caller()), at);
    }
  }

  /**
   * Staging keeps a balanced ledger balanced if and only if each new commit that the stored batch names again, outside
   * trails, costs nothing: no bytes of its own and no new edge.
   */
  lemma StageBalancesExactly(s: State, r: Request, at: Setting)
    requires Accounted(s) && Stage(s, r, at).stored
    ensures var t := Settle(s, r, at, 0);
            Balanced(Stage(s, r, at).state.ledger)
            <==> RepeatsAreFree(t.raw, Held(t.members), r.batch, PlanFor(t, r).edges, |r.batch.facts|)
  {
    hide Gap, Balanced, Settle, Fits, Insert, Bound, PauseRow, PlanFor, RepeatCharge, Held, RepeatsAreFree;
    var t := Settle(s, r, at, 0);
    BalancedIsNoGap(s.ledger);
    BalancedIsNoGap(Stage(s, r, at).state.ledger);
    StageGap(s, r, at);
    NoChargeExactly(t.raw, Held(t.members), r.batch, PlanFor(t, r).edges, |r.batch.facts|);
  }

  /** On empty tables a batch that names one commit of some bytes twice, under a quota that holds both, unbalances. */
  lemma RepeatedCommitUnbalances(f: BatchFact, at: Setting)
    requires f.bytes > 0
    ensures var r := Request("h", 2, 2, Batch(1, [f, f], map[]), 2 * f.bytes); var done := Stage(EMPTY, r, at);
            done.stored && !Balanced(done.state.ledger)
  {
    hide Stage, Balanced, Used, PlanOf, ChargeAt;
    var r := Request("h", 2, 2, Batch(1, [f, f], map[]), 2 * f.bytes);
    TwiceFits(f, r);
    FitsAtOnce(EMPTY, r, at, 0);
    assert Stage(EMPTY, r, at).stored by { FitsStored(EMPTY, r, at); }
    EmptyIsAccounted();
    StageBalancesExactly(EMPTY, r, at);
    assert r.batch.facts[0] == f;
    assert BatchHas(r.batch, 1, Key(1, f.oid));
    assert Held(EMPTY.members) == {};
    assert Repeats(EMPTY.raw, Held(EMPTY.members), r.batch, 1);
    ChargedBytes(r.batch, PlanFor(EMPTY, r).edges, 1);
  }

  lemma ChargedBytes(batch: Batch, edges: seq<NewEdge>, i: nat)
    requires i < |batch.facts|
    ensures ChargeAt(batch, edges, i) >= batch.facts[i].bytes
  {
  }

  lemma FitsAtOnce(s: State, r: Request, at: Setting, attempts: nat)
    requires Fits(s, r) && attempts <= MAX_ATTEMPTS
    ensures Settle(s, r, at, attempts) == s
  {
  }

  lemma FitsStored(s: State, r: Request, at: Setting)
    requires Fits(s, r)
    ensures Stage(s, r, at).stored
  {
    hide Fits, Settle;
    FitsAtOnce(s, r, at, 0);
  }

  lemma NothingUsed()
    ensures Used(EMPTY.raw, Held(EMPTY.members)) == 0
  {
    assert Held(EMPTY.members) == {};
    assert OutsideFacts(EMPTY.raw, {}) == map[] && OutsideEdges(EMPTY.raw, {}) == map[];
  }

  lemma TwiceFits(f: BatchFact, r: Request)
    requires r.batch == Batch(1, [f, f], map[]) && r.quota == 2 * f.bytes
    ensures Fits(EMPTY, r)
  {
    hide Used;
    NothingUsed();
    var held := Held(EMPTY.members);
    assert held == {};
    assert PlanFact(EMPTY.raw, held, r.batch, f).additional == f.bytes;
    assert PlanOf(EMPTY.raw, held, r.batch, 0).additional == 0;
    assert PlanOf(EMPTY.raw, held, r.batch, 1).additional == f.bytes;
    assert PlanOf(EMPTY.raw, held, r.batch, 2).additional == 2 * f.bytes;
  }

  lemma {:induction false} AddParentsFacts(raw: Raw, repo: int, child: string, parents: seq<string>)
    ensures AddParents(raw, repo, child, parents).facts == raw.facts
  {
    if parents != [] {
      AddParentsFacts(raw, repo, child, parents[..|parents| - 1]);
    }
  }

  lemma {:induction false} AddBatchFacts(raw: Raw, batch: Batch, n: nat)
    requires n <= |batch.facts|
    ensures raw.facts.Keys <= AddBatch(raw, batch, n).facts.Keys
  {
    if n > 0 {
      AddBatchFacts(raw, batch, n - 1);
      var f := batch.facts[n - 1];
      AddParentsFacts(InsertFact(AddBatch(raw, batch, n - 1), Key(batch.repo, f.oid), Fact(f.bytes, f.time)),
                      batch.repo, f.oid, ParentsOf(batch, f.oid));
    }
  }

  /** Every step keeps the gap, except for the charges of repeated commits. */
  lemma StepGap(s: State, move: Move)
    requires Tracked(s)
    ensures var t := Apply(s, move); Tracked(t) && Gap(t.ledger) == Gap(s.ledger) + Extra(s, move)
  {
    hide Gap, Stage, Reclaim, Bound, RecordUse, AddBatch, Trim, SetState, TerminalCount, Settle, Fits, RepeatCharge,
      PlanFor, Held;
    match move.op
    case StageOp(r) =>
      StageGap(s, r, move.at);
    case StateOp(head, state) =>
      var queue := s.queue.(jobs := SetState(s.queue.jobs, head, state));
      var count := TerminalCount(queue.jobs);
      ReclaimKeepsGap(s.(queue := Trim(queue, if count > MAX_TERMINAL then count - MAX_TERMINAL else 0)), move.at);
      BoundKeepsGap(s.(queue := queue), Some(head), move.at);
    case ReconcileOp =>
      BoundKeepsGap(s, None, move.at);
      ReclaimKeepsGap(Bound(s, None, move.at), move.at);
    case PublishOp(trail, batch, when, undone) =>
      AddBatchFacts(s.raw, batch, |batch.facts|);
      if !undone && trail !in s.members && DistinctOids(batch.facts) {
        var raw := AddBatch(s.raw, batch, |batch.facts|);
        RecordUseKeepsGap(s.(raw := raw, members := s.members[trail := BatchKeys(batch)]), trail, when);
      }
    case UseOp(trail, when) =>
      RecordUseKeepsGap(s, trail, when);
    case EvictOp(trails) =>
  }

  ghost function TotalExtra(s: State, moves: seq<Move>): nat {
    if moves == [] then 0
    else TotalExtra(s, moves[..|moves| - 1]) + Extra(Run(s, moves[..|moves| - 1]), moves[|moves| - 1])
  }

  /** Over every run the gap grows by exactly the charges of repeated commits. */
  lemma {:induction false} GapGrowsByRepeats(s: State, moves: seq<Move>)
    requires Tracked(s)
    ensures Tracked(Run(s, moves)) && Gap(Run(s, moves).ledger) == Gap(s.ledger) + TotalExtra(s, moves)
  {
    hide Apply, Tracked, Extra, Gap;
    if moves != [] {
      GapGrowsByRepeats(s, moves[..|moves| - 1]);
      StepGap(Run(s, moves[..|moves| - 1]), moves[|moves| - 1]);
    }
  }

  lemma {:induction false} NoExtra(s: State, moves: seq<Move>)
    requires forall i :: 0 <= i < |moves| ==> DistinctBatches(moves[i])
    ensures TotalExtra(s, moves) == 0
  {
    hide RepeatCharge, Settle, Fits, PlanFor, Held, Run, DistinctOids;
    if moves != [] {
      var before, last := Run(s, moves[..|moves| - 1]), moves[|moves| - 1];
      NoExtra(s, moves[..|moves| - 1]);
      if last.op.StageOp? {
        var r := last.op.request;
        var t := Settle(before, r, last.at, 0);
        DistinctNeverRepeat(t.raw, Held(t.members), r.batch, PlanFor(t, r).edges, |r.batch.facts|);
      }
    }
  }

  const EMPTY: State := State(Raw(map[], map[]), Ledger(map[], Metrics(0, 0, 0, 0, 0, 0)), Queue([], map[]), map[])

  /** The tables of a new store meet the hypotheses of the laws about runs. */
  lemma EmptyIsAccounted()
    ensures Accounted(EMPTY) && EdgesHaveFacts(EMPTY.raw)
  {
  }

  /** Over every run a balanced ledger ends balanced if and only if no repeated commit was charged. */
  lemma {:induction false} RunBalancesExactly(s: State, moves: seq<Move>)
    requires Accounted(s)
    ensures Balanced(Run(s, moves).ledger) <==> TotalExtra(s, moves) == 0
  {
    hide Run, Balanced, Gap, TotalExtra;
    GapGrowsByRepeats(s, moves);
    BalancedIsNoGap(s.ledger);
    BalancedIsNoGap(Run(s, moves).ledger);
  }

  /**
   * Over every run whose staged batches name each commit once, produced bytes equal reused bytes plus unused-evicted
   * bytes plus the bytes still unused.
   */
  lemma {:induction false} LedgerConserved(s: State, moves: seq<Move>)
    requires Accounted(s) && forall i :: 0 <= i < |moves| ==> DistinctBatches(moves[i])
    ensures Accounted(Run(s, moves))
  {
    hide Run, Balanced, Gap, TotalExtra, DistinctBatches;
    GapGrowsByRepeats(s, moves);
    NoExtra(s, moves);
    RunBalancesExactly(s, moves);
  }

  // ---------------------------------------------------------------- each residency is reused at most once

  ghost predicate Unclaimed(s: State, key: Key) {
    key in s.ledger.usage && s.ledger.usage[key].firstUse.None?
  }

  ghost function Flag(b: bool): nat {
    if b then 1 else 0
  }

  /** Whether this step counts `key` as reused. */
  ghost predicate Claims(s: State, op: Op, key: Key) {
    match op
    case UseOp(trail, _) => key in MembersOf(s.members, trail) && Unclaimed(s, key)
    case PublishOp(trail, batch, _, undone) =>
      !undone && trail !in s.members && DistinctOids(batch.facts) && key in BatchKeys(batch) && Unclaimed(s, key)
    case _ => false
  }

  /** Whether this step stages `key` outside all trails, which starts a residency. */
  ghost predicate Enters(s: State, move: Move, key: Key) {
    match move.op
    case StageOp(r) =>
      var t := Settle(s, r, move.at, 0);
      && Fits(t, r)
      && BatchHas(r.batch, |r.batch.facts|, key)
      && key !in t.raw.facts
      && key !in Held(s.members)
    case _ => false
  }

  ghost predicate UsageShrinks(before: Ledger, after: Ledger) {
    forall key :: key in after.usage ==> key in before.usage && after.usage[key] == before.usage[key]
  }

  lemma BoundShrinks(s: State, caller: Option<Key>, at: Setting)
    ensures UsageShrinks(s.ledger, Bound(s, caller, at).ledger)
  {
  }

  lemma {:induction false} SettleShrinks(s: State, r: Request, at: Setting, attempts: nat)
    requires attempts <= MAX_ATTEMPTS
    ensures UsageShrinks(s.ledger, Settle(s, r, at, attempts).ledger)
    decreases MAX_ATTEMPTS - attempts
  {
    hide Fits, First, Retire, Victims, WithoutFacts;
    if Fits(s, r) {
    } else if attempts == 0 {
      SettleShrinks(Reclaim(s, at), r, at, 1);
    } else if attempts < MAX_ATTEMPTS && EvictLru(s, r.Caller(), at).Some? {
      SettleShrinks(EvictLru(s, r.Caller(), at).value, r, at, attempts + 1);
    }
  }

  lemma {:induction false} ProduceEnters(ledger: Ledger, facts: seq<NewFact>, edges: seq<NewEdge>, key: Key)
    requires key in ProduceFacts(ledger, facts, edges).usage
    ensures (key in ledger.usage && ProduceFacts(ledger, facts, edges).usage[key] == ledger.usage[key])
         || exists i :: 0 <= i < |facts| && facts[i].key == key && !facts[i].retained
  {
    hide EdgesFrom;
    if facts != [] {
      var rest := facts[..|facts| - 1];
      if key in ProduceFacts(ledger, rest, edges).usage {
        ProduceEnters(ledger, rest, edges, key);
      }
    }
  }

  lemma StageEnters(s: State, r: Request, at: Setting, key: Key)
    requires DistinctOids(r.batch.facts) && Unclaimed(Stage(s, r, at).state, key)
    ensures Unclaimed(s, key) || Enters(s, Move(StageOp(r), at), key)
  {
    hide Settle, Fits, Bound, PlanOf, ProduceFacts, AddPlan, Held, UpsertRow, PauseRow, BatchHas;
    SettleShrinks(s, r, at, 0);
    SettleKeeps(s, r, at, 0);
    var t := Settle(s, r, at, 0);
    if Fits(t, r) {
      var plan := PlanFor(t, r);
      BoundShrinks(Insert(t, r, plan, at.now), Some(r.Caller()), at);
      ProduceEnters(t.ledger, plan.facts, plan.edges, key);
      if !Unclaimed(t, key) {
        PlanKeys(t.raw, Held(t.members), r.batch, |r.batch.facts|);
        var i :| 0 <= i < |plan.facts| && plan.facts[i].key == key && !plan.facts[i].retained;
        KeysOfMember(plan.facts, i);
      }
    } else {
      BoundShrinks(t.(queue := t.queue.(jobs := PauseRow(t.queue.jobs, PausedRow(r)))), Some(r.Caller()), at);
    }
  }

  lemma StepClaims(s: State, move: Move, key: Key)
    requires DistinctBatches(move)
    ensures Flag(Claims(s, move.op, key)) + Flag(Unclaimed(Apply(s, move), key))
         <= Flag(Enters(s, move, key)) + Flag(Unclaimed(s, key))
  {
    hide Stage, Bound, AddBatch, Trim, SetState, TerminalCount, Enters, Victims, WithoutFacts, Demand;
    match move.op
    case StageOp(r) =>
      if Unclaimed(Stage(s, r, move.at).state, key) {
        StageEnters(s, r, move.at, key);
      }
    case StateOp(head, state) =>
      BoundShrinks(s.(queue := s.queue.(jobs := SetState(s.queue.jobs, head, state))), Some(head), move.at);
    case ReconcileOp =>
      BoundShrinks(s, None, move.at);
    case PublishOp(trail, batch, when, undone) =>
    case UseOp(trail, when) =>
    case EvictOp(trails) =>
  }

  ghost function ClaimCount(s: State, moves: seq<Move>, key: Key): nat {
    if moves == [] then 0
    else
      var before := moves[..|moves| - 1];
      ClaimCount(s, before, key) + Flag(Claims(Run(s, before), moves[|moves| - 1].op, key))
  }

  ghost function EntryCount(s: State, moves: seq<Move>, key: Key): nat {
    if moves == [] then 0
    else
      var before := moves[..|moves| - 1];
      EntryCount(s, before, key) + Flag(Enters(Run(s, before), moves[|moves| - 1], key))
  }

  /** Over every run a commit is counted as reused at most once for each time it was staged. */
  lemma {:induction false} ReusedOncePerResidency(s: State, moves: seq<Move>, key: Key)
    requires forall i :: 0 <= i < |moves| ==> DistinctBatches(moves[i])
    ensures ClaimCount(s, moves, key) + Flag(Unclaimed(Run(s, moves), key))
         <= EntryCount(s, moves, key) + Flag(Unclaimed(s, key))
  {
    hide Apply, Claims, Enters, Unclaimed, DistinctBatches;
    if moves != [] {
      var before := moves[..|moves| - 1];
      ReusedOncePerResidency(s, before, key);
      StepClaims(Run(s, before), moves[|moves| - 1], key);
    }
  }

  /** The reuse metric grows in each step by exactly the number of commits that step claims. */
  lemma MetricCountsClaims(s: State, move: Move)
    ensures var claimed := set key | key in s.ledger.usage && Claims(s, move.op, key);
            Apply(s, move).ledger.metrics.reusedFacts == s.ledger.metrics.reusedFacts + |claimed|
  {
    hide Settle, Fits, AddBatch, Trim, SetState, TerminalCount, Victims, WithoutFacts, Demand, DropOldest, ActiveCount;
    var claimed := set key | key in s.ledger.usage && Claims(s, move.op, key);
    match move.op
    case StageOp(r) =>
      StageKeepsReuse(s, r, move.at);
      assert claimed == {};
    case PublishOp(trail, batch, when, undone) =>
      if !undone && trail !in s.members && DistinctOids(batch.facts) {
        assert claimed == Unused(Within(s.ledger.usage, BatchKeys(batch))).Keys;
      } else {
        assert claimed == {};
      }
    case UseOp(trail, when) =>
      assert claimed == Unused(Within(s.ledger.usage, MembersOf(s.members, trail))).Keys;
    case _ =>
      assert claimed == {};
  }

  lemma {:induction false} SettleKeepsReuse(s: State, r: Request, at: Setting, attempts: nat)
    requires attempts <= MAX_ATTEMPTS
    ensures Settle(s, r, at, attempts).ledger.metrics.reusedFacts == s.ledger.metrics.reusedFacts
    decreases MAX_ATTEMPTS - attempts
  {
    hide Fits, First, Retire, Victims, WithoutFacts;
    if Fits(s, r) {
    } else if attempts == 0 {
      SettleKeepsReuse(Reclaim(s, at), r, at, 1);
    } else if attempts < MAX_ATTEMPTS && EvictLru(s, r.Caller(), at).Some? {
      SettleKeepsReuse(EvictLru(s, r.Caller(), at).value, r, at, attempts + 1);
    }
  }

  lemma {:induction false} ProduceKeepsReuse(ledger: Ledger, facts: seq<NewFact>, edges: seq<NewEdge>)
    ensures ProduceFacts(ledger, facts, edges).metrics.reusedFacts == ledger.metrics.reusedFacts
  {
    hide EdgesFrom;
    if facts != [] {
      ProduceKeepsReuse(ledger, facts[..|facts| - 1], edges);
    }
  }

  lemma StageKeepsReuse(s: State, r: Request, at: Setting)
    ensures Stage(s, r, at).state.ledger.metrics.reusedFacts == s.ledger.metrics.reusedFacts
  {
    hide Settle, Fits, Victims, WithoutFacts, DropOldest, ActiveCount, AddPlan, ProduceFacts, PlanFor, UpsertRow,
      PauseRow;
    SettleKeepsReuse(s, r, at, 0);
    var t := Settle(s, r, at, 0);
    ProduceKeepsReuse(t.ledger, PlanFor(t, r).facts, PlanFor(t, r).edges);
  }
}
