/** The prefetch coordinator: bounded admission and first-in, first-out turns. */
module PrefetchQueue {
  import opened Results
  import Staging

  /** A repository and a head; each repository has one path. */
  type Target = Staging.Key

  const MAX_KNOWN: nat := 32

  /** `flight` is the key the worker popped and has not finished. */
  datatype Queue = Queue(ready: seq<Target>, known: set<Target>, flight: Option<Target>)

  function Admit(q: Queue, key: Target): Queue {
    if |q.known| < MAX_KNOWN && key !in q.known then q.(ready := q.ready + [key], known := q.known + {key}) else q
  }

  function Pop(q: Queue): Queue {
    if q.ready == [] || q.flight.Some? then q else q.(ready := q.ready[1..], flight := Some(q.ready[0]))
  }

  function FinishTurn(q: Queue, more: bool): Queue {
    if q.flight.None? then q
    else if more then q.(ready := q.ready + [q.flight.value], flight := None)
    else q.(known := q.known - {q.flight.value}, flight := None)
  }

  function InFlight(q: Queue): set<Target> {
    if q.flight.None? then {} else {q.flight.value}
  }

  function KeysOf(ready: seq<Target>): set<Target> {
    set key | key in ready
  }

  /** No key waits twice, at most 32 are known, and `known` is `ready` plus the one in flight. */
  ghost predicate Sound(q: Queue) {
    && Distinct(q.ready)
    && q.known == KeysOf(q.ready) + InFlight(q)
    && KeysOf(q.ready) !! InFlight(q)
    && |q.known| <= MAX_KNOWN
  }

  class PrefetchCoordinator {
    var ready: seq<Target>
    var known: set<Target>
    /** The local `key` of the worker during its turn. */
    var flight: Option<Target>

    function State(): Queue
      reads this
    {
      Queue(ready, known, flight)
    }

    constructor ()
      ensures State() == Queue([], {}, None) && Sound(State())
    {
      ready, known, flight := [], {}, None;
    }

    method AdmitTarget(key: Target)
      requires Sound(State())
      modifies this
      ensures State() == Admit(old(State()), key) && Sound(State())
      ensures key in known <==> key in old(known) || |old(known)| < 32
      ensures old(ready) <= ready
    {
      AdmitKeeps(State(), key);
      if |known| < MAX_KNOWN && key !in known {
        known := known + {key};
        ready := ready + [key];
      }
    }

    method TakeTurn() returns (key: Option<Target>)
      requires Sound(State()) && flight.None?
      modifies this
      ensures State() == Pop(old(State())) && Sound(State())
      ensures key == flight == if old(ready) == [] then None else Some(old(ready)[0])
    {
      hide Sound;
      PopKeeps(State());
      if ready == [] {
        return None;
      }
      key := Some(ready[0]);
      ready, flight := ready[1..], key;
    }

    method FinishKey(key: Target, more: bool)
      requires Sound(State()) && flight == Some(key)
      modifies this
      ensures State() == FinishTurn(old(State()), more) && Sound(State())
      ensures key in known <==> more
    {
      FinishKeeps(State(), more);
      if more {
        ready := ready + [key];
      } else {
        known := known - {key};
      }
      flight := None;
    }
  }

  // ---------------------------------------------------------------- invariant

  lemma AdmitKeeps(q: Queue, key: Target)
    requires Sound(q)
    ensures Sound(Admit(q, key))
  {
    if Admit(q, key) != q {
      assert KeysOf(q.ready + [key]) == KeysOf(q.ready) + {key};
    }
  }

  ghost predicate Distinct(ready: seq<Target>) {
    forall i, j :: 0 <= i < j < |ready| ==> ready[i] != ready[j]
  }

  lemma PopKeeps(q: Queue)
    requires Sound(q)
    ensures Sound(Pop(q))
  {
  }

  lemma FinishKeeps(q: Queue, more: bool)
    requires Sound(q)
    ensures Sound(FinishTurn(q, more))
  {
    if q.flight.Some? {
      assert KeysOf(q.ready + [q.flight.value]) == KeysOf(q.ready) + {q.flight.value};
    }
  }

  lemma {:induction false} DistinctLength(ready: seq<Target>)
    requires Distinct(ready)
    ensures |KeysOf(ready)| == |ready|
  {
    if ready == [] {
      assert KeysOf(ready) == {};
    } else {
      hide KeysOf, Distinct;
      LastKeyIsNew(ready);
      DistinctLength(ready[..|ready| - 1]);
    }
  }

  lemma LastKeyIsNew(ready: seq<Target>)
    requires Distinct(ready) && ready != []
    ensures var rest, last := ready[..|ready| - 1], ready[|ready| - 1];
            Distinct(rest) && last !in KeysOf(rest) && KeysOf(ready) == KeysOf(rest) + {last}
  {
    assert ready == ready[..|ready| - 1] + [ready[|ready| - 1]];
  }

  /** At most 32 keys wait, and at most 31 while one is in flight. */
  lemma WaitingIsBounded(q: Queue)
    requires Sound(q)
    ensures |q.ready| + (if q.flight.Some? then 1 else 0) == |q.known| <= 32
  {
    DistinctLength(q.ready);
  }

  // ---------------------------------------------------------------- fair turns

  datatype Op = AdmitOp(key: Target) | PopOp | FinishOp(more: bool)

  function Step(q: Queue, op: Op): Queue {
    match op
    case AdmitOp(key) => Admit(q, key)
    case PopOp => Pop(q)
    case FinishOp(more) => FinishTurn(q, more)
  }

  function Run(q: Queue, ops: seq<Op>): Queue {
    if ops == [] then q else Step(Run(q, ops[..|ops| - 1]), ops[|ops| - 1])
  }

  lemma {:induction false} RunKeeps(q: Queue, ops: seq<Op>)
    requires Sound(q)
    ensures Sound(Run(q, ops))
  {
    if ops != [] {
      hide Sound;
      RunKeeps(q, ops[..|ops| - 1]);
      var before := Run(q, ops[..|ops| - 1]);
      match ops[|ops| - 1]
      case AdmitOp(key) => AdmitKeeps(before, key);
      case PopOp => PopKeeps(before);
      case FinishOp(more) => FinishKeeps(before, more);
    }
  }

  /** Whether this step starts a turn. */
  predicate Serves(q: Queue, op: Op) {
    op.PopOp? && q.ready != [] && q.flight.None?
  }

  /** The turns that start during a run. */
  function Turns(q: Queue, ops: seq<Op>): nat {
    if ops == [] then 0
    else Turns(q, ops[..|ops| - 1]) + if Serves(Run(q, ops[..|ops| - 1]), ops[|ops| - 1]) then 1 else 0
  }

  lemma StepMovesUp(q: Queue, op: Op, i: nat)
    requires i < |q.ready| && (Serves(q, op) ==> i > 0)
    ensures var now, j := Step(q, op).ready, if Serves(q, op) then i - 1 else i; j < |now| && now[j] == q.ready[i]
  {
  }

  /** A waiting key moves one place forward with each turn, whatever is admitted or put back meanwhile. */
  lemma {:induction false} WaitingMovesUp(q: Queue, ops: seq<Op>, i: nat)
    requires i < |q.ready| && Turns(q, ops) <= i
    ensures var now := Run(q, ops); i - Turns(q, ops) < |now.ready| && now.ready[i - Turns(q, ops)] == q.ready[i]
  {
    if ops != [] {
      hide Step, Serves;
      WaitingMovesUp(q, ops[..|ops| - 1], i);
      StepMovesUp(Run(q, ops[..|ops| - 1]), ops[|ops| - 1], i - Turns(q, ops[..|ops| - 1]));
    }
  }

  /**
   * The key at place `i` is taken by the turn after exactly `i` others; there are fewer than 32 of them, and none of
   * those turns is its own.
   */
  lemma {:induction false} ServedInOrder(q: Queue, ops: seq<Op>, i: nat)
    requires Sound(q) && i < |q.ready| && Turns(q, ops) == i && Serves(Run(q, ops), PopOp)
    ensures i < 32
    ensures Run(q, ops + [PopOp]).flight == Some(q.ready[i])
    ensures forall n :: 0 <= n <= |ops| ==> var before := Run(q, ops[..n]); q.ready[i] in before.ready
  {
    WaitingIsBounded(q);
    WaitingMovesUp(q, ops, i);
    assert (ops + [PopOp])[..|ops|] == ops;
    forall n | 0 <= n <= |ops| ensures q.ready[i] in Run(q, ops[..n]).ready {
      TurnsGrow(q, ops, n);
      WaitingMovesUp(q, ops[..n], i);
    }
  }

  lemma {:induction false} TurnsGrow(q: Queue, ops: seq<Op>, n: nat)
    requires n <= |ops|
    ensures Turns(q, ops[..n]) <= Turns(q, ops)
    decreases |ops|
  {
    if n == |ops| {
      assert ops[..n] == ops;
    } else {
      TurnsGrow(q, ops[..|ops| - 1], n);
      assert ops[..|ops| - 1][..n] == ops[..n];
    }
  }
}
