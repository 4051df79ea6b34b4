/** The vCPU scheduler of src/hypervisor/sched/scheduler.c on CPU 0: selection, virtual time,
    fairness and freedom from starvation over whole runs. */
module Scheduler {
  import opened Common
  import L = IntrusiveList

  const SCHED_TICK_NS: nat := 10_000_000
  const SCHED_MAX_TIMESLICE: nat := 100_000_000
  const TICK_WORK: nat := SCHED_TICK_NS * 1024   // numerator of the virtual-time step
  const LARGEST_STEP: nat := TICK_WORK / 512     // lowest weight
  const SMALLEST_STEP: nat := TICK_WORK / 4096   // highest weight

  datatype Policy = Fifo | RoundRobin | Cfs | Bvt | Walt
  datatype Priority = Low | Normal | High | Realtime

  datatype Entity = Entity(vruntime: nat, runtime: nat, deadline: nat, policy: Policy, priority: Priority,
                           weight: nat, running: bool)

  /** The run queue: entities by index, queue order, and the vCPU the driver runs. */
  datatype Rq = Rq(entities: seq<Entity>, queue: seq<nat>, current: Option<nat>)

  function WeightOf(p: Priority): nat {
    match p
    case Realtime => 4096
    case High => 2048
    case Normal => 1024
    case Low => 512
  }

  predicate Weight(w: nat) { w == 512 || w == 1024 || w == 2048 || w == 4096 }

  predicate Distinct(q: seq<nat>) {
    forall i, j :: 0 <= i < j < |q| ==> q[i] != q[j]
  }

  predicate Bounded(q: seq<nat>, n: nat) {
    forall i :: 0 <= i < |q| ==> q[i] < n
  }

  /** Every entity is queued exactly once and the current one is an entity. */
  ghost predicate Valid(rq: Rq) {
    && Distinct(rq.queue)
    && Bounded(rq.queue, |rq.entities|)
    && (forall i: nat :: i < |rq.entities| ==> i in rq.queue)
    && (forall i :: 0 <= i < |rq.entities| ==> Weight(rq.entities[i].weight) && rq.entities[i].vruntime < U64)
    && (rq.current.Some? ==> rq.current.value < |rq.entities|)
  }

  // ----- selection

  /** The scan both pick functions make: the first queued key below every earlier one and below ~0. */
  function Least(key: seq<nat>, q: seq<nat>): Option<nat>
    requires Bounded(q, |key|)
  {
    if q == [] then None
    else
      var x := q[|q| - 1];
      var best := Least(key, q[..|q| - 1]);
      if key[x] < MinKey(key, best) then Some(x) else best
  }

  function MinKey(key: seq<nat>, best: Option<nat>): nat {
    if best.Some? && best.value < |key| then key[best.value] else U64 - 1
  }

  lemma LeastNext(key: seq<nat>, q: seq<nat>, n: nat)
    requires Bounded(q, |key|) && n < |q|
    ensures Least(key, q[..n + 1])
            == if key[q[n]] < MinKey(key, Least(key, q[..n])) then Some(q[n]) else Least(key, q[..n])
  {
    assert q[..n + 1][..n] == q[..n];
  }

  lemma LeastNone(key: seq<nat>, q: seq<nat>)
    requires Bounded(q, |key|)
    ensures Least(key, q[..0]) == None
  {}

  function Vruntimes(es: seq<Entity>): (k: seq<nat>)
    ensures |k| == |es|
  {
    seq(|es|, i requires 0 <= i < |es| => es[i].vruntime)
  }

  /** Deadlines of the FIFO entities; the others never compete. */
  function Deadlines(es: seq<Entity>): (k: seq<nat>)
    ensures |k| == |es|
  {
    seq(|es|, i requires 0 <= i < |es| => if es[i].policy == Fifo then es[i].deadline else U64 - 1)
  }

  /** Position n holds the least key, strictly below every key queued before it. */
  ghost predicate FirstLeast(key: seq<nat>, q: seq<nat>, n: nat)
    requires Bounded(q, |key|)
  {
    && n < |q| && key[q[n]] < U64 - 1
    && (forall j :: 0 <= j < n ==> key[q[j]] > key[q[n]])
    && (forall j :: n <= j < |q| ==> key[q[j]] >= key[q[n]])
  }

  /** The scan finds the earliest-queued holder of the least key, or nothing if all are ~0. */
  lemma {:induction false} LeastIsFirst(key: seq<nat>, q: seq<nat>) returns (n: nat)
    requires Bounded(q, |key|)
    ensures Least(key, q) == None ==> forall j :: 0 <= j < |q| ==> key[q[j]] >= U64 - 1
    ensures Least(key, q).Some? ==> FirstLeast(key, q, n) && Least(key, q).value == q[n]
    decreases |q|
  {
    n := 0;
    if q != [] {
      var p := q[..|q| - 1];
      n := LeastIsFirst(key, p);
      if key[q[|q| - 1]] < MinKey(key, Least(key, p)) {
        n := |q| - 1;
      }
      assert forall j :: 0 <= j < |p| ==> q[j] == p[j];
    }
  }

  function CfsPick(rq: Rq): Option<nat>
    requires Valid(rq)
  {
    Least(Vruntimes(rq.entities), rq.queue)
  }

  /** Earliest deadline among FIFO entities, else least vruntime. */
  function FifoPick(rq: Rq): Option<nat>
    requires Valid(rq)
  {
    var earliest := Least(Deadlines(rq.entities), rq.queue);
    if earliest.Some? then earliest else CfsPick(rq)
  }

  /** Selection by the policy of the first queued entity. On an empty queue either scan is empty. */
  function PickNext(rq: Rq): Option<nat>
    requires Valid(rq)
  {
    if rq.queue == [] then None
    else match rq.entities[rq.queue[0]].policy
      case Fifo => FifoPick(rq)
      case RoundRobin => FifoPick(rq)
      case _ => CfsPick(rq)
  }

  // ----- one scheduler_schedule call

  /** One tick of virtual and real time for an entity, in 64-bit arithmetic. */
  function Tick(e: Entity): Entity
    requires e.weight > 0
  {
    e.(runtime := (e.runtime + SCHED_TICK_NS) % U64, vruntime := (e.vruntime + TICK_WORK / e.weight) % U64)
  }

  /** Account the tick of the current entity. */
  function Account(rq: Rq): Rq
    requires Valid(rq)
  {
    if rq.current.Some? then
      rq.(entities := rq.entities[rq.current.value := Tick(rq.entities[rq.current.value])])
    else rq
  }

  /** The current vCPU runs on while its vCPU is running and its vruntime is below the slice. */
  predicate Continues(rq: Rq)
    requires rq.current.Some? ==> rq.current.value < |rq.entities|
  {
    && rq.current.Some?
    && rq.entities[rq.current.value].running
    && rq.entities[rq.current.value].vruntime < SCHED_MAX_TIMESLICE
  }

  function Requeue(rq: Rq): Rq {
    if rq.current.Some? then
      rq.(queue := Without(rq.queue, rq.current.value) + [rq.current.value])
    else rq
  }

  /** scheduler_schedule: the new run queue and the returned entity. The code never writes
      rq->current, so current is left alone here. */
  ghost function Schedule(rq: Rq): (Rq, Option<nat>)
    requires Valid(rq)
  {
    AccountValid(rq);
    var r := Account(rq);
    if Continues(r) then (r, r.current)
    else
      RequeueValid(r);
      (Requeue(r), PickNext(Requeue(r)))
  }

  lemma {:induction false} WithoutMembers(q: seq<nat>, x: nat, n: nat)
    requires Distinct(q) && Bounded(q, n)
    ensures Distinct(Without(q, x)) && Bounded(Without(q, x), n)
    ensures forall i: nat :: i in Without(q, x) <==> i in q && i != x
  {
    if q != [] {
      assert q == [q[0]] + q[1..];
      assert q[0] !in q[1..];
      if q[0] != x { WithoutMembers(q[1..], x, n); }
    }
  }

  /** On a queue without repetition the removal is the list_del of one position. */
  lemma {:induction false} WithoutIsDel(q: seq<nat>, k: nat)
    requires Distinct(q) && k < |q|
    ensures Without(q, q[k]) == q[..k] + q[k + 1..]
  {
    if k > 0 {
      WithoutIsDel(q[1..], k - 1);
      assert q[1..][..k - 1] == q[1..k] && q[1..][k..] == q[k + 1..];
      assert [q[0]] + q[1..k] == q[..k];
    }
  }

  lemma AccountValid(rq: Rq)
    requires Valid(rq)
    ensures Valid(Account(rq))
  {}

  lemma RequeueValid(rq: Rq)
    requires Valid(rq)
    ensures Valid(Requeue(rq))
  {
    if rq.current.Some? { MoveValid(rq, rq.current.value); }
  }

  lemma Ends(w: seq<nat>, x: nat, n: nat)
    requires Distinct(w) && Bounded(w, n) && x !in w && x < n
    ensures Distinct(w + [x]) && Bounded(w + [x], n) && Distinct([x] + w) && Bounded([x] + w, n)
  {
    assert forall i :: 0 <= i < |w| ==> w[i] in w && w[i] != x;
  }

  lemma MoveValid(rq: Rq, x: nat)
    requires Valid(rq) && x < |rq.entities|
    ensures Valid(rq.(queue := Without(rq.queue, x) + [x]))
    ensures Valid(rq.(queue := [x] + Without(rq.queue, x)))
  {
    hide Without, Distinct, Bounded, Weight;
    WithoutMembers(rq.queue, x, |rq.entities|);
    Ends(Without(rq.queue, x), x, |rq.entities|);
  }

  // ----- the calls of a run

  datatype Op =
    | Call                                    // scheduler_schedule, with the driver storing the result
    | Yield(x: nat)
    | Wake(x: nat)
    | SetPriority(x: nat, priority: Priority)
    | SetPolicy(x: nat, policy: Policy)
    | SetRunning(x: nat, running: bool)

  ghost predicate Enabled(rq: Rq, op: Op) {
    op.Call? || op.x < |rq.entities|
  }

  ghost function Step(rq: Rq, op: Op): Rq
    requires Valid(rq) && Enabled(rq, op)
  {
    match op
    case Call => var (r, next) := Schedule(rq); r.(current := next)
    case Yield(x) => rq.(queue := Without(rq.queue, x) + [x])
    case Wake(x) => rq.(queue := [x] + Without(rq.queue, x))
    case SetPriority(x, p) => rq.(entities := rq.entities[x := rq.entities[x].(priority := p, weight := WeightOf(p))])
    case SetPolicy(x, p) => rq.(entities := rq.entities[x := rq.entities[x].(policy := p)])
    case SetRunning(x, b) => rq.(entities := rq.entities[x := rq.entities[x].(running := b)])
  }

  lemma PickQueued(rq: Rq)
    requires Valid(rq)
    ensures PickNext(rq).Some? ==> PickNext(rq).value in rq.queue
  {
    var n := LeastIsFirst(Vruntimes(rq.entities), rq.queue);
    var m := LeastIsFirst(Deadlines(rq.entities), rq.queue);
  }

  lemma StepValid(rq: Rq, op: Op)
    requires Valid(rq) && Enabled(rq, op)
    ensures Valid(Step(rq, op)) && |Step(rq, op).entities| == |rq.entities|
  {
    hide Least;
    match op
    case Call =>
      AccountValid(rq);
      RequeueValid(Account(rq));
      PickQueued(Requeue(Account(rq)));
    case Yield(x) => MoveValid(rq, x);
    case Wake(x) => MoveValid(rq, x);
    case _ =>
  }

  // ----- fairness

  function Max(a: nat, b: nat): nat { if a >= b then a else b }

  /** No entity is more than one step ahead of another (or of the slice bound). */
  ghost predicate FairPair(es: seq<Entity>, a: nat, b: nat)
    requires a < |es| && b < |es|
  {
    es[a].vruntime <= Max(es[b].vruntime, SCHED_MAX_TIMESLICE) + LARGEST_STEP
  }

  ghost predicate Fair(rq: Rq) {
    && (forall a: nat, b: nat :: a < |rq.entities| && b < |rq.entities| ==> FairPair(rq.entities, a, b))
  }

  /** The entity on the CPU was least when picked, or has not used up the slice. */
  ghost predicate CurrentLow(rq: Rq) {
    rq.current.Some? && rq.current.value < |rq.entities| ==>
      forall b :: 0 <= b < |rq.entities| ==>
        rq.entities[rq.current.value].vruntime <= Max(rq.entities[b].vruntime, SCHED_MAX_TIMESLICE)
  }

  /** No FIFO entity has a deadline below ~0, so none competes by deadline. */
  ghost predicate NoFifo(rq: Rq) {
    forall i :: 0 <= i < |rq.entities| ==> rq.entities[i].policy != Fifo || rq.entities[i].deadline >= U64 - 1
  }

  /** Selection goes by virtual time: the policy of the head says so, or nobody competes by deadline. */
  ghost predicate PicksByVruntime(rq: Rq)
    requires Bounded(rq.queue, |rq.entities|)
  {
    || rq.queue == []
    || (rq.entities[rq.queue[0]].policy != Fifo && rq.entities[rq.queue[0]].policy != RoundRobin)
    || NoFifo(rq)
  }

  /** The next schedule call lets the current entity run on, or selects by virtual time. */
  ghost predicate ByVruntime(rq: Rq)
    requires Valid(rq)
  {
    AccountValid(rq);
    RequeueValid(Account(rq));
    Continues(Account(rq)) || PicksByVruntime(Requeue(Account(rq)))
  }

  ghost predicate FairState(rq: Rq) {
    Valid(rq) && Fair(rq) && CurrentLow(rq)
  }

  lemma StepSize(w: nat)
    requires Weight(w)
    ensures SMALLEST_STEP <= TICK_WORK / w <= LARGEST_STEP
  {}

  lemma VruntimePick(rq: Rq)
    requires Valid(rq) && PicksByVruntime(rq)
    ensures PickNext(rq) == if rq.queue == [] then None else CfsPick(rq)
  {
    hide Least, CfsPick;
    var n := LeastIsFirst(Deadlines(rq.entities), rq.queue);
  }

  /** Whatever is picked has the least vruntime; nothing is picked only when all stand at ~0. */
  lemma PickIsLeast(rq: Rq)
    requires Valid(rq) && PicksByVruntime(rq)
    ensures PickNext(rq).Some? ==> PickNext(rq).value < |rq.entities|
    ensures PickNext(rq).Some? ==> forall b :: 0 <= b < |rq.entities| ==>
              rq.entities[PickNext(rq).value].vruntime <= rq.entities[b].vruntime
    ensures PickNext(rq) == None ==> forall b :: 0 <= b < |rq.entities| ==> rq.entities[b].vruntime >= U64 - 1
  {
    hide Least, PickNext, Distinct, Weight, PicksByVruntime;
    VruntimePick(rq);
    var key := Vruntimes(rq.entities);
    var n := LeastIsFirst(key, rq.queue);
    forall b | 0 <= b < |rq.entities|
      ensures PickNext(rq).Some? ==> rq.entities[rq.queue[n]].vruntime <= rq.entities[b].vruntime
      ensures PickNext(rq) == None ==> rq.entities[b].vruntime >= U64 - 1
    {
      assert b in rq.queue;
      var j :| 0 <= j < |rq.queue| && rq.queue[j] == b;
      assert key[rq.queue[j]] == rq.entities[b].vruntime;
    }
  }

  /** The tick of the current entity stays below 2^64. */
  ghost predicate NoWrap(rq: Rq)
    requires Valid(rq)
  {
    rq.current.Some? ==>
      var e := rq.entities[rq.current.value];
      e.vruntime + TICK_WORK / e.weight < U64
  }

  lemma TickFair(rq: Rq)
    requires FairState(rq) && NoWrap(rq)
    ensures Fair(Account(rq))
    ensures rq.current.Some? ==>
              var c := rq.current.value;
              rq.entities[c].vruntime + SMALLEST_STEP <= Account(rq).entities[c].vruntime
                <= rq.entities[c].vruntime + LARGEST_STEP
  {
    hide Distinct, Bounded;
    if rq.current.Some? {
      var c := rq.current.value;
      StepSize(rq.entities[c].weight);
      var r := Account(rq);
      forall a: nat, b: nat | a < |r.entities| && b < |r.entities| ensures FairPair(r.entities, a, b) {
        assert FairPair(rq.entities, a, b);
      }
    }
  }

  function Calls(ops: seq<Op>): nat {
    if ops == [] then 0 else (if ops[0].Call? then 1 else 0) + Calls(ops[1..])
  }

  /** Calls on existing entities. */
  ghost predicate OnEntities(n: nat, ops: seq<Op>) {
    forall i :: 0 <= i < |ops| ==> ops[i].Call? || ops[i].x < n
  }

  /** A schedule call that goes by virtual time and whose tick does not wrap keeps the fairness invariant. */
  lemma CallFair(rq: Rq)
    requires FairState(rq) && NoWrap(rq) && ByVruntime(rq)
    ensures FairState(Step(rq, Call)) && Step(rq, Call).entities == Account(rq).entities
    ensures Step(rq, Call).current == None ==> forall b :: 0 <= b < |rq.entities| ==>
              Account(rq).entities[b].vruntime >= U64 - 1
  {
    hide Least, PickNext;
    TickFair(rq);
    StepValid(rq, Call);
    AccountValid(rq);
    var r := Account(rq);
    if !Continues(r) {
      RequeueValid(r);
      PickIsLeast(Requeue(r));
    }
  }

  lemma StepFair(rq: Rq, op: Op)
    requires FairState(rq) && Enabled(rq, op)
    requires op.Call? ==> NoWrap(rq) && ByVruntime(rq)
    ensures FairState(Step(rq, op)) && |Step(rq, op).entities| == |rq.entities|
  {
    hide Least, PickNext, Schedule;
    StepValid(rq, op);
    if op.Call? {
      CallFair(rq);
    } else {
      forall a: nat, b: nat | a < |rq.entities| && b < |rq.entities| ensures FairPair(Step(rq, op).entities, a, b) {
        assert FairPair(rq.entities, a, b);
      }
    }
  }

  ghost function Run(rq: Rq, ops: seq<Op>): Rq
    requires Valid(rq) && OnEntities(|rq.entities|, ops)
    decreases |ops|
  {
    if ops == [] then rq else
      assert Enabled(rq, ops[0]);
      StepValid(rq, ops[0]);
      Run(Step(rq, ops[0]), ops[1..])
  }

  /** What the scheduler_schedule calls of the run return, in order. */
  ghost function Returned(rq: Rq, ops: seq<Op>): seq<Option<nat>>
    requires Valid(rq) && OnEntities(|rq.entities|, ops)
    decreases |ops|
  {
    if ops == [] then [] else
      assert Enabled(rq, ops[0]);
      StepValid(rq, ops[0]);
      (if ops[0].Call? then [Schedule(rq).1] else []) + Returned(Step(rq, ops[0]), ops[1..])
  }

  /** No tick of the run wraps. */
  ghost predicate NoWraps(rq: Rq, ops: seq<Op>)
    requires Valid(rq) && OnEntities(|rq.entities|, ops)
    decreases |ops|
  {
    ops == [] ||
    (assert Enabled(rq, ops[0]);
     StepValid(rq, ops[0]);
     (ops[0].Call? ==> NoWrap(rq)) && NoWraps(Step(rq, ops[0]), ops[1..]))
  }

  /** Every schedule call of the run goes by virtual time. */
  ghost predicate ByVruntimes(rq: Rq, ops: seq<Op>)
    requires Valid(rq) && OnEntities(|rq.entities|, ops)
    decreases |ops|
  {
    ops == [] ||
    (assert Enabled(rq, ops[0]);
     StepValid(rq, ops[0]);
     (ops[0].Call? ==> ByVruntime(rq)) && ByVruntimes(Step(rq, ops[0]), ops[1..]))
  }

  /** Without FIFO entities that compete, and with none introduced, all calls go by virtual time. */
  lemma {:induction false} NoFifoByVruntimes(rq: Rq, ops: seq<Op>)
    requires Valid(rq) && NoFifo(rq) && OnEntities(|rq.entities|, ops)
    requires forall i :: 0 <= i < |ops| && ops[i].SetPolicy? ==> ops[i].policy != Fifo
    ensures ByVruntimes(rq, ops)
    decreases |ops|
  {
    hide Step, Valid, ByVruntime, NoFifo;
    if ops != [] {
      assert Enabled(rq, ops[0]);
      StepValid(rq, ops[0]);
      NoFifoStep(rq, ops[0]);
      NoFifoByVruntimes(Step(rq, ops[0]), ops[1..]);
    }
  }

  lemma NoFifoStep(rq: Rq, op: Op)
    requires Valid(rq) && NoFifo(rq) && Enabled(rq, op) && (op.SetPolicy? ==> op.policy != Fifo)
    ensures NoFifo(Step(rq, op)) && ByVruntime(rq)
  {
    hide Least, PickNext, Distinct, Without, Weight;
    AccountValid(rq);
    RequeueValid(Account(rq));
  }

  /** Fairness after every run of schedule, yield, wake, priority, policy and running changes in
      which no tick wraps and every call goes by virtual time. */
  lemma {:induction false} RunFair(rq: Rq, ops: seq<Op>)
    requires FairState(rq) && OnEntities(|rq.entities|, ops) && NoWraps(rq, ops) && ByVruntimes(rq, ops)
    ensures FairState(Run(rq, ops)) && |Run(rq, ops).entities| == |rq.entities|
    decreases |ops|
  {
    hide FairState, NoWrap, ByVruntime, Step;
    if ops != [] {
      FairStateValid(rq);
      assert Enabled(rq, ops[0]);
      StepFair(rq, ops[0]);
      RunFair(Step(rq, ops[0]), ops[1..]);
    }
  }

  /** calls more steps of the largest size still fit below 2^64. */
  ghost predicate Headroom(rq: Rq, calls: nat) {
    forall i :: 0 <= i < |rq.entities| ==> rq.entities[i].vruntime + calls * LARGEST_STEP < U64
  }

  lemma StepHeadroom(rq: Rq, op: Op, calls: nat)
    requires Valid(rq) && Enabled(rq, op) && Headroom(rq, calls + if op.Call? then 1 else 0)
    ensures Valid(Step(rq, op)) && Headroom(Step(rq, op), calls) && |Step(rq, op).entities| == |rq.entities|
    ensures op.Call? ==> NoWrap(rq)
  {
    hide Least, PickNext, Distinct, Bounded;
    StepValid(rq, op);
    if op.Call? {
      assert calls * LARGEST_STEP + LARGEST_STEP == (calls + 1) * LARGEST_STEP;
      assert Step(rq, op).entities == Account(rq).entities;
      if rq.current.Some? { StepSize(rq.entities[rq.current.value].weight); }
    }
  }

  /** A bound known before the run: calls that fit at the largest step never wrap. */
  lemma {:induction false} HeadroomNoWraps(rq: Rq, ops: seq<Op>)
    requires Valid(rq) && OnEntities(|rq.entities|, ops) && Headroom(rq, Calls(ops))
    ensures NoWraps(rq, ops)
    decreases |ops|
  {
    hide Valid, Headroom, Step, NoWrap;
    if ops != [] {
      assert Enabled(rq, ops[0]);
      StepHeadroom(rq, ops[0], Calls(ops[1..]));
      HeadroomNoWraps(Step(rq, ops[0]), ops[1..]);
    }
  }

  lemma FairStateValid(rq: Rq)
    requires FairState(rq)
    ensures Valid(rq)
  {}

  // ----- what one call does, in the numbers of the code

  /** v is the virtual time of e after one more tick. */
  ghost predicate TickedTo(e: Entity, v: nat) {
    e.weight > 0 && v == (e.vruntime + 10_240_000_000 / e.weight) % 0x1_0000_0000_0000_0000
  }

  /** The queue with the element at position k moved to the back. */
  ghost predicate MovedBack(q: seq<nat>, k: nat, q': seq<nat>) {
    k < |q| && q' == q[..k] + q[k + 1..] + [q[k]]
  }

  /** scheduler_schedule in full: without a current entity nothing moves and one is selected; otherwise it
      is charged one tick and runs on, in its place, exactly while its vCPU runs and its virtual time
      is below 100 ms; if not it goes to the back and one is selected after that. */
  lemma CallMeans(rq: Rq, k: nat, v: nat)
    requires Valid(rq)
    requires rq.current.Some? ==>
               k < |rq.queue| && rq.queue[k] == rq.current.value && TickedTo(rq.entities[rq.current.value], v)
    ensures var (r, next) := Schedule(rq);
            && r.current == rq.current
            && (rq.current == None ==> r == rq && next == PickNext(rq))
            && (rq.current.Some? ==>
                  var c := rq.current.value;
                  var e := rq.entities[c];
                  var runsOn := e.running && v < 100_000_000;
                  && r.entities == rq.entities[c := e.(vruntime := v,
                                                       runtime := (e.runtime + 10_000_000) % 0x1_0000_0000_0000_0000)]
                  && (runsOn ==> r.queue == rq.queue && next == Some(c))
                  && (!runsOn ==> MovedBack(rq.queue, k, r.queue) && Valid(r) && next == PickNext(r)))
  {
    hide PickNext, Without, Distinct, Bounded;
    AccountValid(rq);
    RequeueValid(Account(rq));
    if rq.current.Some? { WithoutIsDel(rq.queue, k); }
  }

  /** A vCPU that was stopped goes to the back of the queue at the next call. If selection is by virtual
      time it is returned once more only if its virtual time is strictly the least. */
  lemma StoppedGoesBack(rq: Rq, k: nat)
    requires Valid(rq) && rq.current.Some? && k < |rq.queue| && rq.queue[k] == rq.current.value
    requires !rq.entities[rq.current.value].running
    ensures var (r, next) := Schedule(rq);
            var c := rq.current.value;
            && MovedBack(rq.queue, k, r.queue) && Valid(r) && next == PickNext(r)
            && (PicksByVruntime(r) && next == Some(c) ==>
                  forall b :: 0 <= b < |r.entities| && b != c ==> r.entities[c].vruntime < r.entities[b].vruntime)
  {
    hide Least, Distinct, Schedule, PickNext;
    var c := rq.current.value;
    var e := rq.entities[c];
    CallMeans(rq, k, (e.vruntime + 10_240_000_000 / e.weight) % 0x1_0000_0000_0000_0000);
    var r := Schedule(rq).0;
    if PicksByVruntime(r) && Schedule(rq).1 == Some(c) {
      VruntimePick(r);
      LastIsStrict(r, c);
    }
  }

  lemma LastIsStrict(r: Rq, c: nat)
    requires Valid(r) && r.queue != [] && r.queue[|r.queue| - 1] == c && CfsPick(r) == Some(c)
    ensures forall b :: 0 <= b < |r.entities| && b != c ==> r.entities[c].vruntime < r.entities[b].vruntime
  {
    hide Least, Weight;
    var key := Vruntimes(r.entities);
    var n := LeastIsFirst(key, r.queue);
    forall b | 0 <= b < |r.entities| && b != c ensures r.entities[c].vruntime < r.entities[b].vruntime {
      assert b in r.queue;
      var j :| 0 <= j < |r.queue| && r.queue[j] == b;
      assert key[r.queue[j]] > key[r.queue[n]];
    }
  }

  /** Yield and wake move exactly one entity, to the back and to the front. */
  lemma MovesMeans(rq: Rq, k: nat)
    requires Valid(rq) && k < |rq.queue|
    ensures Enabled(rq, Yield(rq.queue[k])) && Enabled(rq, Wake(rq.queue[k]))
    ensures var q := rq.queue;
            && Step(rq, Yield(q[k])) == rq.(queue := q[..k] + q[k + 1..] + [q[k]])
            && Step(rq, Wake(q[k])) == rq.(queue := [q[k]] + (q[..k] + q[k + 1..]))
  {
    hide Without, Schedule;
    WithoutIsDel(rq.queue, k);
  }

  /** A policy change and a change of the running flag touch that one field of that one entity. */
  lemma SettersMean(rq: Rq, x: nat, p: Policy, b: bool)
    requires Valid(rq) && x < |rq.entities|
    ensures var r := Step(rq, SetPolicy(x, p));
            && r.queue == rq.queue && r.current == rq.current && |r.entities| == |rq.entities|
            && r.entities[x].policy == p && r.entities[x].(policy := rq.entities[x].policy) == rq.entities[x]
            && forall i :: 0 <= i < |rq.entities| && i != x ==> r.entities[i] == rq.entities[i]
    ensures var r := Step(rq, SetRunning(x, b));
            && r.queue == rq.queue && r.current == rq.current && |r.entities| == |rq.entities|
            && r.entities[x].running == b && r.entities[x].(running := rq.entities[x].running) == rq.entities[x]
            && forall i :: 0 <= i < |rq.entities| && i != x ==> r.entities[i] == rq.entities[i]
  {}

  /** Virtual time of one tick at a priority. */
  function TickOf(p: Priority): nat {
    match p
    case Realtime => 2_500_000
    case High => 5_000_000
    case Normal => 10_000_000
    case Low => 20_000_000
  }

  function Rank(p: Priority): nat {
    match p case Low => 0 case Normal => 1 case High => 2 case Realtime => 3
  }

  /** A priority decides how fast virtual time runs: halved from each one to the next higher. Nothing
      else changes, and the next tick advances by exactly that much. */
  lemma PriorityMeans(rq: Rq, x: nat, p: Priority, higher: Priority)
    requires Valid(rq) && x < |rq.entities| && Rank(p) <= Rank(higher)
    ensures var r := Step(rq, SetPriority(x, p));
            var e := rq.entities[x];
            && r.queue == rq.queue && r.current == rq.current && |r.entities| == |rq.entities|
            && (forall i :: 0 <= i < |rq.entities| && i != x ==> r.entities[i] == rq.entities[i])
            && r.entities[x] == e.(priority := p, weight := r.entities[x].weight) && r.entities[x].weight > 0
            && Tick(r.entities[x]).vruntime == (e.vruntime + TickOf(p)) % 0x1_0000_0000_0000_0000
            && (rq.current == Some(x) ==>
                  (Valid(r) && |Step(r, Call).entities| == |rq.entities|
                   && Step(r, Call).entities[x].vruntime == (e.vruntime + TickOf(p)) % 0x1_0000_0000_0000_0000))
    ensures TickOf(higher) <= TickOf(p) && (Rank(p) < Rank(higher) ==> 2 * TickOf(higher) <= TickOf(p))
  {
    hide Least, PickNext, Distinct, Bounded, Without;
    StepValid(rq, SetPriority(x, p));
    var r := Step(rq, SetPriority(x, p));
    assert 10_240_000_000 / r.entities[x].weight == TickOf(p);
    StepValid(r, Call);
    AccountValid(r);
    RequeueValid(Account(r));
  }

  // ----- no starvation

  /** How far virtual time can still advance on the others before e must be least, over the first n. */
  ghost function Gap(es: seq<Entity>, e: nat, n: nat): int
    requires e < |es| && n <= |es|
  {
    if n == 0 then 0
    else Gap(es, e, n - 1)
         + if n - 1 == e then 0
           else Max(es[e].vruntime, SCHED_MAX_TIMESLICE) + LARGEST_STEP - es[n - 1].vruntime
  }

  lemma {:induction false} GapNonnegative(es: seq<Entity>, e: nat, n: nat)
    requires e < |es| && n <= |es|
    requires forall i: nat :: i < |es| ==> FairPair(es, i, e)
    ensures Gap(es, e, n) >= 0
  {
    if n > 0 {
      GapNonnegative(es, e, n - 1);
      assert FairPair(es, n - 1, e);
    }
  }

  lemma {:induction false} GapDrops(es: seq<Entity>, es': seq<Entity>, e: nat, c: nat, n: nat)
    requires e < |es| == |es'| && c < |es| && c != e && n <= |es|
    requires forall i :: 0 <= i < |es| && i != c ==> es'[i].vruntime == es[i].vruntime
    ensures Gap(es', e, n) == Gap(es, e, n) - if c < n then es'[c].vruntime - es[c].vruntime else 0
  {
    if n > 0 { GapDrops(es, es', e, c, n - 1); }
  }

  lemma {:induction false} GapSame(es: seq<Entity>, es': seq<Entity>, e: nat, n: nat)
    requires e < |es| == |es'| && n <= |es|
    requires forall i :: 0 <= i < |es| ==> es'[i].vruntime == es[i].vruntime
    ensures Gap(es', e, n) == Gap(es, e, n)
  {
    if n > 0 { GapSame(es, es', e, n - 1); }
  }

  ghost function Slack(rq: Rq, e: nat): int
    requires e < |rq.entities|
  {
    Gap(rq.entities, e, |rq.entities|) + if rq.current == None then SMALLEST_STEP else 0
  }

  /** Every vruntime the code can produce is a multiple of 32: it starts at zero and every step, and
      2^64 itself, is one. */
  ghost predicate Granular(rq: Rq) {
    forall i :: 0 <= i < |rq.entities| ==> rq.entities[i].vruntime % 32 == 0
  }

  lemma GrainSum(v: nat, s: nat)
    requires v % 32 == 0 && s % 32 == 0 && v < U64 && s < U64
    ensures (v + s) % U64 % 32 == 0
  {
    var t := 32 * (v / 32 + s / 32);
    assert t == v + s;
    if t >= U64 {
      assert t - U64 == 32 * (v / 32 + s / 32 - U64 / 32);
      assert t % U64 == t - U64;
    }
  }

  lemma GrainStep(w: nat)
    requires Weight(w)
    ensures TICK_WORK / w % 32 == 0 && TICK_WORK / w < U64
  {
    assert TICK_WORK / w in {20_000_000, 10_000_000, 5_000_000, 2_500_000};
  }

  lemma StepGranular(rq: Rq, op: Op)
    requires Valid(rq) && Enabled(rq, op) && Granular(rq)
    ensures Granular(Step(rq, op))
  {
    hide Least, PickNext, Distinct, Bounded;
    AccountValid(rq);
    RequeueValid(Account(rq));
    if op.Call? {
      assert Step(rq, op).entities == Account(rq).entities;
      if rq.current.Some? {
        var e := rq.entities[rq.current.value];
        GrainStep(e.weight);
        GrainSum(e.vruntime, TICK_WORK / e.weight);
      }
    }
  }

  lemma SomebodyRuns(rq: Rq)
    requires FairState(rq) && NoWrap(rq) && ByVruntime(rq) && Granular(rq) && rq.entities != []
    ensures Step(rq, Call).current.Some?
  {
    hide Least, PickNext, Schedule, Fair, CurrentLow, ByVruntime;
    CallFair(rq);
    StepGranular(rq, Call);
    StepValid(rq, Call);
    var es := Step(rq, Call).entities;
    assert es[0].vruntime % 32 == 0 && es[0].vruntime < U64;
  }

  lemma {:induction false} GapUp(es: seq<Entity>, es': seq<Entity>, e: nat, n: nat)
    requires e < |es| == |es'| && n <= |es|
    requires forall i :: 0 <= i < |es| && i != e ==> es'[i].vruntime == es[i].vruntime
    requires es[e].vruntime <= es'[e].vruntime <= es[e].vruntime + LARGEST_STEP
    ensures Gap(es', e, n) <= Gap(es, e, n) + n * LARGEST_STEP
  {
    if n > 0 { GapUp(es, es', e, n - 1); }
  }

  /** What one schedule call does to the slack of an entity it does not return. */
  lemma CallSlack(rq: Rq, e: nat)
    requires FairState(rq) && NoWrap(rq) && ByVruntime(rq) && Granular(rq) && e < |rq.entities|
    ensures |Step(rq, Call).entities| == |rq.entities|
    ensures rq.current != Some(e) ==> Slack(Step(rq, Call), e) + SMALLEST_STEP <= Slack(rq, e)
    ensures rq.current == Some(e) ==> Slack(Step(rq, Call), e) <= Slack(rq, e) + |rq.entities| * LARGEST_STEP
  {
    hide Least, PickNext, Schedule, Fair, CurrentLow, ByVruntime;
    TickFair(rq);
    CallFair(rq);
    SomebodyRuns(rq);
    if rq.current == Some(e) {
      GapUp(rq.entities, Account(rq).entities, e, |rq.entities|);
    } else if rq.current.Some? {
      GapDrops(rq.entities, Account(rq).entities, e, rq.current.value, |rq.entities|);
    }
  }

  lemma SlackNonnegative(rq: Rq, e: nat)
    requires FairState(rq) && e < |rq.entities|
    ensures Slack(rq, e) >= 0
  {
    assert forall i: nat :: i < |rq.entities| ==> FairPair(rq.entities, i, e);
    GapNonnegative(rq.entities, e, |rq.entities|);
  }

  /** One more step of the largest size for each entity, if e is the one about to be preempted. */
  ghost function Lead(rq: Rq, e: nat): int {
    if rq.current == Some(e) then SMALLEST_STEP + |rq.entities| * LARGEST_STEP else 0
  }

  /** Every entity comes back: as long as e is not returned, each call uses up part of the slack that
      the others have, so at most (slack + lead) / SMALLEST_STEP calls pass it over. */
  lemma {:induction false} NoStarvation(rq: Rq, ops: seq<Op>, e: nat)
    requires FairState(rq) && Granular(rq)
    requires OnEntities(|rq.entities|, ops) && NoWraps(rq, ops) && ByVruntimes(rq, ops)
    requires e < |rq.entities| && Some(e) !in Returned(rq, ops)
    ensures Calls(ops) * SMALLEST_STEP <= Slack(rq, e) + Lead(rq, e)
    decreases |ops|
  {
    hide FairState, NoWrap, ByVruntime, Step, Slack, Returned, Valid, Granular;
    FairStateValid(rq);
    if ops == [] {
      SlackNonnegative(rq, e);
    } else {
      assert Enabled(rq, ops[0]);
      NotReturned(rq, ops, e);
      StepFair(rq, ops[0]);
      StepGranular(rq, ops[0]);
      NoStarvation(Step(rq, ops[0]), ops[1..], e);
      if ops[0].Call? {
        CallSlack(rq, e);
      } else {
        OtherSlack(rq, ops[0], e);
      }
    }
  }

  lemma OtherSlack(rq: Rq, op: Op, e: nat)
    requires Valid(rq) && Enabled(rq, op) && !op.Call? && e < |rq.entities|
    ensures |Step(rq, op).entities| == |rq.entities| && Slack(Step(rq, op), e) == Slack(rq, e)
  {
    GapSame(rq.entities, Step(rq, op).entities, e, |rq.entities|);
  }

  lemma NotReturned(rq: Rq, ops: seq<Op>, e: nat)
    requires Valid(rq) && OnEntities(|rq.entities|, ops) && ops != []
    requires Some(e) !in Returned(rq, ops) && Enabled(rq, ops[0])
    ensures Valid(Step(rq, ops[0])) && |Step(rq, ops[0]).entities| == |rq.entities|
    ensures if ops[0].Call? then Step(rq, ops[0]).current != Some(e) else Step(rq, ops[0]).current == rq.current
    ensures Some(e) !in Returned(Step(rq, ops[0]), ops[1..])
  {
    hide Step, Schedule, Valid;
    StepValid(rq, ops[0]);
    StepCurrent(rq, ops[0]);
    var r := Returned(Step(rq, ops[0]), ops[1..]);
    if ops[0].Call? {
      assert Returned(rq, ops) == [Schedule(rq).1] + r;
      assert Returned(rq, ops)[0] == Schedule(rq).1;
      assert forall x :: x in r ==> x in Returned(rq, ops);
    } else {
      assert Returned(rq, ops) == r;
    }
  }

  /** Only a schedule call changes who is on the CPU, to what it returns. */
  lemma StepCurrent(rq: Rq, op: Op)
    requires Valid(rq) && Enabled(rq, op)
    ensures Step(rq, op).current == if op.Call? then Schedule(rq).1 else rq.current
  {
    hide Schedule, Valid, Without;
  }

  // ----- the edges of these results

  /** Entities that have not run yet are fair. */
  lemma FreshFair(rq: Rq)
    requires Valid(rq) && rq.current == None
    requires forall i :: 0 <= i < |rq.entities| ==> rq.entities[i].vruntime == 0
    ensures FairState(rq) && Granular(rq)
  {}

  /** A vCPU joins: a default entity at the back of the queue. */
  function Added(rq: Rq, running: bool): Rq {
    rq.(entities := rq.entities + [Entity(0, 0, 0, Cfs, Normal, 1024, running)], queue := rq.queue + [|rq.entities|])
  }

  lemma AddedValid(rq: Rq, running: bool)
    requires Valid(rq)
    ensures Valid(Added(rq, running))
  {
    var r := Added(rq, running);
    var n := |rq.entities|;
    forall i: nat | i < |r.entities| ensures i in r.queue {
      if i == n { assert r.queue[|rq.queue|] == n; } else { assert i in rq.queue; }
    }
  }

  /** Fairness at every point of a run. */
  ghost predicate FairThroughout(rq: Rq, ops: seq<Op>)
    requires Valid(rq) && OnEntities(|rq.entities|, ops)
    decreases |ops|
  {
    Fair(rq) && (ops == [] ||
    (assert Enabled(rq, ops[0]);
     StepValid(rq, ops[0]);
     FairThroughout(Step(rq, ops[0]), ops[1..])))
  }

  lemma TickUnfair(rq: Rq)
    requires FairState(rq) && !NoWrap(rq) && |rq.entities| > 1
    ensures !Fair(Account(rq))
  {
    hide Distinct, Bounded;
    var c := rq.current.value;
    StepSize(rq.entities[c].weight);
    var b := if c == 0 then 1 else 0;
    assert rq.entities[c].vruntime <= Max(rq.entities[b].vruntime, SCHED_MAX_TIMESLICE);
    assert !FairPair(Account(rq).entities, b, c);
  }

  /** A call keeps fairness exactly when the tick does not wrap, or there is nobody to be unfair to. */
  lemma CallFairIff(rq: Rq)
    requires FairState(rq)
    ensures Fair(Step(rq, Call)) <==> NoWrap(rq) || |rq.entities| == 1
  {
    hide Least, PickNext, CurrentLow, Distinct, Bounded;
    AccountValid(rq);
    RequeueValid(Account(rq));
    assert Step(rq, Call).entities == Account(rq).entities;
    if NoWrap(rq) {
      TickFair(rq);
    } else if |rq.entities| > 1 {
      TickUnfair(rq);
    }
  }

  lemma {:induction false} AloneFair(rq: Rq, ops: seq<Op>)
    requires Valid(rq) && OnEntities(|rq.entities|, ops) && |rq.entities| == 1
    ensures FairThroughout(rq, ops)
    decreases |ops|
  {
    hide Step, Valid;
    if ops != [] {
      assert Enabled(rq, ops[0]);
      StepValid(rq, ops[0]);
      AloneFair(Step(rq, ops[0]), ops[1..]);
    }
  }

  /** A run is fair at every point exactly when none of its ticks wraps, or there is only one entity. */
  lemma {:induction false} FairThroughoutIff(rq: Rq, ops: seq<Op>)
    requires FairState(rq) && OnEntities(|rq.entities|, ops) && ByVruntimes(rq, ops)
    ensures FairThroughout(rq, ops) <==> NoWraps(rq, ops) || |rq.entities| == 1
    decreases |ops|
  {
    hide Step, Valid, NoWrap, ByVruntime, CurrentLow, Fair;
    if |rq.entities| == 1 {
      AloneFair(rq, ops);
    } else if ops != [] {
      assert Enabled(rq, ops[0]);
      StepValid(rq, ops[0]);
      if ops[0].Call? && !NoWrap(rq) {
        CallFairIff(rq);
      } else {
        StepFair(rq, ops[0]);
        FairThroughoutIff(Step(rq, ops[0]), ops[1..]);
      }
    }
  }

  const TOP: nat := (U64 - 1) / SCHED_TICK_NS   // the last tick of a default entity that does not wrap

  /** A default entity after i ticks below TOP. */
  function Ticked(i: nat): Entity {
    Entity(i * SCHED_TICK_NS, i * SCHED_TICK_NS, 0, Cfs, Normal, 1024, true)
  }

  /** Two default entities after i and j ticks. */
  function Duo(i: nat, j: nat, queue: seq<nat>, current: Option<nat>): Rq {
    Rq([Ticked(i), Ticked(j)], queue, current)
  }

  lemma DuoValid(i: nat, j: nat, q: seq<nat>, c: Option<nat>)
    requires i <= TOP && j <= TOP && (q == [0, 1] || q == [1, 0]) && (c.Some? ==> c.value < 2)
    ensures Valid(Duo(i, j, q, c))
  {
    var rq := Duo(i, j, q, c);
    assert q[0] in q && q[1] in q;
  }

  lemma DuoPick(i: nat, j: nat, q: seq<nat>, c: Option<nat>)
    requires i <= TOP && j <= TOP && (q == [0, 1] || q == [1, 0]) && (c.Some? ==> c.value < 2)
    ensures Valid(Duo(i, j, q, c))
    ensures PickNext(Duo(i, j, q, c)) == Some(if i < j then 0 else if j < i then 1 else q[0])
  {
    DuoValid(i, j, q, c);
    var key := Vruntimes(Duo(i, j, q, c).entities);
    assert q[..1] == [q[0]] && [q[0]][..0] == [];
    assert Least(key, [q[0]]) == Some(q[0]);
  }

  /** The first entity runs, is requeued at 100 ms or later, and the second, which is behind, follows. */
  lemma DuoFirst(i: nat, j: nat)
    requires j <= i < TOP
    ensures Valid(Duo(i, j, [0, 1], Some(0)))
    ensures Step(Duo(i, j, [0, 1], Some(0)), Call)
            == if i < 9 then Duo(i + 1, j, [0, 1], Some(0)) else Duo(i + 1, j, [1, 0], Some(1))
  {
    hide PickNext, Valid;
    DuoValid(i, j, [0, 1], Some(0));
    DuoPick(i + 1, j, [1, 0], Some(0));
    assert Account(Duo(i, j, [0, 1], Some(0))) == Duo(i + 1, j, [0, 1], Some(0));
    assert Requeue(Duo(i + 1, j, [0, 1], Some(0))) == Duo(i + 1, j, [1, 0], Some(0));
  }

  lemma DuoSecond(i: nat, j: nat)
    requires j < i <= TOP && (j < 9 || j + 1 == i)
    ensures Valid(Duo(i, j, [1, 0], Some(1)))
    ensures Step(Duo(i, j, [1, 0], Some(1)), Call)
            == if j < 9 then Duo(i, j + 1, [1, 0], Some(1)) else Duo(i, j + 1, [0, 1], Some(0))
  {
    hide PickNext, Valid;
    DuoValid(i, j, [1, 0], Some(1));
    DuoPick(i, j + 1, [0, 1], Some(1));
    assert Account(Duo(i, j, [1, 0], Some(1))) == Duo(i, j + 1, [1, 0], Some(1));
    assert Without([1, 0], 1) == [0];
    assert Requeue(Duo(i, j + 1, [1, 0], Some(1))) == Duo(i, j + 1, [0, 1], Some(1));
  }

  function Ticks(n: nat): seq<Op> { seq(n, _ => Call) }

  /** n schedule calls take rq to two entities after top ticks each, the first one on the CPU. */
  ghost predicate Meets(rq: Rq, n: nat, top: nat) {
    Valid(rq) && Run(rq, Ticks(n)) == Duo(top, top, [0, 1], Some(0))
  }

  lemma MeetsStep(rq: Rq, n: nat, top: nat)
    requires Valid(rq) && Meets(Step(rq, Call), n, top)
    ensures Meets(rq, n + 1, top)
  {
    hide Step, Valid;
    assert Ticks(n + 1)[1..] == Ticks(n) && Ticks(n + 1)[0] == Call;
  }

  lemma MeetsNow(top: nat)
    requires top <= TOP
    ensures Meets(Duo(top, top, [0, 1], Some(0)), 0, top)
  {
    DuoValid(top, top, [0, 1], Some(0));
  }

  lemma {:induction false} SwingMeets(i: nat, top: nat)
    requires 10 <= i <= top <= TOP
    ensures Meets(Duo(i, i, [0, 1], Some(0)), 2 * (top - i), top)
    decreases top - i
  {
    hide Step, Valid, Run, Meets;
    if i == top {
      MeetsNow(top);
    } else {
      SwingMeets(i + 1, top);
      DuoSecond(i + 1, i);
      MeetsStep(Duo(i + 1, i, [1, 0], Some(1)), 2 * (top - i) - 2, top);
      DuoFirst(i, i);
      MeetsStep(Duo(i, i, [0, 1], Some(0)), 2 * (top - i) - 1, top);
    }
  }

  lemma {:induction false} SecondMeets(j: nat, top: nat)
    requires j < 10 <= top <= TOP
    ensures Meets(Duo(10, j, [1, 0], Some(1)), 2 * top - 10 - j, top)
    decreases 10 - j
  {
    hide Step, Valid, Run, Meets;
    DuoSecond(10, j);
    if j < 9 { SecondMeets(j + 1, top); } else { SwingMeets(10, top); }
    MeetsStep(Duo(10, j, [1, 0], Some(1)), 2 * top - 11 - j, top);
  }

  lemma {:induction false} FirstMeets(i: nat, top: nat)
    requires i < 10 <= top <= TOP
    ensures Meets(Duo(i, 0, [0, 1], Some(0)), 2 * top - i, top)
    decreases 10 - i
  {
    hide Step, Valid, Run, Meets;
    DuoFirst(i, 0);
    if i < 9 { FirstMeets(i + 1, top); } else { SecondMeets(0, top); }
    MeetsStep(Duo(i, 0, [0, 1], Some(0)), 2 * top - i - 1, top);
  }

  /** Two default entities that have not run yet stand level after 2 * top + 1 calls, for every top
      from the slice to the end of the 64-bit range. */
  lemma FreshMeets(top: nat)
    requires 10 <= top <= TOP
    ensures Meets(Duo(0, 0, [0, 1], None), 2 * top + 1, top)
    ensures FairState(Duo(top, top, [0, 1], Some(0)))
  {
    hide Step, Run, Least, PickNext, Meets;
    FirstMeets(0, top);
    FreshCall();
    MeetsStep(Duo(0, 0, [0, 1], None), 2 * top, top);
    DuoValid(top, top, [0, 1], Some(0));
  }

  /** Two default entities that have not run yet: after enough schedule calls both stand at the top of
      the 64-bit range, still in a fair state, and the next call loses fairness. */
  lemma WrapLosesFairness(rq: Rq)
    requires rq == Duo(0, 0, [0, 1], None)
    ensures Meets(rq, 3_689_348_814_741, 1_844_674_407_370)
    ensures var top := Run(rq, Ticks(3_689_348_814_741)); FairState(top) && !Fair(Step(top, Call))
  {
    hide Step, Run, Least, PickNext;
    FreshMeets(TOP);
    CallFairIff(Duo(TOP, TOP, [0, 1], Some(0)));
  }

  lemma FreshCall()
    ensures Valid(Duo(0, 0, [0, 1], None))
    ensures Step(Duo(0, 0, [0, 1], None), Call) == Duo(0, 0, [0, 1], Some(0))
  {
    hide PickNext, Valid;
    DuoPick(0, 0, [0, 1], None);
  }

  // ----- a vCPU that joins

  /** Nobody is more than one step beyond the slice, and the entity on the CPU is not beyond it. */
  ghost predicate Joinable(rq: Rq) {
    && (forall i :: 0 <= i < |rq.entities| ==> rq.entities[i].vruntime <= SCHED_MAX_TIMESLICE + LARGEST_STEP)
    && (rq.current.Some? && rq.current.value < |rq.entities| ==>
          rq.entities[rq.current.value].vruntime <= SCHED_MAX_TIMESLICE)
  }

  lemma AddFair(rq: Rq, running: bool)
    requires FairState(rq)
    ensures Fair(Added(rq, running)) <==>
            forall i :: 0 <= i < |rq.entities| ==> rq.entities[i].vruntime <= SCHED_MAX_TIMESLICE + LARGEST_STEP
  {
    var r := Added(rq, running);
    var n := |rq.entities|;
    if Fair(r) {
      forall i | 0 <= i < n ensures rq.entities[i].vruntime <= SCHED_MAX_TIMESLICE + LARGEST_STEP {
        assert FairPair(r.entities, i, n);
      }
    } else {
      var a: nat, b: nat :| a < |r.entities| && b < |r.entities| && !FairPair(r.entities, a, b);
      assert a < n && (b < n ==> FairPair(rq.entities, a, b));
    }
  }

  /** A newcomer starts at virtual time zero. The fairness invariant survives it exactly in a joinable state. */
  lemma AddFairIff(rq: Rq, running: bool)
    requires FairState(rq)
    ensures FairState(Added(rq, running)) <==> Joinable(rq)
  {
    hide Distinct, Bounded, Weight, Fair;
    AddedValid(rq, running);
    AddFair(rq, running);
    var r := Added(rq, running);
    if rq.current.Some? {
      var c := rq.current.value;
      assert r.entities[c] == rq.entities[c] && r.entities[|rq.entities|].vruntime == 0;
      assert forall b :: 0 <= b < |rq.entities| ==> r.entities[b] == rq.entities[b];
    }
  }

  /** Every run from rq in which no tick wraps and calls go by virtual time is fair at every point. */
  ghost predicate FairFrom(rq: Rq)
    requires Valid(rq)
  {
    forall ops :: OnEntities(|rq.entities|, ops) && NoWraps(rq, ops) && ByVruntimes(rq, ops) ==> FairThroughout(rq, ops)
  }

  /** What breaks fairness after a bad join: the newcomer is woken to the front, the entity on the CPU
      gets the lowest weight, and a call comes. */
  function BadJoin(c: nat, n: nat): seq<Op> { [Wake(n), SetPriority(c, Low), Call] }

  /** The state before the call of BadJoin. */
  ghost function Woken(rq: Rq, running: bool): Rq
    requires Valid(rq) && rq.current.Some?
  {
    AddedValid(rq, running);
    StepValid(Added(rq, running), Wake(|rq.entities|));
    Step(Step(Added(rq, running), Wake(|rq.entities|)), SetPriority(rq.current.value, Low))
  }

  lemma WokenCall(rq: Rq, running: bool)
    requires FairState(rq) && rq.current.Some?
    requires SCHED_MAX_TIMESLICE < rq.entities[rq.current.value].vruntime <= SCHED_MAX_TIMESLICE + LARGEST_STEP
    ensures Valid(Woken(rq, running)) && |Woken(rq, running).entities| == |rq.entities| + 1
    ensures NoWrap(Woken(rq, running)) && ByVruntime(Woken(rq, running))
    ensures !Fair(Step(Woken(rq, running), Call))
  {
    hide Least, PickNext, Distinct, Bounded;
    var c, n := rq.current.value, |rq.entities|;
    var w := Woken(rq, running);
    AddedValid(rq, running);
    StepValid(Added(rq, running), Wake(n));
    StepValid(Step(Added(rq, running), Wake(n)), SetPriority(c, Low));
    AccountValid(w);
    RequeueValid(Account(w));
    assert w.queue[0] == n != c && Requeue(Account(w)).queue[0] == n;
    assert Step(w, Call).entities == Account(w).entities;
    assert !FairPair(Account(w).entities, c, n);
  }

  lemma BadJoinUnfair(rq: Rq, running: bool)
    requires FairState(rq) && rq.current.Some?
    requires SCHED_MAX_TIMESLICE < rq.entities[rq.current.value].vruntime <= SCHED_MAX_TIMESLICE + LARGEST_STEP
    ensures (AddedValid(rq, running); !FairFrom(Added(rq, running)))
  {
    hide Step, Valid, Fair, CurrentLow, NoWrap, ByVruntime;
    var c, n, r := rq.current.value, |rq.entities|, Added(rq, running);
    AddedValid(rq, running);
    StepValid(r, Wake(n));
    StepValid(Step(r, Wake(n)), SetPriority(c, Low));
    WokenCall(rq, running);
    var w := Woken(rq, running);
    StepValid(w, Call);
    var ops := BadJoin(c, n);
    assert ops[1..] == [SetPriority(c, Low), Call] && ops[1..][1..] == [Call] && [Call][1..] == [];
    assert !FairThroughout(w, [Call]) && NoWraps(w, [Call]) && ByVruntimes(w, [Call]);
    assert !FairThroughout(Step(r, Wake(n)), ops[1..]) && NoWraps(Step(r, Wake(n)), ops[1..]);
    assert ByVruntimes(Step(r, Wake(n)), ops[1..]);
    assert !FairThroughout(r, ops) && NoWraps(r, ops) && ByVruntimes(r, ops);
  }

  /** All runs after a join are fair at every point exactly if the state was joinable. */
  lemma JoinFairIff(rq: Rq, running: bool)
    requires FairState(rq)
    ensures (AddedValid(rq, running); FairFrom(Added(rq, running)) <==> Joinable(rq))
  {
    hide Step, Fair, NoWrap, NoWraps, ByVruntime, ByVruntimes, FairThroughout, Distinct, Bounded, CurrentLow;
    AddedValid(rq, running);
    var r := Added(rq, running);
    AddFairIff(rq, running);
    if Joinable(rq) {
      forall ops | OnEntities(|r.entities|, ops) && NoWraps(r, ops) && ByVruntimes(r, ops)
        ensures FairThroughout(r, ops)
      {
        FairThroughoutIff(r, ops);
      }
    } else {
      AddFair(rq, running);
      if Fair(r) {
        BadJoinUnfair(rq, running);
      } else {
        StillUnfair(r);
      }
    }
  }

  lemma StillUnfair(rq: Rq)
    requires Valid(rq) && !Fair(rq)
    ensures !FairFrom(rq)
  {
    assert NoWraps(rq, []) && ByVruntimes(rq, []) && !FairThroughout(rq, []);
  }

  /** Two default vCPUs after 25 calls stand at 120 ms. A third that joins finds a fair state, but the
      next call, which does not wrap, makes it unfair; after 27 calls the join itself does. */
  lemma JoinUnfair(rq: Rq, running: bool)
    requires rq == Duo(0, 0, [0, 1], None)
    ensures Meets(rq, 25, 12) && Meets(rq, 27, 13)
    ensures var r := Added(Run(rq, Ticks(25)), running);
            Fair(r) && Valid(r) && NoWrap(r) && ByVruntime(r) && !Fair(Step(r, Call))
    ensures !Fair(Added(Run(rq, Ticks(27)), running))
  {
    hide Step, Run, Least, PickNext;
    FreshMeets(12);
    FreshMeets(13);
    AddFair(Duo(12, 12, [0, 1], Some(0)), running);
    AddFair(Duo(13, 13, [0, 1], Some(0)), running);
    assert Duo(13, 13, [0, 1], Some(0)).entities[0].vruntime == 130_000_000;
    ThirdCall(running);
  }

  lemma ThirdCall(running: bool)
    ensures var r := Added(Duo(12, 12, [0, 1], Some(0)), running);
            Valid(r) && NoWrap(r) && ByVruntime(r) && !Fair(Step(r, Call))
  {
    hide Least, PickNext;
    var r := Added(Duo(12, 12, [0, 1], Some(0)), running);
    DuoValid(12, 12, [0, 1], Some(0));
    AddedValid(Duo(12, 12, [0, 1], Some(0)), running);
    AccountValid(r);
    RequeueValid(Account(r));
    assert NoFifo(r);
    assert Step(r, Call).entities == Account(r).entities;
    assert !FairPair(Account(r).entities, 0, 2);
  }

  /** n calls of scheduler_schedule with nobody storing the result. */
  ghost function Unstored(rq: Rq, n: nat): seq<Option<nat>>
    requires Valid(rq)
    decreases n
  {
    if n == 0 then [] else
      ScheduleValid(rq);
      [Schedule(rq).1] + Unstored(Schedule(rq).0, n - 1)
  }

  lemma ScheduleValid(rq: Rq)
    requires Valid(rq)
    ensures Valid(Schedule(rq).0)
  {
    AccountValid(rq);
    RequeueValid(Account(rq));
  }

  /** The code itself never stores current: the same entity is returned for ever and all others starve. */
  lemma {:induction false} UnstoredStarves(rq: Rq, n: nat)
    requires Valid(rq) && rq.current == None
    ensures |Unstored(rq, n)| == n
    ensures forall k :: 0 <= k < n ==> Unstored(rq, n)[k] == PickNext(rq)
  {
    if n > 0 { UnstoredStarves(rq, n - 1); }
  }

  /** Selection behind a FIFO or round-robin head: the first FIFO entity with the earliest deadline
      if any FIFO entity has one, and otherwise, as behind any other head, the least vruntime. */
  lemma PickByPolicy(rq: Rq) returns (n: nat)
    requires Valid(rq) && rq.queue != []
    ensures PickNext(rq).Some? ==> n < |rq.queue| && PickNext(rq).value == rq.queue[n]
    ensures var head := rq.entities[rq.queue[0]].policy;
            var deadlines := (head == Fifo || head == RoundRobin)
              && exists j :: 0 <= j < |rq.queue| && rq.entities[rq.queue[j]].policy == Fifo
                             && rq.entities[rq.queue[j]].deadline < U64 - 1;
            if deadlines
            then PickNext(rq).Some? && FirstLeast(Deadlines(rq.entities), rq.queue, n)
                 && rq.entities[rq.queue[n]].policy == Fifo
            else (PickNext(rq).Some? ==> FirstLeast(Vruntimes(rq.entities), rq.queue, n))
                 && (PickNext(rq) == None ==>
                       forall j :: 0 <= j < |rq.queue| ==> rq.entities[rq.queue[j]].vruntime >= U64 - 1)
  {
    hide Least, Distinct, Weight;
    var dl, vr := Deadlines(rq.entities), Vruntimes(rq.entities);
    var d := LeastIsFirst(dl, rq.queue);
    n := LeastIsFirst(vr, rq.queue);
    assert forall j :: 0 <= j < |rq.queue| ==>
             vr[rq.queue[j]] == rq.entities[rq.queue[j]].vruntime
             && (rq.entities[rq.queue[j]].policy == Fifo ==> dl[rq.queue[j]] == rq.entities[rq.queue[j]].deadline);
    var head := rq.entities[rq.queue[0]].policy;
    if (head == Fifo || head == RoundRobin) && Least(dl, rq.queue).Some? {
      n := d;
      assert dl[rq.queue[n]] < U64 - 1;
    }
  }

  // ----- the operations on the linked run queue

  /** The list nodes of the entities of a queue. */
  ghost function NodesOf(q: seq<nat>, nodes: seq<L.Node>): (r: seq<L.Node>)
    requires Bounded(q, |nodes|)
    ensures |r| == |q| && forall i :: 0 <= i < |r| ==> r[i] == nodes[q[i]]
    ensures forall x :: x in r ==> x in nodes
  {
    seq(|q|, i requires 0 <= i < |q| => nodes[q[i]])
  }

  lemma NodesCat(a: seq<nat>, b: seq<nat>, nodes: seq<L.Node>)
    requires Bounded(a, |nodes|) && Bounded(b, |nodes|)
    ensures Bounded(a + b, |nodes|) && NodesOf(a + b, nodes) == NodesOf(a, nodes) + NodesOf(b, nodes)
  {}

  lemma NodesGrow(q: seq<nat>, nodes: seq<L.Node>, node: L.Node)
    requires Bounded(q, |nodes|)
    ensures Bounded(q + [|nodes|], |nodes + [node]|)
    ensures NodesOf(q + [|nodes|], nodes + [node]) == NodesOf(q, nodes) + [node]
  {}

  lemma NodesAround(q: seq<nat>, nodes: seq<L.Node>, k: nat)
    requires Bounded(q, |nodes|) && k < |q|
    ensures Bounded(q[..k], |nodes|) && NodesOf(q[..k], nodes) == NodesOf(q, nodes)[..k]
    ensures Bounded([q[k]], |nodes|) && NodesOf([q[k]], nodes) == [NodesOf(q, nodes)[k]]
    ensures Bounded(q[k + 1..], |nodes|) && NodesOf(q[k + 1..], nodes) == NodesOf(q, nodes)[k + 1..]
  {}

  lemma JoinNodes(a: seq<nat>, x: seq<nat>, b: seq<nat>, nodes: seq<L.Node>)
    requires Bounded(a, |nodes|) && Bounded(x, |nodes|) && Bounded(b, |nodes|)
    ensures Bounded(a + b + x, |nodes|) && Bounded(x + (a + b), |nodes|)
    ensures NodesOf(a + b + x, nodes) == NodesOf(a, nodes) + NodesOf(b, nodes) + NodesOf(x, nodes)
    ensures NodesOf(x + (a + b), nodes) == NodesOf(x, nodes) + (NodesOf(a, nodes) + NodesOf(b, nodes))
  {
    hide Bounded, NodesOf;
    NodesCat(a, b, nodes);
    NodesCat(a + b, x, nodes);
    NodesCat(x, a + b, nodes);
  }

  /** Moving an entity to an end of the queue is moving its node to that end of the list. */
  lemma MovedNodes(q: seq<nat>, nodes: seq<L.Node>, k: nat)
    requires Distinct(q) && Bounded(q, |nodes|) && k < |q|
    ensures Bounded(Without(q, q[k]) + [q[k]], |nodes|) && Bounded([q[k]] + Without(q, q[k]), |nodes|)
    ensures var s, w := NodesOf(q, nodes), Without(q, q[k]);
            && NodesOf(w + [q[k]], nodes) == s[..k] + s[k + 1..] + [s[k]]
            && NodesOf([q[k]] + w, nodes) == [s[k]] + (s[..k] + s[k + 1..])
  {
    hide Without, Distinct, Bounded, NodesOf;
    WithoutIsDel(q, k);
    NodesAround(q, nodes, k);
    JoinNodes(q[..k], [q[k]], q[k + 1..], nodes);
  }

  /** A cpu_runqueue_t: entities with their embedded list nodes, linked in queue order. */
  class RunQueue {
    const head: L.Node
    var entities: seq<Entity>
    var nodes: seq<L.Node>
    var current: Option<nat>
    ghost var queue: seq<nat>

    ghost function State(): Rq
      reads this
    {
      Rq(entities, queue, current)
    }

    /** The list at head runs through the nodes of the queue, and list_entry gives their entities. */
    ghost predicate Linked()
      reads this, head, nodes
    {
      && |nodes| == |entities| && head !in nodes
      && (forall i :: 0 <= i < |nodes| ==> nodes[i].entry == i)
      && Bounded(queue, |nodes|)
      && L.Ring(head, NodesOf(queue, nodes))
    }

    constructor ()
      ensures Valid(State()) && Linked() && State() == Rq([], [], None) && fresh(head)
    {
      head := new L.Node(0);
      entities, nodes, current, queue := [], [], None, [];
    }

    method AddVcpu(running: bool)
      requires Valid(State()) && Linked()
      modifies this`entities, this`nodes, this`queue, head, nodes
      ensures Valid(State()) && Linked() && State() == Added(old(State()), running)
      ensures entities == old(entities) + [Entity(0, 0, 0, Cfs, Normal, 1024, running)]
      ensures queue == old(queue) + [|old(entities)|] && current == old(current)
      ensures forall x :: x in nodes ==> x in old(nodes) || fresh(x)
    {
      hide Valid, Distinct, Without, L.Cyclic;
      AddedValid(State(), running);
      var n := |entities|;
      var node := new L.Node(n);
      ghost var s := NodesOf(queue, nodes);
      L.LastIsPrev(head, s);
      NodesGrow(queue, nodes, node);
      L.AddTail(node, head, s);
      entities := entities + [Entity(0, 0, 0, Cfs, Normal, 1024, running)];
      nodes := nodes + [node];
      queue := queue + [n];
    }

    method CfsPickNext() returns (best: Option<nat>)
      requires Valid(State()) && Linked()
      ensures best == CfsPick(State())
    {
      hide Distinct, Weight, Least, L.Ring;
      best := None;
      var minVruntime := U64 - 1;
      ghost var key := Vruntimes(entities);
      ghost var n := 0;
      ghost var s := NodesOf(queue, nodes);
      L.RingFirst(head, s);
      LeastNone(key, queue);
      var pos := head.next;
      while pos != head
        invariant 0 <= n <= |queue| && pos == if n < |queue| then s[n] else head
        invariant best == Least(key, queue[..n]) && minVruntime == MinKey(key, best)
        invariant best.Some? ==> best.value < |key|
        decreases |queue| - n
      {
        var se := pos.entry;
        LeastNext(key, queue, n);
        if entities[se].vruntime < minVruntime {
          minVruntime := entities[se].vruntime;
          best := Some(se);
        }
        L.RingNext(head, s, n);
        pos := pos.next;
        n := n + 1;
      }
      assert queue[..n] == queue;
    }

    method FifoPickNext() returns (next: Option<nat>)
      requires Valid(State()) && Linked()
      ensures next == FifoPick(State())
    {
      hide Distinct, Weight, Least, CfsPick, L.Ring;
      next := None;
      var minDeadline := U64 - 1;
      ghost var key := Deadlines(entities);
      ghost var n := 0;
      ghost var s := NodesOf(queue, nodes);
      L.RingFirst(head, s);
      LeastNone(key, queue);
      var pos := head.next;
      while pos != head
        invariant 0 <= n <= |queue| && pos == if n < |queue| then s[n] else head
        invariant next == Least(key, queue[..n]) && minDeadline == MinKey(key, next) <= U64 - 1
        invariant next.Some? ==> next.value < |key|
        decreases |queue| - n
      {
        var se := pos.entry;
        LeastNext(key, queue, n);
        if entities[se].policy == Fifo && entities[se].deadline < minDeadline {
          minDeadline := entities[se].deadline;
          next := Some(se);
        }
        L.RingNext(head, s, n);
        pos := pos.next;
        n := n + 1;
      }
      assert queue[..n] == queue;
      if next == None {
        next := CfsPickNext();
      }
    }

    method AccountTick()
      requires Valid(State()) && Linked()
      modifies this`entities
      ensures Valid(State()) && Linked() && State() == Account(old(State()))
    {
      hide Distinct, Bounded, NodesOf, L.Ring;
      AccountValid(State());
      if current.Some? {
        var c := current.value;
        var e := entities[c];
        entities := entities[c := e.(runtime := (e.runtime + SCHED_TICK_NS) % U64,
                                     vruntime := (e.vruntime + SCHED_TICK_NS * 1024 / e.weight) % U64)];
      }
    }

    method Reschedule() returns (next: Option<nat>)
      requires Valid(State()) && Linked()
      modifies this`entities, this`queue, head, nodes
      ensures Valid(State()) && Linked() && (State(), next) == Schedule(old(State()))
    {
      hide Least, CfsPick, FifoPick, Account, Without, Distinct, Weight, L.Ring;
      AccountTick();
      if current.Some? {
        var c := current.value;
        if entities[c].running && entities[c].vruntime < SCHED_MAX_TIMESLICE {
          return current;
        }
        YieldTo(c);
      }
      L.RingFirst(head, NodesOf(queue, nodes));
      next := None;
      if head.next != head {
        match entities[head.next.entry].policy {
          case Fifo => next := FifoPickNext();
          case RoundRobin => next := FifoPickNext();
          case _ => next := CfsPickNext();
        }
      }
    }

    method YieldTo(x: nat)
      requires Valid(State()) && Linked() && x < |entities|
      modifies this`queue, head, nodes
      ensures Valid(State()) && Linked() && State() == Step(old(State()), Yield(x))
    {
      hide Without, Weight, L.Ring;
      MoveValid(State(), x);
      assert x in queue;
      ghost var k :| 0 <= k < |queue| && queue[k] == x;
      MovedNodes(queue, nodes, k);
      L.MoveToTail(nodes[x], head, NodesOf(queue, nodes), k);
      queue := Without(queue, x) + [x];
    }

    method WakeUp(x: nat)
      requires Valid(State()) && Linked() && x < |entities|
      modifies this`queue, head, nodes
      ensures Valid(State()) && Linked() && State() == Step(old(State()), Wake(x))
    {
      hide Without, Weight, L.Ring;
      MoveValid(State(), x);
      assert x in queue;
      ghost var k :| 0 <= k < |queue| && queue[k] == x;
      MovedNodes(queue, nodes, k);
      L.MoveToFront(nodes[x], head, NodesOf(queue, nodes), k);
      queue := [x] + Without(queue, x);
    }

    method ChangePriority(x: nat, p: Priority)
      requires Valid(State()) && Linked() && x < |entities|
      modifies this`entities
      ensures Valid(State()) && Linked() && State() == Step(old(State()), SetPriority(x, p))
      ensures entities[x].priority == p
      ensures entities[x].weight
              == if p == Realtime then 4096 else if p == High then 2048 else if p == Normal then 1024 else 512
    {
      StepValid(State(), SetPriority(x, p));
      var weight := 512;
      match p {
        case Realtime => weight := 4096;
        case High => weight := 2048;
        case Normal => weight := 1024;
        case Low =>
      }
      entities := entities[x := entities[x].(priority := p, weight := weight)];
    }

    method ChangePolicy(x: nat, p: Policy)
      requires Valid(State()) && Linked() && x < |entities|
      modifies this`entities
      ensures Valid(State()) && Linked() && State() == Step(old(State()), SetPolicy(x, p))
    {
      StepValid(State(), SetPolicy(x, p));
      entities := entities[x := entities[x].(policy := p)];
    }
  }
}
