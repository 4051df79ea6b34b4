/** Selection by deadline in src/hypervisor/sched/scheduler.c: who is returned, for ever or never,
    from a queue of FIFO and round-robin vCPUs. */
module FifoScheduling {
  import opened Common
  import opened Scheduler

  /** Every entity has policy FIFO or RR, so every selection starts by deadline. */
  ghost predicate FifoQueue(rq: Rq) {
    && Valid(rq)
    && (forall i :: 0 <= i < |rq.entities| ==> rq.entities[i].policy == Fifo || rq.entities[i].policy == RoundRobin)
  }

  /** x holds the least key, below ~0. */
  ghost predicate LeastKey(key: seq<nat>, x: nat) {
    x < |key| && key[x] < U64 - 1 && forall i :: 0 <= i < |key| ==> key[x] <= key[i]
  }

  /** x is a FIFO entity with a deadline below ~0, and no FIFO entity has an earlier one. */
  ghost predicate LeastDeadline(es: seq<Entity>, x: nat) {
    && x < |es| && es[x].policy == Fifo && es[x].deadline < U64 - 1
    && (forall i :: 0 <= i < |es| && es[i].policy == Fifo ==> es[x].deadline <= es[i].deadline)
  }

  lemma LeastDeadlineKey(es: seq<Entity>, x: nat)
    ensures LeastKey(Deadlines(es), x) <==> LeastDeadline(es, x)
  {
    var key := Deadlines(es);
    if LeastKey(key, x) {
      forall i | 0 <= i < |es| && es[i].policy == Fifo ensures es[x].deadline <= es[i].deadline {
        assert key[x] <= key[i];
      }
    }
  }

  /** Calls that change no policy. */
  ghost predicate KeepsPolicies(ops: seq<Op>) {
    forall i :: 0 <= i < |ops| ==> !ops[i].SetPolicy?
  }

  // ----- one step

  /** The deadline scan over a queue of FIFO and RR entities. */
  lemma DeadlinePick(rq: Rq) returns (n: nat)
    requires FifoQueue(rq) && !NoFifo(rq)
    ensures n < |rq.queue| && PickNext(rq) == Some(rq.queue[n])
    ensures var key := Deadlines(rq.entities);
            LeastKey(key, rq.queue[n]) && forall j :: 0 <= j < n ==> !LeastKey(key, rq.queue[j])
  {
    hide Least, CfsPick, Distinct, Weight;
    var key := Deadlines(rq.entities);
    n := LeastIsFirst(key, rq.queue);
    var f :| 0 <= f < |rq.entities| && rq.entities[f].policy == Fifo && rq.entities[f].deadline < U64 - 1;
    assert f in rq.queue && key[f] < U64 - 1;
    assert rq.queue[0] < |rq.entities|;
    forall i | 0 <= i < |key| ensures key[rq.queue[n]] <= key[i] {
      assert i in rq.queue;
      var j :| 0 <= j < |rq.queue| && rq.queue[j] == i;
    }
  }

  /** No call but a policy change touches what the deadline scan looks at. */
  lemma StepKeeps(rq: Rq, op: Op)
    requires FifoQueue(rq) && Enabled(rq, op) && !op.SetPolicy?
    ensures FifoQueue(Step(rq, op)) && Deadlines(Step(rq, op).entities) == Deadlines(rq.entities)
    ensures |Step(rq, op).entities| == |rq.entities| && (NoFifo(Step(rq, op)) <==> NoFifo(rq))
  {
    hide Least, PickNext, Distinct, Bounded, Without, Weight;
    StepValid(rq, op);
    AccountValid(rq);
    RequeueValid(Account(rq));
    if op.Call? { assert Step(rq, op).entities == Account(rq).entities; }
    var es, es' := rq.entities, Step(rq, op).entities;
    assert forall i :: 0 <= i < |es| ==> es'[i].policy == es[i].policy && es'[i].deadline == es[i].deadline;
    if !NoFifo(rq) {
      var f :| 0 <= f < |es| && es[f].policy == Fifo && es[f].deadline < U64 - 1;
      assert es'[f].policy == Fifo && es'[f].deadline < U64 - 1;
    }
  }

  /** A call returns the entity that runs on, or one with the least deadline. */
  lemma CallByDeadline(rq: Rq)
    requires FifoQueue(rq) && !NoFifo(rq)
    ensures var next := Schedule(rq).1;
            next.Some? && (next == rq.current || LeastKey(Deadlines(rq.entities), next.value))
    ensures Step(rq, Call).current == Schedule(rq).1
  {
    hide Least, PickNext, Distinct, Bounded, Without, Weight, NoFifo, LeastKey;
    AccountValid(rq);
    var r := Account(rq);
    if !Continues(r) {
      RequeueValid(r);
      StepKeeps(rq, Call);
      assert Step(rq, Call).entities == r.entities;
      SameEntities(Step(rq, Call), Requeue(r));
      var n := DeadlinePick(Requeue(r));
    }
  }

  lemma SameEntities(rq: Rq, r: Rq)
    requires FifoQueue(rq) && Valid(r) && r.entities == rq.entities
    ensures FifoQueue(r) && (NoFifo(r) <==> NoFifo(rq))
  {}

  // ----- who is never returned

  /** While some FIFO entity has a deadline, an entity that does not hold the least one and is not on
      the CPU never gets there, whatever is called and however long the run. */
  lemma {:induction false} FifoStarves(rq: Rq, ops: seq<Op>, e: nat)
    requires FifoQueue(rq) && !NoFifo(rq) && OnEntities(|rq.entities|, ops) && KeepsPolicies(ops)
    requires rq.current != Some(e) && !LeastKey(Deadlines(rq.entities), e)
    ensures Some(e) !in Returned(rq, ops)
    decreases |ops|
  {
    hide Step, Schedule, NoFifo, LeastKey, Valid, Deadlines;
    if ops != [] {
      FifoQueueValid(rq);
      assert Enabled(rq, ops[0]);
      StepKeeps(rq, ops[0]);
      if ops[0].Call? { CallByDeadline(rq); } else { StepCurrent(rq, ops[0]); }
      FifoStarves(Step(rq, ops[0]), ops[1..], e);
    }
  }

  lemma FifoQueueValid(rq: Rq)
    requires FifoQueue(rq)
    ensures Valid(rq)
  {}

  /** Two default vCPUs, one made FIFO and one made RR before either has run: the second never runs. */
  lemma DefaultFifoStarves(rq: Rq, ops: seq<Op>)
    requires rq == Duo(0, 0, [0, 1], None) && OnEntities(2, ops) && KeepsPolicies(ops)
    ensures Valid(rq) && Valid(Step(rq, SetPolicy(0, Fifo)))
    ensures var r := Step(Step(rq, SetPolicy(0, Fifo)), SetPolicy(1, RoundRobin));
            Valid(r) && |r.entities| == 2 && Some(1) !in Returned(r, ops)
  {
    hide Returned;
    DuoValid(0, 0, [0, 1], None);
    StepValid(rq, SetPolicy(0, Fifo));
    StepValid(Step(rq, SetPolicy(0, Fifo)), SetPolicy(1, RoundRobin));
    var r := Step(Step(rq, SetPolicy(0, Fifo)), SetPolicy(1, RoundRobin));
    assert r.entities[0].policy == Fifo && r.entities[0].deadline == 0 && r.entities[1].policy == RoundRobin;
    FifoStarves(r, ops, 1);
  }

  /** With nobody or a least deadline on the CPU, every call returns a FIFO entity of least deadline. */
  lemma {:induction false} FifoRules(rq: Rq, ops: seq<Op>)
    requires FifoQueue(rq) && !NoFifo(rq) && OnEntities(|rq.entities|, ops) && KeepsPolicies(ops)
    requires rq.current.Some? ==> LeastDeadline(rq.entities, rq.current.value)
    ensures forall x :: x in Returned(rq, ops) ==> x.Some? && LeastDeadline(rq.entities, x.value)
  {
    forall x | x in Returned(rq, ops) ensures x.Some? && LeastDeadline(rq.entities, x.value) {
      if rq.current.Some? { LeastDeadlineKey(rq.entities, rq.current.value); }
      RulesKey(rq, ops, x);
      LeastDeadlineKey(rq.entities, x.value);
    }
  }

  lemma {:induction false} RulesKey(rq: Rq, ops: seq<Op>, x: Option<nat>)
    requires FifoQueue(rq) && !NoFifo(rq) && OnEntities(|rq.entities|, ops) && KeepsPolicies(ops)
    requires rq.current.Some? ==> LeastKey(Deadlines(rq.entities), rq.current.value)
    requires x in Returned(rq, ops)
    ensures x.Some? && LeastKey(Deadlines(rq.entities), x.value)
    decreases |ops|
  {
    hide Step, Schedule, NoFifo, LeastKey, Valid, Deadlines;
    FifoQueueValid(rq);
    assert Enabled(rq, ops[0]);
    StepKeeps(rq, ops[0]);
    if ops[0].Call? { CallByDeadline(rq); } else { StepCurrent(rq, ops[0]); }
    if !(ops[0].Call? && x == Schedule(rq).1) {
      RulesKey(Step(rq, ops[0]), ops[1..], x);
    }
  }

  // ----- who comes back by deadline

  /** Holders of the least key that stand before e in the queue, not counting the one on the CPU. */
  ghost function Ahead(key: seq<nat>, q: seq<nat>, e: nat, current: Option<nat>): nat {
    if q == [] || q[0] == e then 0
    else (if LeastKey(key, q[0]) && Some(q[0]) != current then 1 else 0) + Ahead(key, q[1..], e, current)
  }

  lemma {:induction false} AheadBound(key: seq<nat>, q: seq<nat>, e: nat, c: Option<nat>)
    ensures Ahead(key, q, e, c) <= |q|
  {
    hide LeastKey;
    if q != [] { AheadBound(key, q[1..], e, c); }
  }

  lemma {:induction false} AheadAppend(key: seq<nat>, q: seq<nat>, e: nat, c: Option<nat>, x: nat)
    requires e in q
    ensures Ahead(key, q + [x], e, c) == Ahead(key, q, e, c)
  {
    hide LeastKey;
    assert (q + [x])[1..] == q[1..] + [x];
    if q[0] != e { AheadAppend(key, q[1..], e, c, x); }
  }

  lemma {:induction false} AheadAbsent(key: seq<nat>, q: seq<nat>, e: nat, x: nat)
    requires x !in q
    ensures Ahead(key, q, e, Some(x)) == Ahead(key, q, e, None)
  {
    hide LeastKey;
    if q != [] { AheadAbsent(key, q[1..], e, x); }
  }

  /** Taking x out of the queue takes it out of the count. */
  lemma {:induction false} AheadWithout(key: seq<nat>, q: seq<nat>, e: nat, x: nat)
    requires Distinct(q) && x != e
    ensures Ahead(key, Without(q, x), e, None) == Ahead(key, q, e, Some(x))
  {
    hide LeastKey;
    if q != [] {
      if q[0] == x {
        assert x !in q[1..];
        AheadAbsent(key, q[1..], e, x);
      } else {
        AheadWithout(key, q[1..], e, x);
      }
    }
  }

  lemma {:induction false} AheadWithoutAtMost(key: seq<nat>, q: seq<nat>, e: nat, x: nat, c: Option<nat>)
    requires x != e
    ensures Ahead(key, Without(q, x), e, c) <= Ahead(key, q, e, c)
  {
    hide LeastKey;
    if q != [] && q[0] != x { AheadWithoutAtMost(key, q[1..], e, x, c); }
  }

  /** Putting the first holder of the least key on the CPU takes it out of the count. */
  lemma {:induction false} AheadPick(key: seq<nat>, q: seq<nat>, e: nat, n: nat, j: nat)
    requires Distinct(q) && n < j < |q| && LeastKey(key, q[n]) && q[j] == e
    ensures Ahead(key, q, e, Some(q[n])) + 1 == Ahead(key, q, e, None)
    decreases n
  {
    hide LeastKey;
    assert q[0] != q[j];
    var rest := q[1..];
    if n == 0 {
      assert q[0] !in rest;
      AheadAbsent(key, rest, e, q[0]);
    } else {
      assert q[0] != q[n] && rest[n - 1] == q[n] && rest[j - 1] == e;
      AheadPick(key, rest, e, n - 1, j - 1);
    }
  }

  const STINT: nat := SCHED_MAX_TIMESLICE + SMALLEST_STEP   // a slice from zero, and the call that ends it

  /** What is left of the slice of the entity on the CPU. */
  ghost function Rest(rq: Rq): nat {
    if rq.current.Some? && rq.current.value < |rq.entities|
       && rq.entities[rq.current.value].vruntime < SCHED_MAX_TIMESLICE
    then SCHED_MAX_TIMESLICE - rq.entities[rq.current.value].vruntime else 0
  }

  /** Virtual time until it is the turn of e: a stint for everybody ahead, and what is left of this one. */
  ghost function Turn(rq: Rq, e: nat): nat {
    Ahead(Deadlines(rq.entities), rq.queue, e, rq.current) * STINT + Rest(rq)
  }

  lemma RestBound(rq: Rq)
    ensures Rest(rq) <= SCHED_MAX_TIMESLICE
  {}

  lemma RunsOn(rq: Rq)
    requires Valid(rq) && NoWrap(rq) && Continues(Account(rq))
    ensures Rest(Account(rq)) + SMALLEST_STEP <= Rest(rq)
  {
    hide Distinct, Bounded;
    StepSize(rq.entities[rq.current.value].weight);
  }

  lemma AccountKeeps(rq: Rq)
    requires FifoQueue(rq)
    ensures FifoQueue(Account(rq)) && Deadlines(Account(rq).entities) == Deadlines(rq.entities)
    ensures NoFifo(Account(rq)) <==> NoFifo(rq)
    ensures Account(rq).queue == rq.queue && Account(rq).current == rq.current
  {
    hide Least, PickNext, Distinct, Bounded, Without, Weight;
    StepKeeps(rq, Call);
    AccountValid(rq);
    RequeueValid(Account(rq));
    assert Step(rq, Call).entities == Account(rq).entities;
    SameEntities(Step(rq, Call), Account(rq));
  }

  /** The queue after the entity on the CPU has gone to the back. */
  lemma RequeuedAhead(rq: Rq, key: seq<nat>, e: nat)
    requires Valid(rq) && e < |rq.entities|
    ensures Valid(Requeue(rq)) && |Requeue(rq).queue| == |rq.queue|
    ensures rq.current != Some(e) ==>
              Ahead(key, Requeue(rq).queue, e, None) == Ahead(key, rq.queue, e, rq.current)
  {
    hide Ahead, Without, Weight;
    RequeueValid(rq);
    if rq.current.Some? {
      var c := rq.current.value;
      assert c in rq.queue && e in rq.queue;
      WithoutLength(rq.queue, c);
      if c != e {
        WithoutMembers(rq.queue, c, |rq.entities|);
        AheadWithout(key, rq.queue, e, c);
        AheadAppend(key, Without(rq.queue, c), e, None, c);
      }
    }
  }

  lemma {:induction false} WithoutLength(q: seq<nat>, x: nat)
    requires x in q
    ensures |Without(q, x)| + 1 == |q|
  {
    if q[0] != x { WithoutLength(q[1..], x); }
  }

  /** A selection that is not e takes the first holder of the least deadline, which stands before e. */
  lemma SelectedAhead(rq: Rq, e: nat)
    requires FifoQueue(rq) && !NoFifo(rq) && LeastKey(Deadlines(rq.entities), e) && PickNext(rq) != Some(e)
    ensures var key := Deadlines(rq.entities);
            Ahead(key, rq.queue, e, PickNext(rq)) + 1 == Ahead(key, rq.queue, e, None)
  {
    hide PickNext, LeastKey, NoFifo, Ahead;
    var key := Deadlines(rq.entities);
    var n := DeadlinePick(rq);
    LeastInRange(rq, e);
    assert e in rq.queue;
    var j :| 0 <= j < |rq.queue| && rq.queue[j] == e;
    assert n < j;
    AheadPick(key, rq.queue, e, n, j);
  }

  /** A call that does not return e brings its turn nearer, and a call that preempts it leaves at most
      one stint for everybody. */
  lemma CallTurn(rq: Rq, e: nat)
    requires FifoQueue(rq) && !NoFifo(rq) && NoWrap(rq) && LeastKey(Deadlines(rq.entities), e)
    requires Schedule(rq).1 != Some(e)
    ensures rq.current != Some(e) ==> Turn(Step(rq, Call), e) + SMALLEST_STEP <= Turn(rq, e)
    ensures rq.current == Some(e) ==> Turn(Step(rq, Call), e) <= |rq.queue| * STINT
  {
    hide PickNext, LeastKey, NoFifo, Ahead, Distinct, Bounded, Without, Weight, Rest, NoWrap, Deadlines, Tick;
    AccountKeeps(rq);
    LeastInRange(rq, e);
    var r := Account(rq);
    var key := Deadlines(rq.entities);
    if Continues(r) {
      RunsOn(rq);
      assert Step(rq, Call) == r;
    } else {
      RequeuedAhead(r, key, e);
      var q := Requeue(r);
      SameEntities(r, q);
      SelectedAhead(q, e);
      RestBound(q.(current := PickNext(q)));
      AheadBound(key, q.queue, e, None);
      assert Step(rq, Call) == q.(current := PickNext(q));
      var a := Ahead(key, q.queue, e, PickNext(q));
      assert (a + 1) * STINT == a * STINT + STINT;
      assert (a + 1) * STINT <= |rq.queue| * STINT;
    }
  }

  /** Changes that leave e its place: no policy change, no yield of e, no wake of another. */
  ghost predicate Orderly(op: Op, e: nat) {
    !op.SetPolicy? && (op.Yield? ==> op.x != e) && (op.Wake? ==> op.x == e)
  }

  lemma OtherTurn(rq: Rq, op: Op, e: nat)
    requires FifoQueue(rq) && Enabled(rq, op) && Orderly(op, e) && !op.Call? && e < |rq.entities|
    ensures Turn(Step(rq, op), e) <= Turn(rq, e) && |Step(rq, op).queue| == |rq.queue|
  {
    hide Ahead, LeastKey, Without, Distinct, Bounded, Weight, NoFifo, Deadlines;
    StepKeeps(rq, op);
    var key, q, q' := Deadlines(rq.entities), rq.queue, Step(rq, op).queue;
    assert Rest(Step(rq, op)) == Rest(rq);
    if op.Yield? || op.Wake? {
      assert op.x in q && e in q;
      WithoutLength(q, op.x);
      if op.Yield? {
        AheadWithoutAtMost(key, q, e, op.x, rq.current);
        WithoutMembers(q, op.x, |rq.entities|);
        AheadAppend(key, Without(q, op.x), e, rq.current, op.x);
      } else {
        AheadFirst(key, q', e, rq.current);
      }
    }
    var a, a' := Ahead(key, q, e, rq.current), Ahead(key, q', e, rq.current);
    assert a' * STINT <= a * STINT;
  }

  lemma AheadFirst(key: seq<nat>, q: seq<nat>, e: nat, c: Option<nat>)
    requires q != [] && q[0] == e
    ensures Ahead(key, q, e, c) == 0
  {}

  ghost function TurnLead(rq: Rq, e: nat): nat {
    if rq.current == Some(e) then SMALLEST_STEP + |rq.queue| * STINT else 0
  }

  /** A holder of the least deadline comes back: the holders take turns in queue order, so the calls
      that pass e over are bounded by a stint for each of them. */
  lemma {:induction false} LeastComesBack(rq: Rq, ops: seq<Op>, e: nat)
    requires FifoQueue(rq) && !NoFifo(rq) && LeastKey(Deadlines(rq.entities), e)
    requires OnEntities(|rq.entities|, ops) && NoWraps(rq, ops)
    requires forall i :: 0 <= i < |ops| ==> Orderly(ops[i], e)
    requires Some(e) !in Returned(rq, ops)
    ensures Calls(ops) * SMALLEST_STEP <= Turn(rq, e) + TurnLead(rq, e)
    decreases |ops|
  {
    hide Step, Schedule, NoFifo, LeastKey, Valid, Deadlines, NoWrap, Turn, Returned, FifoQueue;
    if ops != [] {
      FifoQueueValid(rq);
      var op, r := ops[0], Step(rq, ops[0]);
      assert Enabled(rq, op);
      StepKeeps(rq, op);
      LeastInRange(rq, e);
      NotReturned(rq, ops, e);
      if op.Call? { NextReturned(rq, ops, e); CallTurn(rq, e); } else { OtherTurn(rq, op, e); }
      LeastComesBack(r, ops[1..], e);
    }
  }

  lemma LeastInRange(rq: Rq, e: nat)
    requires LeastKey(Deadlines(rq.entities), e)
    ensures e < |rq.entities|
  {}

  lemma NextReturned(rq: Rq, ops: seq<Op>, e: nat)
    requires Valid(rq) && OnEntities(|rq.entities|, ops) && ops != [] && ops[0].Call?
    requires Some(e) !in Returned(rq, ops)
    ensures Schedule(rq).1 != Some(e)
  {
    hide Schedule, Valid, Step;
    assert Enabled(rq, ops[0]);
    StepValid(rq, ops[0]);
    assert Returned(rq, ops)[0] == Schedule(rq).1;
  }

  // ----- exactly who comes back

  /** Among FIFO and round-robin entities, an entity that is off the CPU comes back on every run with
      enough calls if and only if no FIFO entity has a deadline or it holds the least one itself. */
  lemma ComesBackIff(rq: Rq, ops: seq<Op>, e: nat)
    requires FifoQueue(rq) && e < |rq.entities| && rq.current != Some(e)
    requires OnEntities(|rq.entities|, ops) && NoWraps(rq, ops)
    requires forall i :: 0 <= i < |ops| ==> Orderly(ops[i], e)
    requires Calls(ops) * SMALLEST_STEP > Turn(rq, e)
    requires NoFifo(rq) ==> FairState(rq) && Granular(rq) && Calls(ops) * SMALLEST_STEP > Slack(rq, e)
    ensures Some(e) in Returned(rq, ops) <==> NoFifo(rq) || LeastDeadline(rq.entities, e)
  {
    hide FairState, Granular, NoFifo, LeastKey, LeastDeadline, Deadlines, Turn, Slack, Returned, NoWraps, Valid;
    LeastDeadlineKey(rq.entities, e);
    if NoFifo(rq) {
      FifoQueueValid(rq);
      NoFifoByVruntimes(rq, ops);
      if Some(e) !in Returned(rq, ops) { NoStarvation(rq, ops, e); }
    } else if LeastKey(Deadlines(rq.entities), e) {
      if Some(e) !in Returned(rq, ops) { LeastComesBack(rq, ops, e); }
    } else {
      FifoStarves(rq, ops, e);
    }
  }
}
