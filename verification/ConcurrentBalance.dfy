/** Any number of concurrent scheduler_load_balance callers, stepped at the granularity of the run
    queue spinlocks (src/hypervisor/sched/scheduler.c, src/utils/log.c). */
module ConcurrentBalance {
  import opened Common
  import opened LoadBalance

  /** Where a caller is. Scanning, Counting, Taking and Putting hold one lock each, the others none. */
  datatype Pc =
    | ScanNext(i: nat, best: LoadBalance.Scan)        // about to lock queue i, or past the last one
    | Scanning(i: nat, best: LoadBalance.Scan)    // holds lock i, about to count and unlock
    | Source(best: LoadBalance.Scan)              // about to lock the source to count it
    | Counting(best: LoadBalance.Scan)            // holds the source lock
    | Decide(best: LoadBalance.Scan, load: nat)
    | Take(tgt: nat)                              // about to lock the source again
    | Taking(tgt: nat)                            // holds the source lock
    | Carry(se: nat, tgt: nat)                    // an entity in hand, no lock
    | Putting(se: nat, tgt: nat)                  // holds the target lock
    | Done

  datatype Caller = Caller(cpu: nat, pc: Pc)

  /** locks[i] is the caller inside the critical section of queue i. */
  datatype State = State(queues: seq<seq<nat>>, locks: seq<Option<nat>>, callers: seq<Caller>)

  /** The lock a caller holds, by its position. */
  function Holds(c: Caller): Option<nat> {
    match c.pc
    case Scanning(i, _) => Some(i)
    case Counting(_) => Some(c.cpu)
    case Taking(_) => Some(c.cpu)
    case Putting(_, tgt) => Some(tgt)
    case _ => None
  }

  /** The lock a caller is about to test and set. */
  function Wants(c: Caller, n: nat): Option<nat> {
    match c.pc
    case ScanNext(i, _) => if i < n && i != c.cpu then Some(i) else None
    case Source(_) => Some(c.cpu)
    case Take(_) => Some(c.cpu)
    case Carry(_, tgt) => Some(tgt)
    case _ => None
  }

  function InHand(c: Caller): multiset<nat> {
    match c.pc
    case Carry(se, _) => multiset{se}
    case Putting(se, _) => multiset{se}
    case _ => multiset{}
  }

  ghost function InFlight(cs: seq<Caller>): multiset<nat> {
    if cs == [] then multiset{} else InHand(cs[0]) + InFlight(cs[1..])
  }

  /** Where the caller goes after its step; q is the queue whose lock it holds. */
  function NextPc(c: Caller, n: nat, q: seq<nat>): Pc {
    match c.pc
    case ScanNext(i, best) =>
      if i >= n then Source(best) else if i == c.cpu then ScanNext(i + 1, best) else Scanning(i, best)
    case Scanning(i, best) => ScanNext(i + 1, if Load(q) < best.min then LoadBalance.Scan(Load(q), i) else best)
    case Source(best) => Counting(best)
    case Counting(best) => Decide(best, Load(q))
    case Decide(best, load) => if load > (best.min + 2) % U32 then Take(best.tgt) else Done
    case Take(tgt) => Taking(tgt)
    case Taking(tgt) => if q != [] then Carry(q[0], tgt) else Done
    case Carry(se, tgt) => Putting(se, tgt)
    case Putting(se, tgt) => Done
    case Done => Done
  }

  /** What the step leaves in the queue whose lock the caller holds. */
  function NextQueue(c: Caller, q: seq<nat>): seq<nat> {
    match c.pc
    case Taking(_) => if q != [] then q[1..] else q
    case Putting(se, _) => q + [se]
    case _ => q
  }

  ghost predicate WellFormed(s: State) {
    && |s.queues| == |s.locks| > 0
    && (forall t :: 0 <= t < |s.callers| ==> InRange(s.callers[t], |s.queues|))
  }

  predicate InRange(c: Caller, n: nat) {
    && c.cpu < n
    && match c.pc
       case ScanNext(i, best) => i <= n && best.tgt < n
       case Scanning(i, best) => i < n && best.tgt < n
       case Source(best) => best.tgt < n
       case Counting(best) => best.tgt < n
       case Decide(best, _) => best.tgt < n
       case Take(tgt) => tgt < n
       case Taking(tgt) => tgt < n
       case Carry(_, tgt) => tgt < n
       case Putting(_, tgt) => tgt < n
       case Done => true
  }

  /** A caller can step unless it is done or spins on a taken lock. */
  ghost predicate Enabled(s: State, t: nat)
    requires WellFormed(s)
  {
    && t < |s.callers|
    && s.callers[t].pc != Done
    && var w := Wants(s.callers[t], |s.queues|);
       w.Some? ==> s.locks[w.value] == None
  }

  /** One step of caller t: take the wanted lock, or leave its critical section, or a local step. */
  ghost function Step(s: State, t: nat): State
    requires WellFormed(s) && Enabled(s, t)
  {
    var c := s.callers[t];
    var h := Holds(c);
    var w := Wants(c, |s.queues|);
    if h.Some? then
      var q := s.queues[h.value];
      State(s.queues[h.value := NextQueue(c, q)], s.locks[h.value := None],
            s.callers[t := c.(pc := NextPc(c, |s.queues|, q))])
    else if w.Some? then
      State(s.queues, s.locks[w.value := Some(t)], s.callers[t := c.(pc := NextPc(c, |s.queues|, []))])
    else
      s.(callers := s.callers[t := c.(pc := NextPc(c, |s.queues|, []))])
  }

  // ----- mutual exclusion and conservation over every interleaving

  /** A lock is taken exactly by the caller whose position holds it. */
  ghost predicate LocksMatch(s: State)
    requires WellFormed(s)
  {
    forall i: nat, t: nat :: i < |s.locks| && t < |s.callers| ==>
      (s.locks[i] == Some(t) <==> Holds(s.callers[t]) == Some(i))
  }

  ghost predicate LocksLive(s: State) {
    forall i :: 0 <= i < |s.locks| && s.locks[i].Some? ==> s.locks[i].value < |s.callers|
  }

  ghost predicate Inv(s: State, all: multiset<nat>) {
    WellFormed(s) && LocksMatch(s) && LocksLive(s) && Contents(s.queues) + InFlight(s.callers) == all
  }

  lemma {:induction false} InFlightUpdate(cs: seq<Caller>, t: nat, c: Caller)
    requires t < |cs|
    ensures InFlight(cs[t := c]) + InHand(cs[t]) == InFlight(cs) + InHand(c)
  {
    var cs' := cs[t := c];
    if t == 0 {
      assert cs'[1..] == cs[1..];
    } else {
      var rest, rest' := cs[1..], cs[1..][t - 1 := c];
      InFlightUpdate(rest, t - 1, c);
      assert cs'[1..] == rest' && cs'[0] == cs[0] && rest[t - 1] == cs[t];
      AddSides(InFlight(rest'), InHand(cs[t]), InFlight(rest), InHand(c), InHand(cs[0]));
    }
  }

  /** Entity conservation in one critical section. */
  lemma SectionConserves(c: Caller, n: nat, q: seq<nat>)
    requires Holds(c).Some?
    ensures multiset(NextQueue(c, q)) + InHand(c.(pc := NextPc(c, n, q))) == multiset(q) + InHand(c)
  {
    if c.pc.Taking? && q != [] {
      assert q == [q[0]] + q[1..];
    }
  }

  lemma Balance4(q: multiset<nat>, q': multiset<nat>, f: multiset<nat>, f': multiset<nat>,
                 a: multiset<nat>, a': multiset<nat>, h: multiset<nat>, h': multiset<nat>)
    requires q' + a == q + a' && f' + h == f + h' && a' + h' == a + h
    ensures q' + f' == q + f
  {
    forall x ensures (q' + f')[x] == (q + f)[x] {
      assert (q' + a)[x] == (q + a')[x] && (f' + h)[x] == (f + h')[x] && (a' + h')[x] == (a + h)[x];
    }
  }

  lemma StepConserves(s: State, t: nat, all: multiset<nat>)
    requires Inv(s, all) && Enabled(s, t)
    ensures Contents(Step(s, t).queues) + InFlight(Step(s, t).callers) == all
  {
    hide LocksMatch, LocksLive, Contents, InFlight, NextQueue, NextPc, InHand;
    var c := s.callers[t];
    var h := Holds(c);
    var s' := Step(s, t);
    InFlightUpdate(s.callers, t, s'.callers[t]);
    if h.Some? {
      var q := s.queues[h.value];
      ContentsUpdate(s.queues, h.value, NextQueue(c, q));
      SectionConserves(c, |s.queues|, q);
      Balance4(Contents(s.queues), Contents(s'.queues), InFlight(s.callers), InFlight(s'.callers),
               multiset(q), multiset(NextQueue(c, q)), InHand(c), InHand(s'.callers[t]));
    } else {
      LocalInHand(c, |s.queues|);
      Balance4(Contents(s.queues), Contents(s'.queues), InFlight(s.callers), InFlight(s'.callers),
               multiset{}, multiset{}, InHand(c), InHand(s'.callers[t]));
    }
  }

  lemma LocalInHand(c: Caller, n: nat)
    requires Holds(c) == None
    ensures InHand(c.(pc := NextPc(c, n, []))) == InHand(c)
  {}

  lemma NextInRange(c: Caller, n: nat, q: seq<nat>)
    requires InRange(c, n)
    ensures InRange(c.(pc := NextPc(c, n, q)), n)
    ensures Holds(c).Some? ==> Holds(c).value < n && Holds(c.(pc := NextPc(c, n, q))) == None
    ensures Wants(c, n).Some? ==> Wants(c, n).value < n && Holds(c) == None
                                  && Holds(c.(pc := NextPc(c, n, q))) == Wants(c, n)
    ensures Holds(c) == None && Wants(c, n) == None ==> Holds(c.(pc := NextPc(c, n, q))) == None
  {}

  lemma StepInv(s: State, t: nat, all: multiset<nat>)
    requires Inv(s, all) && Enabled(s, t)
    ensures Inv(Step(s, t), all)
  {
    hide Contents, InFlight, NextPc, NextQueue, Holds, Wants, InRange;
    StepConserves(s, t, all);
    var n := |s.queues|;
    var c := s.callers[t];
    NextInRange(c, n, []);
    if Holds(c).Some? {
      NextInRange(c, n, s.queues[Holds(c).value]);
    }
  }

  /** The callers chosen one after the other can all step. */
  ghost predicate Trace(s: State, all: multiset<nat>, ts: seq<nat>)
    requires Inv(s, all)
    decreases |ts|
  {
    ts == [] || (Enabled(s, ts[0]) && (StepInv(s, ts[0], all); Trace(Step(s, ts[0]), all, ts[1..])))
  }

  ghost function Run(s: State, all: multiset<nat>, ts: seq<nat>): State
    requires Inv(s, all) && Trace(s, all, ts)
    decreases |ts|
  {
    if ts == [] then s else StepInv(s, ts[0], all); Run(Step(s, ts[0]), all, ts[1..])
  }

  /** Callers that have just entered, over unlocked queues. */
  ghost predicate Start(s: State) {
    && WellFormed(s)
    && (forall i :: 0 <= i < |s.locks| ==> s.locks[i] == None)
    && (forall t :: 0 <= t < |s.callers| ==> s.callers[t].pc == ScanNext(0, LoadBalance.Scan(U32 - 1, 0)))
  }

  lemma {:induction false} NothingInFlight(cs: seq<Caller>)
    requires forall t :: 0 <= t < |cs| ==> !cs[t].pc.Carry? && !cs[t].pc.Putting?
    ensures InFlight(cs) == multiset{}
  {
    if cs != [] { NothingInFlight(cs[1..]); }
  }

  lemma StartInv(s: State)
    requires Start(s)
    ensures Inv(s, Contents(s.queues))
  {
    NothingInFlight(s.callers);
  }

  lemma {:induction false} RunInv(s: State, all: multiset<nat>, ts: seq<nat>)
    requires Inv(s, all) && Trace(s, all, ts)
    ensures Inv(Run(s, all, ts), all)
    decreases |ts|
  {
    hide Step, InRange, LocksMatch, LocksLive, Contents, InFlight;
    if ts != [] {
      StepInv(s, ts[0], all);
      RunInv(Step(s, ts[0]), all, ts[1..]);
    }
  }

  ghost predicate OneLockEach(s: State) {
    forall i, j :: 0 <= i < |s.locks| && 0 <= j < |s.locks| && s.locks[i].Some? && s.locks[i] == s.locks[j] ==> i == j
  }

  ghost predicate OneHolderEach(s: State) {
    forall t, u :: 0 <= t < |s.callers| && 0 <= u < |s.callers| ==>
      (Holds(s.callers[t]).Some? && Holds(s.callers[t]) == Holds(s.callers[u]) ==> t == u)
  }

  /** At every point of every interleaving: the entities are the original ones, each of them in one
      queue or in one caller's hand; no caller holds two locks and no lock has two holders. */
  lemma EveryInterleaving(s: State, ts: seq<nat>)
    requires Start(s) && (StartInv(s); Trace(s, Contents(s.queues), ts))
    ensures var r := (StartInv(s); Run(s, Contents(s.queues), ts));
            Contents(r.queues) + InFlight(r.callers) == Contents(s.queues)
            && (forall x :: Contents(s.queues)[x] == 1 ==> Contents(r.queues)[x] + InFlight(r.callers)[x] == 1)
            && OneLockEach(r) && OneHolderEach(r)
  {
    hide Contents, InFlight, Trace, Run, InRange, Start;
    var all := Contents(s.queues);
    StartInv(s);
    RunInv(s, all, ts);
    var r := Run(s, all, ts);
    forall x | all[x] == 1 ensures Contents(r.queues)[x] + InFlight(r.callers)[x] == 1 {
      assert (Contents(r.queues) + InFlight(r.callers))[x] == all[x];
    }
    forall i, j | 0 <= i < |r.locks| && 0 <= j < |r.locks| && r.locks[i].Some? && r.locks[i] == r.locks[j]
      ensures i == j
    {
      var t := r.locks[i].value;
      assert Holds(r.callers[t]) == Some(i) && Holds(r.callers[t]) == Some(j);
    }
    forall t, u | 0 <= t < |r.callers| && 0 <= u < |r.callers|
                  && Holds(r.callers[t]).Some? && Holds(r.callers[t]) == Holds(r.callers[u])
      ensures t == u
    {
      HeldInRange(r.callers[t], |r.queues|);
      var i := Holds(r.callers[t]).value;
      assert r.locks[i] == Some(t) && r.locks[i] == Some(u);
    }
  }

  lemma HeldInRange(c: Caller, n: nat)
    requires InRange(c, n) && Holds(c).Some?
    ensures Holds(c).value < n
  {}

  // ----- no deadlock, and every run ends

  ghost predicate Quiescent(s: State) {
    forall t :: 0 <= t < |s.callers| ==> s.callers[t].pc == Done
  }

  /** Holding a lock never blocks, so somebody can always step until all are done. */
  lemma NoDeadlock(s: State, all: multiset<nat>) returns (t: nat)
    requires Inv(s, all) && !Quiescent(s)
    ensures Enabled(s, t)
  {
    hide Contents, InFlight, InRange;
    t :| 0 <= t < |s.callers| && s.callers[t].pc != Done;
    if !Enabled(s, t) {
      NextInRange(s.callers[t], |s.queues|, []);
      var i := Wants(s.callers[t], |s.queues|).value;
      var u := s.locks[i].value;
      assert Holds(s.callers[u]) == Some(i);
      t := u;
    }
  }

  function Left(c: Caller, n: nat): int {
    match c.pc
    case ScanNext(i, _) => 2 * (n - i) + 8
    case Scanning(i, _) => 2 * (n - i) + 7
    case Source(_) => 7
    case Counting(_) => 6
    case Decide(_, _) => 5
    case Take(_) => 4
    case Taking(_) => 3
    case Carry(_, _) => 2
    case Putting(_, _) => 1
    case Done => 0
  }

  ghost function TotalLeft(cs: seq<Caller>, n: nat): int {
    if cs == [] then 0 else Left(cs[0], n) + TotalLeft(cs[1..], n)
  }

  lemma {:induction false} TotalLeftUpdate(cs: seq<Caller>, t: nat, c: Caller, n: nat)
    requires t < |cs|
    ensures TotalLeft(cs[t := c], n) == TotalLeft(cs, n) - Left(cs[t], n) + Left(c, n)
  {
    if t == 0 {
      assert cs[t := c][1..] == cs[1..];
    } else {
      TotalLeftUpdate(cs[1..], t - 1, c, n);
      assert cs[t := c][1..] == cs[1..][t - 1 := c];
    }
  }

  lemma LeftBounds(c: Caller, n: nat)
    requires InRange(c, n)
    ensures 0 <= Left(c, n) <= 2 * n + 8
  {}

  lemma {:induction false} TotalLeftBounds(cs: seq<Caller>, n: nat, m: nat)
    requires m == 2 * n + 8 && forall t :: 0 <= t < |cs| ==> InRange(cs[t], n)
    ensures 0 <= TotalLeft(cs, n) <= |cs| * m
  {
    hide InRange, Left;
    if cs != [] {
      TotalLeftBounds(cs[1..], n, m);
      LeftBounds(cs[0], n);
      assert |cs| * m == (|cs| - 1) * m + m;
    }
  }

  lemma LeftDrops(c: Caller, n: nat, q: seq<nat>)
    requires InRange(c, n) && c.pc != Done
    ensures Left(c.(pc := NextPc(c, n, q)), n) < Left(c, n)
  {}

  /** A run takes at most 2 n + 8 steps for each caller, so with NoDeadlock every run can be carried
      on to quiescence and ends there. */
  lemma {:induction false} RunBounded(s: State, all: multiset<nat>, ts: seq<nat>)
    requires Inv(s, all) && Trace(s, all, ts)
    ensures |ts| + TotalLeft(Run(s, all, ts).callers, |s.queues|) <= TotalLeft(s.callers, |s.queues|)
    ensures |ts| <= |s.callers| * (2 * |s.queues| + 8)
    decreases |ts|
  {
    hide Contents, InFlight, NextPc, NextQueue, LocksMatch, LocksLive, InRange, Left, TotalLeft;
    var n := |s.queues|;
    TotalLeftBounds(s.callers, n, 2 * n + 8);
    if ts != [] {
      var t := ts[0];
      StepInv(s, t, all);
      var s' := Step(s, t);
      RunBounded(s', all, ts[1..]);
      var c := s.callers[t];
      NextInRange(c, n, []);
      var q := if Holds(c).Some? then s.queues[Holds(c).value] else [];
      LeftDrops(c, n, q);
      TotalLeftUpdate(s.callers, t, s'.callers[t], n);
    }
    RunInv(s, all, ts);
    RunSize(s, all, ts);
    TotalLeftBounds(Run(s, all, ts).callers, n, 2 * n + 8);
  }

  lemma {:induction false} RunSize(s: State, all: multiset<nat>, ts: seq<nat>)
    requires Inv(s, all) && Trace(s, all, ts)
    ensures |Run(s, all, ts).queues| == |s.queues| && |Run(s, all, ts).callers| == |s.callers|
    decreases |ts|
  {
    hide Contents, InFlight, NextPc, NextQueue, LocksMatch, LocksLive, InRange;
    if ts != [] {
      StepInv(s, ts[0], all);
      NextInRange(s.callers[ts[0]], |s.queues|, []);
      RunSize(Step(s, ts[0]), all, ts[1..]);
    }
  }

  /** When all callers are done the queues hold exactly the original entities. */
  lemma QuiescentConserves(s: State, ts: seq<nat>)
    requires Start(s) && (StartInv(s); Trace(s, Contents(s.queues), ts))
    requires Quiescent((StartInv(s); Run(s, Contents(s.queues), ts)))
    ensures Contents((StartInv(s); Run(s, Contents(s.queues), ts)).queues) == Contents(s.queues)
  {
    StartInv(s);
    RunInv(s, Contents(s.queues), ts);
    NothingInFlight(Run(s, Contents(s.queues), ts).callers);
  }

  // ----- a caller that is not disturbed computes the sequential call

  /** Only caller t can hold a lock. */
  ghost predicate Solo(s: State, t: nat) {
    && WellFormed(s) && t < |s.callers|
    && forall i :: 0 <= i < |s.locks| ==> s.locks[i] == if Holds(s.callers[t]) == Some(i) then Some(t) else None
  }

  lemma SoloStep(s: State, t: nat)
    requires Solo(s, t) && s.callers[t].pc != Done
    ensures Enabled(s, t) && Solo(Step(s, t), t) && |Step(s, t).queues| == |s.queues|
    ensures Left(Step(s, t).callers[t], |s.queues|) < Left(s.callers[t], |s.queues|)
    ensures Left(Step(s, t).callers[t], |s.queues|) >= 0
  {
    hide NextPc, NextQueue, InRange, Left, Holds, Wants;
    var c, n := s.callers[t], |s.queues|;
    NextInRange(c, n, []);
    var q := if Holds(c).Some? then s.queues[Holds(c).value] else [];
    NextInRange(c, n, q);
    LeftDrops(c, n, q);
    LeftBounds(c.(pc := NextPc(c, n, q)), n);
  }

  /** Caller t runs on alone until it is done. */
  ghost function Alone(s: State, t: nat): State
    requires Solo(s, t)
    decreases Left(s.callers[t], |s.queues|)
  {
    if s.callers[t].pc == Done then s else SoloStep(s, t); Alone(Step(s, t), t)
  }

  function At(s: State, t: nat, pc: Pc): State
    requires t < |s.callers|
  {
    s.(callers := s.callers[t := s.callers[t].(pc := pc)])
  }

  /** Lock and critical section together: the section's effect on the queue, and no lock left behind. */
  lemma Section(s: State, t: nat, w: nat)
    requires Solo(s, t) && Wants(s.callers[t], |s.queues|) == Some(w)
    ensures w < |s.queues|
    ensures var c := s.callers[t];
            var inside := c.(pc := NextPc(c, |s.queues|, []));
            var r := At(s, t, NextPc(inside, |s.queues|, s.queues[w])).(
                       queues := s.queues[w := NextQueue(inside, s.queues[w])]);
            Solo(r, t) && Alone(s, t) == Alone(r, t)
  {
    hide NextQueue, Left, InRange, NextPc, Holds;
    var c, n := s.callers[t], |s.queues|;
    NextInRange(c, n, []);
    SoloStep(s, t);
    var s1 := Step(s, t);
    var inside := c.(pc := NextPc(c, n, []));
    assert s1.callers[t] == inside;
    NextInRange(inside, n, s.queues[w]);
    HoldsNotDone(inside);
    SoloStep(s1, t);
    var s2 := Step(s1, t);
    assert s2.locks == s.locks;
    assert s2.callers == At(s, t, NextPc(inside, n, s.queues[w])).callers;
  }

  lemma HoldsNotDone(c: Caller)
    requires Holds(c).Some?
    ensures c.pc != Done
  {}

  lemma LocalStep(s: State, t: nat)
    requires Solo(s, t) && s.callers[t].pc != Done
    requires Holds(s.callers[t]) == None && Wants(s.callers[t], |s.queues|) == None
    ensures var r := At(s, t, NextPc(s.callers[t], |s.queues|, []));
            Solo(r, t) && Alone(s, t) == Alone(r, t)
  {
    hide NextQueue, Left, InRange, NextPc;
    SoloStep(s, t);
  }

  lemma {:induction false} AloneScan(s: State, t: nat, i: nat)
    requires Solo(s, t) && i <= |s.queues|
    requires s.callers[t].pc == ScanNext(i, ScanTo(s.queues, s.callers[t].cpu, i))
    ensures var r := At(s, t, Source(ScanTo(s.queues, s.callers[t].cpu, |s.queues|)));
            Solo(r, t) && Alone(s, t) == Alone(r, t)
    decreases |s.queues| - i
  {
    hide Alone, Left, InRange;
    var c := s.callers[t];
    var n := |s.queues|;
    if i == n || i == c.cpu {
      LocalStep(s, t);
    } else {
      Section(s, t, i);
      assert s.queues[i := s.queues[i]] == s.queues;
    }
    if i < n {
      var s' := At(s, t, ScanNext(i + 1, ScanTo(s.queues, c.cpu, i + 1)));
      AloneScan(s', t, i + 1);
      assert At(s', t, Source(ScanTo(s.queues, c.cpu, n))) == At(s, t, Source(ScanTo(s.queues, c.cpu, n)));
    }
  }

  lemma AloneDecide(s: State, t: nat)
    requires Solo(s, t) && s.callers[t].pc.Source?
    requires s.callers[t].pc.best == ScanTo(s.queues, s.callers[t].cpu, |s.queues|)
    ensures Alone(s, t).queues == Balance(s.queues, s.callers[t].cpu)
  {
    hide Left, InRange, ScanTo;
    var c := s.callers[t];
    var best := c.pc.best;
    CpuInRange(c, |s.queues|);
    Section(s, t, c.cpu);
    assert s.queues[c.cpu := s.queues[c.cpu]] == s.queues;
    var s1 := At(s, t, Decide(best, Load(s.queues[c.cpu])));
    LocalStep(s1, t);
    if Load(s.queues[c.cpu]) > (best.min + 2) % U32 {
      AloneMove(At(s, t, Take(best.tgt)), t);
      assert At(s1, t, Take(best.tgt)) == At(s, t, Take(best.tgt));
    } else {
      assert Alone(At(s1, t, Done), t) == At(s1, t, Done);
    }
  }

  lemma CpuInRange(c: Caller, n: nat)
    requires InRange(c, n)
    ensures c.cpu < n
  {}

  lemma AloneMove(s: State, t: nat)
    requires Solo(s, t) && s.callers[t].pc.Take?
    ensures var cpu, tgt, qs := s.callers[t].cpu, s.callers[t].pc.tgt, s.queues;
            cpu < |qs| && tgt < |qs|
            && Alone(s, t).queues ==
               if qs[cpu] == [] then qs
               else qs[cpu := qs[cpu][1..]][tgt := qs[cpu := qs[cpu][1..]][tgt] + [qs[cpu][0]]]
  {
    hide Left;
    var c, qs := s.callers[t], s.queues;
    Section(s, t, c.cpu);
    var q := qs[c.cpu];
    if q == [] {
      var r := At(s, t, Done).(queues := qs[c.cpu := q]);
      assert qs[c.cpu := q] == qs;
      assert Alone(r, t) == r;
    } else {
      var s1 := At(s, t, Carry(q[0], c.pc.tgt)).(queues := qs[c.cpu := q[1..]]);
      Section(s1, t, c.pc.tgt);
      var s2 := At(s1, t, Done).(queues := s1.queues[c.pc.tgt := s1.queues[c.pc.tgt] + [q[0]]]);
      assert Alone(s2, t) == s2;
    }
  }

  /** An undisturbed caller leaves exactly the queues of the sequential scheduler_load_balance. */
  lemma AloneIsBalance(s: State, t: nat)
    requires Solo(s, t) && s.callers[t].pc == ScanNext(0, LoadBalance.Scan(U32 - 1, 0))
    ensures Alone(s, t).queues == Balance(s.queues, s.callers[t].cpu)
  {
    hide Alone, Balance, Left, InRange;
    AloneScan(s, t, 0);
    AloneDecide(At(s, t, Source(ScanTo(s.queues, s.callers[t].cpu, |s.queues|))), t);
  }
}
