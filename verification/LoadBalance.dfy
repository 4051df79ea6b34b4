/** scheduler_load_balance of src/hypervisor/sched/scheduler.c, one call at a time: conservation,
    the balancing potential and convergence of repeated rounds. */
module LoadBalance {
  import opened Common

  /** The 32-bit count of a run queue. */
  function Load(q: seq<nat>): nat { |q| % U32 }

  /** The scan over the other CPUs: the first least load below ~0U, and CPU 0 if there is none. */
  datatype Scan = Scan(min: nat, tgt: nat)

  function ScanTo(qs: seq<seq<nat>>, cpu: nat, n: nat): Scan
    requires n <= |qs|
  {
    if n == 0 then Scan(U32 - 1, 0)
    else
      var s := ScanTo(qs, cpu, n - 1);
      if n - 1 != cpu && Load(qs[n - 1]) < s.min then Scan(Load(qs[n - 1]), n - 1) else s
  }

  function Target(qs: seq<seq<nat>>, cpu: nat): nat { ScanTo(qs, cpu, |qs|).tgt }

  /** The guard of the migration, with the 32-bit sum the code computes. */
  predicate Moves(qs: seq<seq<nat>>, cpu: nat) {
    && cpu < |qs|
    && Load(qs[cpu]) > (ScanTo(qs, cpu, |qs|).min + 2) % U32
    && qs[cpu] != []
  }

  lemma {:induction false} TargetInRange(qs: seq<seq<nat>>, cpu: nat, n: nat)
    requires n <= |qs| && |qs| > 0
    ensures ScanTo(qs, cpu, n).tgt < |qs|
  {
    if n > 0 { TargetInRange(qs, cpu, n - 1); }
  }

  /** The queues after the call: the head of the source goes to the tail of the target. */
  function Balance(qs: seq<seq<nat>>, cpu: nat): (r: seq<seq<nat>>)
    ensures |r| == |qs|
  {
    if Moves(qs, cpu) then
      TargetInRange(qs, cpu, |qs|);
      var cut := qs[cpu := qs[cpu][1..]];
      cut[Target(qs, cpu) := cut[Target(qs, cpu)] + [qs[cpu][0]]]
    else qs
  }

  // ----- conservation

  ghost function Contents<T>(qs: seq<seq<T>>): multiset<T> {
    if qs == [] then multiset{} else multiset(qs[0]) + Contents(qs[1..])
  }

  lemma AddSides<T>(a: multiset<T>, b: multiset<T>, c: multiset<T>, d: multiset<T>, m: multiset<T>)
    requires a + b == c + d
    ensures (m + a) + b == (m + c) + d
  {
    assert (m + a) + b == m + (a + b);
    assert (m + c) + d == m + (c + d);
  }

  lemma {:induction false} ContentsUpdate<T>(qs: seq<seq<T>>, i: nat, q: seq<T>)
    requires i < |qs|
    ensures Contents(qs[i := q]) + multiset(qs[i]) == Contents(qs) + multiset(q)
  {
    var qs' := qs[i := q];
    if i == 0 {
      assert qs'[1..] == qs[1..];
    } else {
      var rest, rest' := qs[1..], qs[1..][i - 1 := q];
      ContentsUpdate(rest, i - 1, q);
      assert qs'[1..] == rest' && qs'[0] == qs[0] && rest[i - 1] == qs[i];
      AddSides(Contents(rest'), multiset(qs[i]), Contents(rest), multiset(q), multiset(qs[0]));
    }
  }

  lemma MovedOne(all: multiset<nat>, cut: multiset<nat>, put: multiset<nat>, q: seq<nat>, r: seq<nat>)
    requires q != [] && cut + multiset(q) == all + multiset(q[1..])
    requires put + multiset(r) == cut + multiset(r + [q[0]])
    ensures put == all
  {
    assert q == [q[0]] + q[1..];
    forall x ensures put[x] == all[x] {
      assert (cut + multiset(q))[x] == (all + multiset(q[1..]))[x];
      assert (put + multiset(r))[x] == (cut + multiset(r + [q[0]]))[x];
    }
  }

  /** No call loses, duplicates or invents an entity. */
  lemma BalanceConserves(qs: seq<seq<nat>>, cpu: nat)
    ensures Contents(Balance(qs, cpu)) == Contents(qs)
  {
    if Moves(qs, cpu) {
      TargetInRange(qs, cpu, |qs|);
      var q := qs[cpu];
      assert q == [q[0]] + q[1..];
      var cut := qs[cpu := q[1..]];
      var t := Target(qs, cpu);
      var end := cut[t] + [q[0]];
      ContentsUpdate(qs, cpu, q[1..]);
      ContentsUpdate(cut, t, end);
      MovedOne(Contents(qs), Contents(cut), Contents(cut[t := end]), q, cut[t]);
    }
  }

  // ----- one move

  /** Queue lengths for which the 32-bit arithmetic is exact. */
  predicate Small(qs: seq<seq<nat>>) {
    forall i :: 0 <= i < |qs| ==> |qs[i]| < U32 - 3
  }

  lemma SmallLoad(qs: seq<seq<nat>>, i: nat)
    requires Small(qs) && i < |qs|
    ensures Load(qs[i]) == |qs[i]| < U32 - 3
  {}

  lemma {:induction false} ScanLeast(qs: seq<seq<nat>>, cpu: nat, n: nat)
    requires n <= |qs| && Small(qs)
    ensures var s := ScanTo(qs, cpu, n);
            (forall i :: 0 <= i < n && i != cpu ==> s.min <= |qs[i]|)
            && (n > (if cpu == 0 then 1 else 0) ==>
                  s.tgt < n && s.tgt != cpu && s.min == |qs[s.tgt]|
                  && forall i :: 0 <= i < s.tgt && i != cpu ==> |qs[i]| > s.min)
  {
    hide Load;
    if n > 0 {
      ScanLeast(qs, cpu, n - 1);
      SmallLoad(qs, n - 1);
    }
  }

  /** With two CPUs or more the target is the first least loaded other CPU. */
  lemma TargetLeast(qs: seq<seq<nat>>, cpu: nat)
    requires |qs| >= 2 && Small(qs)
    ensures var t := Target(qs, cpu);
            t < |qs| && t != cpu && ScanTo(qs, cpu, |qs|).min == |qs[t]|
            && (forall i :: 0 <= i < |qs| && i != cpu ==> |qs[t]| <= |qs[i]|)
            && (forall i :: 0 <= i < t && i != cpu ==> |qs[t]| < |qs[i]|)
  {
    ScanLeast(qs, cpu, |qs|);
  }

  lemma MovesMeans(qs: seq<seq<nat>>, cpu: nat)
    requires |qs| >= 2 && Small(qs) && cpu < |qs|
    ensures Target(qs, cpu) < |qs| && (Moves(qs, cpu) <==> |qs[cpu]| > |qs[Target(qs, cpu)]| + 2)
  {
    hide ScanTo;
    TargetLeast(qs, cpu);
    assert |qs[cpu]| < U32 - 3;
  }

  /** The 32-bit count of a queue of any length. */
  ghost predicate Counts(q: seq<nat>, n: nat) { n == |q| % 0x1_0000_0000 }

  lemma {:induction false} ScanCounts(qs: seq<seq<nat>>, cpu: nat, n: nat)
    requires n <= |qs|
    ensures var s := ScanTo(qs, cpu, n);
            && s.min <= 0xFFFF_FFFF
            && (forall i :: 0 <= i < n && i != cpu ==> s.min <= |qs[i]| % 0x1_0000_0000)
            && (if s.min == 0xFFFF_FFFF then s.tgt == 0
                else s.tgt < n && s.tgt != cpu && Counts(qs[s.tgt], s.min)
                     && forall i :: 0 <= i < s.tgt && i != cpu ==> |qs[i]| % 0x1_0000_0000 > s.min)
  {
    if n > 0 { ScanCounts(qs, cpu, n - 1); }
  }

  /** The decision on queues of any length: the target is the first least 32-bit count below ~0U among
      the others and the guard compares with that count plus two in 32 bits; without such a count,
      as on one CPU, the target is CPU 0 and the guard asks for more than one. */
  lemma MovesCounts(qs: seq<seq<nat>>, cpu: nat)
    requires cpu < |qs|
    ensures var t := Target(qs, cpu);
            if exists i :: 0 <= i < |qs| && i != cpu && |qs[i]| % 0x1_0000_0000 != 0xFFFF_FFFF
            then && t < |qs| && t != cpu
                 && (forall i :: 0 <= i < |qs| && i != cpu ==>
                       |qs[t]| % 0x1_0000_0000 <= |qs[i]| % 0x1_0000_0000)
                 && (forall i :: 0 <= i < t && i != cpu ==> |qs[t]| % 0x1_0000_0000 < |qs[i]| % 0x1_0000_0000)
                 && (Moves(qs, cpu) <==>
                       |qs[cpu]| % 0x1_0000_0000 > (|qs[t]| % 0x1_0000_0000 + 2) % 0x1_0000_0000)
            else t == 0 && (Moves(qs, cpu) <==> |qs[cpu]| % 0x1_0000_0000 > 1)
  {
    hide ScanTo;
    ScanCounts(qs, cpu, |qs|);
  }

  /** A queue of 2^32 entities counts as empty, so nothing is moved off it. */
  lemma LongQueueIgnored(q: seq<nat>)
    requires |q| == 0x1_0000_0000
    ensures Balance([q, []], 0) == [q, []]
  {
    hide ScanTo;
    MovesCounts([q, []], 0);
    assert |[q, []][1]| % 0x1_0000_0000 == 0;
  }

  /** The potential: the sum of the squared queue lengths. */
  function SumSquares(qs: seq<seq<nat>>): nat {
    if qs == [] then 0 else |qs[0]| * |qs[0]| + SumSquares(qs[1..])
  }

  lemma {:induction false} SumSquaresUpdate(qs: seq<seq<nat>>, i: nat, q: seq<nat>)
    requires i < |qs|
    ensures SumSquares(qs[i := q]) == SumSquares(qs) - |qs[i]| * |qs[i]| + |q| * |q|
  {
    var qs' := qs[i := q];
    if i == 0 {
      assert qs'[1..] == qs[1..];
    } else {
      SumSquaresUpdate(qs[1..], i - 1, q);
      assert qs'[1..] == qs[1..][i - 1 := q];
    }
  }

  lemma SquaresDrop(a: nat, b: nat)
    requires a > b + 2
    ensures (a - 1) * (a - 1) + (b + 1) * (b + 1) + 4 <= a * a + b * b
  {
    assert (a - 1) * (a - 1) == a * a - 2 * a + 1;
    assert (b + 1) * (b + 1) == b * b + 2 * b + 1;
  }

  /** A migrating call lowers the potential by at least four and never reverses the imbalance. */
  lemma MoveProgress(qs: seq<seq<nat>>, cpu: nat)
    requires |qs| >= 2 && Small(qs) && Moves(qs, cpu)
    ensures var t := Target(qs, cpu);
            var r := Balance(qs, cpu);
            t < |qs| && t != cpu
            && r[cpu] == qs[cpu][1..] && r[t] == qs[t] + [qs[cpu][0]]
            && (forall i :: 0 <= i < |qs| && i != cpu && i != t ==> r[i] == qs[i])
            && |r[cpu]| > |r[t]|
            && SumSquares(r) + 4 <= SumSquares(qs)
            && Small(r)
  {
    hide ScanTo;
    TargetLeast(qs, cpu);
    MovesMeans(qs, cpu);
    var t := Target(qs, cpu);
    var q := qs[cpu];
    var cut := qs[cpu := q[1..]];
    SumSquaresUpdate(qs, cpu, q[1..]);
    SumSquaresUpdate(cut, t, cut[t] + [q[0]]);
    SquaresDrop(|q|, |qs[t]|);
  }

  /** On a single CPU the sum ~0U + 2 wraps to one and the call only rotates the queue. */
  lemma OneCpuRotates(q: seq<nat>)
    requires |q| < U32
    ensures Balance([q], 0) == if |q| > 1 then [q[1..] + [q[0]]] else [q]
  {
    assert ScanTo([q], 0, 1) == ScanTo([q], 0, 0) == Scan(U32 - 1, 0);
    if |q| > 1 {
      assert Moves([q], 0);
      assert [q][0 := q[1..]][0 := q[1..] + [q[0]]] == [q[1..] + [q[0]]];
    }
  }

  // ----- repeated rounds

  ghost predicate Balanced(qs: seq<seq<nat>>) {
    forall i, j :: 0 <= i < |qs| && 0 <= j < |qs| ==> |qs[i]| <= |qs[j]| + 2
  }

  /** Nothing migrates exactly when all lengths are within two of each other. */
  lemma QuietIsBalanced(qs: seq<seq<nat>>)
    requires |qs| >= 2 && Small(qs)
    ensures (forall cpu :: 0 <= cpu < |qs| ==> !Moves(qs, cpu)) <==> Balanced(qs)
  {
    hide Moves, ScanTo, Target;
    if forall cpu :: 0 <= cpu < |qs| ==> !Moves(qs, cpu) {
      forall i, j | 0 <= i < |qs| && 0 <= j < |qs| ensures |qs[i]| <= |qs[j]| + 2 {
        assert !Moves(qs, i);
        MovesMeans(qs, i);
        TargetLeast(qs, i);
      }
    }
    if Balanced(qs) {
      forall cpu | 0 <= cpu < |qs| ensures !Moves(qs, cpu) {
        MovesMeans(qs, cpu);
        assert |qs[cpu]| <= |qs[Target(qs, cpu)]| + 2;
      }
    }
  }

  /** One call for each CPU in turn, up to n. */
  function RoundTo(qs: seq<seq<nat>>, n: nat): (r: seq<seq<nat>>)
    ensures |r| == |qs|
  {
    if n == 0 then qs else Balance(RoundTo(qs, n - 1), n - 1)
  }

  function Rounds(qs: seq<seq<nat>>, k: nat): (r: seq<seq<nat>>)
    ensures |r| == |qs|
  {
    if k == 0 then qs else var r := Rounds(qs, k - 1); RoundTo(r, |r|)
  }

  lemma {:induction false} RoundProgress(qs: seq<seq<nat>>, n: nat)
    requires |qs| >= 2 && Small(qs) && n <= |qs|
    ensures var r := RoundTo(qs, n);
            Small(r) && Contents(r) == Contents(qs)
            && (r == qs ==> forall cpu :: 0 <= cpu < n ==> !Moves(qs, cpu))
            && (r != qs ==> SumSquares(r) + 4 <= SumSquares(qs))
            && SumSquares(r) <= SumSquares(qs)
  {
    hide Moves, ScanTo, Small, Contents, SumSquares;
    if n > 0 {
      RoundProgress(qs, n - 1);
      var r := RoundTo(qs, n - 1);
      BalanceConserves(r, n - 1);
      if Moves(r, n - 1) {
        MoveProgress(r, n - 1);
      }
    }
  }

  /** Rounds over all CPUs settle: after SumSquares / 4 + 1 of them every two lengths are within two,
      with the same entities queued. */
  lemma {:induction false} RoundsConverge(qs: seq<seq<nat>>, k: nat)
    requires |qs| >= 2 && Small(qs)
    ensures Small(Rounds(qs, k)) && Contents(Rounds(qs, k)) == Contents(qs)
    ensures Balanced(Rounds(qs, k)) || SumSquares(Rounds(qs, k)) + 4 * k <= SumSquares(qs)
    ensures 4 * k > SumSquares(qs) ==> Balanced(Rounds(qs, k))
  {
    hide Moves, ScanTo, Small, Contents, SumSquares, Balanced;
    if k > 0 {
      RoundsConverge(qs, k - 1);
      var r := Rounds(qs, k - 1);
      RoundProgress(r, |r|);
      QuietIsBalanced(r);
      if Balanced(r) { QuietRound(r, |r|); }
    }
  }

  lemma {:induction false} QuietRound(qs: seq<seq<nat>>, n: nat)
    requires n <= |qs| && forall cpu :: 0 <= cpu < |qs| ==> !Moves(qs, cpu)
    ensures RoundTo(qs, n) == qs
  {
    hide Moves;
    if n > 0 { QuietRound(qs, n - 1); }
  }

  // ----- the call on the mutable queues

  class RunQueues {
    var queues: seq<seq<nat>>

    constructor (qs: seq<seq<nat>>)
      ensures queues == qs
    {
      queues := qs;
    }

    method CountLoad(cpu: nat) returns (load: nat)
      requires cpu < |queues|
      ensures load == Load(queues[cpu]) == |queues[cpu]| % 0x1_0000_0000
    {
      load := 0;
      var pos := 0;
      while pos < |queues[cpu]|
        invariant 0 <= pos <= |queues[cpu]| && load == pos % U32
      {
        load := (load + 1) % U32;
        pos := pos + 1;
      }
    }

    method SchedulerLoadBalance(cpu: nat)
      modifies this
      ensures queues == Balance(old(queues), cpu)
    {
      if cpu >= |queues| {
        return;
      }
      var tgtCpu: nat := 0;
      var minLoad: nat := U32 - 1;
      var i := 0;
      while i < |queues|
        invariant 0 <= i <= |queues| && queues == old(queues)
        invariant ScanTo(queues, cpu, i) == Scan(minLoad, tgtCpu)
      {
        if i != cpu {
          var load := CountLoad(i);
          if load < minLoad {
            minLoad := load;
            tgtCpu := i;
          }
        }
        i := i + 1;
      }
      var srcLoad := CountLoad(cpu);
      TargetInRange(queues, cpu, |queues|);
      if srcLoad > (minLoad + 2) % U32 {
        if queues[cpu] != [] {
          var se := queues[cpu][0];
          queues := queues[cpu := queues[cpu][1..]];
          queues := queues[tgtCpu := queues[tgtCpu] + [se]];
        }
      }
    }
  }
}
