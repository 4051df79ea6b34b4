/** The VM life cycle of src/hypervisor/hypervisor.c: VM states, vCPU flags and membership in the
    scheduler's run queues. */
module Lifecycle {
  import opened Common
  import opened LoadBalance

  datatype VmState = Initialized | Running | Paused | Shutdown | Destroyed

  datatype Vcpu = Vcpu(running: bool, initialized: bool)
  datatype Vm = Vm(state: VmState, vcpus: seq<Vcpu>)

  /** A scheduling entity: vCPU number vcpu of VM number vm. */
  datatype Id = Id(vm: nat, vcpu: nat)

  datatype Machine = Machine(vms: seq<Vm>, queues: seq<seq<Id>>)

  // ----- run queue membership

  function CpuOf(vcpu: nat, cpus: nat): (c: nat)
    requires cpus > 0
    ensures c < cpus
  {
    vcpu % cpus
  }

  /** scheduler_add_vcpu: the tail of the queue of physical CPU vcpu_id % cpus. */
  function Enqueue(qs: seq<seq<Id>>, id: Id): (r: seq<seq<Id>>)
    requires |qs| > 0
    ensures |r| == |qs|
  {
    var c := CpuOf(id.vcpu, |qs|);
    qs[c := qs[c] + [id]]
  }

  /** scheduler_remove_vcpu: list_del from whichever queue links the entity. */
  function Unlink(qs: seq<seq<Id>>, id: Id): (r: seq<seq<Id>>)
    ensures |r| == |qs|
  {
    if qs == [] then []
    else if id in qs[0] then [Without(qs[0], id)] + qs[1..]
    else [qs[0]] + Unlink(qs[1..], id)
  }

  lemma {:induction false} WithoutContents(q: seq<Id>, id: Id)
    requires id in q
    ensures multiset(Without(q, id)) + multiset{id} == multiset(q)
  {
    assert q == [q[0]] + q[1..];
    if q[0] != id { WithoutContents(q[1..], id); }
  }

  lemma {:induction false} UnlinkContents(qs: seq<seq<Id>>, id: Id)
    requires id in Contents(qs)
    ensures Contents(Unlink(qs, id)) + multiset{id} == Contents(qs)
  {
    var r := Unlink(qs, id);
    if id in qs[0] {
      WithoutContents(qs[0], id);
      assert r[1..] == qs[1..];
    } else {
      UnlinkContents(qs[1..], id);
      assert r[1..] == Unlink(qs[1..], id);
    }
  }

  lemma {:induction false} UnlinkAbsent(qs: seq<seq<Id>>, id: Id)
    requires id !in Contents(qs)
    ensures Unlink(qs, id) == qs
  {
    if qs != [] { UnlinkAbsent(qs[1..], id); }
  }

  lemma EnqueueContents(qs: seq<seq<Id>>, id: Id)
    requires |qs| > 0
    ensures Contents(Enqueue(qs, id)) == Contents(qs) + multiset{id}
  {
    var c := CpuOf(id.vcpu, |qs|);
    ContentsUpdate(qs, c, qs[c] + [id]);
    CancelCommon(Contents(Enqueue(qs, id)), Contents(qs), qs[c], id);
  }

  lemma CancelCommon(a: multiset<Id>, b: multiset<Id>, q: seq<Id>, id: Id)
    requires a + multiset(q) == b + multiset(q + [id])
    ensures a == b + multiset{id}
  {
    forall x ensures a[x] == (b + multiset{id})[x] {
      assert (a + multiset(q))[x] == (b + multiset(q + [id]))[x];
    }
  }

  lemma {:induction false} WithoutLast(q: seq<Id>, id: Id)
    requires id !in q
    ensures Without(q + [id], id) == q
  {
    if q != [] {
      assert (q + [id])[1..] == q[1..] + [id];
      WithoutLast(q[1..], id);
    }
  }

  lemma {:induction false} WithoutCommutes(q: seq<Id>, x: Id, y: Id)
    requires x in q
    ensures Without(q + [y], x) == Without(q, x) + [y]
  {
    assert (q + [y])[1..] == q[1..] + [y];
    if q[0] != x { WithoutCommutes(q[1..], x, y); }
  }

  lemma UnlinkUnfold(qs: seq<seq<Id>>, x: Id)
    requires qs != []
    ensures Unlink(qs, x) == if x in qs[0] then [Without(qs[0], x)] + qs[1..] else [qs[0]] + Unlink(qs[1..], x)
  {}

  lemma ContentsUnfold(qs: seq<seq<Id>>, x: Id)
    requires qs != []
    ensures x in Contents(qs) <==> x in qs[0] || x in Contents(qs[1..])
  {}

  lemma {:induction false} UnlinkAppended(qs: seq<seq<Id>>, c: nat, x: Id)
    requires c < |qs| && x !in Contents(qs)
    ensures Unlink(qs[c := qs[c] + [x]], x) == qs
  {
    hide Unlink, Contents, Without;
    var r := qs[c := qs[c] + [x]];
    UnlinkUnfold(r, x);
    ContentsUnfold(qs, x);
    if c == 0 {
      WithoutLast(qs[0], x);
      assert r[1..] == qs[1..];
    } else {
      UnlinkAppended(qs[1..], c - 1, x);
      assert r[1..] == qs[1..][c - 1 := qs[1..][c - 1] + [x]];
    }
  }

  lemma {:induction false} UnlinkCommutes(qs: seq<seq<Id>>, c: nat, x: Id, y: Id)
    requires c < |qs| && x in Contents(qs) && x != y
    ensures Unlink(qs[c := qs[c] + [y]], x) == Unlink(qs, x)[c := Unlink(qs, x)[c] + [y]]
  {
    hide Unlink, Contents, Without;
    var r := qs[c := qs[c] + [y]];
    UnlinkUnfold(qs, x);
    UnlinkUnfold(r, x);
    ContentsUnfold(qs, x);
    if c == 0 {
      assert r[1..] == qs[1..];
      if x in qs[0] { WithoutCommutes(qs[0], x, y); }
    } else {
      var t := qs[1..];
      assert r[1..] == t[c - 1 := t[c - 1] + [y]] && r[0] == qs[0];
      if x !in qs[0] { UnlinkCommutes(t, c - 1, x, y); }
    }
  }

  // ----- the operations

  predicate HasVcpu(m: Machine, v: nat, i: nat) {
    v < |m.vms| && i < |m.vms[v].vcpus| && |m.queues| > 0
  }

  function SetVcpu(m: Machine, v: nat, i: nat, c: Vcpu): Machine
    requires HasVcpu(m, v, i)
  {
    m.(vms := m.vms[v := m.vms[v].(vcpus := m.vms[v].vcpus[i := c])])
  }

  function SetVm(m: Machine, v: nat, vm: Vm): Machine
    requires v < |m.vms|
  {
    m.(vms := m.vms[v := vm])
  }

  /** vcpu_start: set up once, mark running and enqueue; ready tells whether a set-up succeeds. */
  function StartVcpu(m: Machine, v: nat, i: nat, ready: bool): (Machine, bool)
    requires HasVcpu(m, v, i)
  {
    var c := m.vms[v].vcpus[i];
    if c.running then (m, true)
    else if !c.initialized && !ready then (m, false)
    else (SetVcpu(m, v, i, Vcpu(true, true)).(queues := Enqueue(m.queues, Id(v, i))), true)
  }

  /** vcpu_stop. */
  function StopVcpu(m: Machine, v: nat, i: nat): Machine
    requires HasVcpu(m, v, i)
  {
    SetVcpu(m, v, i, m.vms[v].vcpus[i].(running := false)).(queues := Unlink(m.queues, Id(v, i)))
  }

  /** vCPUs 0 to n - 1 stopped in order. */
  function StopTo(m: Machine, v: nat, n: nat): (r: Machine)
    requires v < |m.vms| && n <= |m.vms[v].vcpus| && |m.queues| > 0
    ensures |r.vms| == |m.vms| && |r.vms[v].vcpus| == |m.vms[v].vcpus| && |r.queues| == |m.queues|
    ensures r.vms[v].state == m.vms[v].state
  {
    if n == 0 then m else StopVcpu(StopTo(m, v, n - 1), v, n - 1)
  }

  function Ready(setup: seq<bool>, i: nat): bool { i < |setup| ==> setup[i] }

  /** The start loop from vCPU i on, with its rollback on failure. */
  function StartFrom(m: Machine, v: nat, i: nat, setup: seq<bool>): (Machine, bool)
    requires v < |m.vms| && |m.queues| > 0 && i <= |m.vms[v].vcpus|
    decreases |m.vms[v].vcpus| - i
  {
    if i == |m.vms[v].vcpus| then (SetVm(m, v, m.vms[v].(state := Running)), true)
    else
      var (m', ok) := StartVcpu(m, v, i, Ready(setup, i));
      if ok then StartFrom(m', v, i + 1, setup) else (StopTo(m', v, i), false)
  }

  function Start(m: Machine, v: nat, setup: seq<bool>): (Machine, bool)
    requires v < |m.vms| && |m.queues| > 0
  {
    match m.vms[v].state
    case Running => (m, true)
    case Destroyed => (m, false)
    case _ => StartFrom(m, v, 0, setup)
  }

  function Stop(m: Machine, v: nat): (r: (Machine, bool))
    requires v < |m.vms| && |m.queues| > 0
    ensures |r.0.vms| == |m.vms| && |r.0.queues| == |m.queues|
  {
    if m.vms[v].state != Running then (m, false)
    else
      var r := StopTo(m, v, |m.vms[v].vcpus|);
      (SetVm(r, v, r.vms[v].(state := Shutdown)), true)
  }

  function Pause(m: Machine, v: nat): (Machine, bool)
    requires v < |m.vms|
  {
    var vm := m.vms[v];
    if vm.state != Running then (m, false)
    else (SetVm(m, v, Vm(Paused, seq(|vm.vcpus|, i requires 0 <= i < |vm.vcpus| =>
            vm.vcpus[i].(running := false)))), true)
  }

  function Resume(m: Machine, v: nat): (Machine, bool)
    requires v < |m.vms|
  {
    var vm := m.vms[v];
    if vm.state != Paused then (m, false)
    else (SetVm(m, v, Vm(Running, seq(|vm.vcpus|, i requires 0 <= i < |vm.vcpus| =>
            if vm.vcpus[i].initialized then vm.vcpus[i].(running := true) else vm.vcpus[i]))), true)
  }

  function Reset(m: Machine, v: nat): Machine
    requires v < |m.vms| && |m.queues| > 0
  {
    var r := if m.vms[v].state == Running then Stop(m, v).0 else m;
    SetVm(r, v, r.vms[v].(state := Shutdown))
  }

  /** vm_destroy: stop if running, then stop every vCPU that still runs and drop the VM. */
  function StopRunning(m: Machine, v: nat, n: nat): (r: Machine)
    requires v < |m.vms| && n <= |m.vms[v].vcpus| && |m.queues| > 0
    ensures |r.vms| == |m.vms| && |r.vms[v].vcpus| == |m.vms[v].vcpus| && |r.queues| == |m.queues|
  {
    if n == 0 then m
    else
      var r := StopRunning(m, v, n - 1);
      if r.vms[v].vcpus[n - 1].running then StopVcpu(r, v, n - 1) else r
  }

  function Destroy(m: Machine, v: nat): Machine
    requires v < |m.vms| && |m.queues| > 0
  {
    var r := if m.vms[v].state == Running then Stop(m, v).0 else m;
    SetVm(StopRunning(r, v, |r.vms[v].vcpus|), v, Vm(Destroyed, []))
  }

  function Create(m: Machine, vcpuCount: nat): Machine {
    m.(vms := m.vms + [Vm(Initialized, seq(vcpuCount, i => Vcpu(false, false)))])
  }

  // ----- closed forms of the start and stop loops

  function AppendIds(qs: seq<seq<Id>>, v: nat, a: nat, b: nat): (r: seq<seq<Id>>)
    requires |qs| > 0 && a <= b
    ensures |r| == |qs|
  {
    if a == b then qs else Enqueue(AppendIds(qs, v, a, b - 1), Id(v, b - 1))
  }

  lemma {:induction false} AppendIdsCount(qs: seq<seq<Id>>, v: nat, a: nat, b: nat, id: Id)
    requires |qs| > 0 && a <= b
    ensures Contents(AppendIds(qs, v, a, b))[id] ==
            Contents(qs)[id] + if id.vm == v && a <= id.vcpu < b then 1 else 0
    decreases b
  {
    hide Contents, Enqueue, CpuOf;
    if a < b {
      AppendIdsCount(qs, v, a, b - 1, id);
      EnqueueContents(AppendIds(qs, v, a, b - 1), Id(v, b - 1));
    }
  }

  /** Unlinking the first appended entity is as if it had never been appended. */
  lemma {:induction false} UnlinkFirst(qs: seq<seq<Id>>, v: nat, a: nat, b: nat)
    requires |qs| > 0 && a < b && Id(v, a) !in Contents(qs)
    ensures Unlink(AppendIds(qs, v, a, b), Id(v, a)) == AppendIds(qs, v, a + 1, b)
    decreases b
  {
    hide Contents, Unlink, CpuOf;
    if b == a + 1 {
      UnlinkAppended(qs, CpuOf(a, |qs|), Id(v, a));
      assert AppendIds(qs, v, a, a) == qs;
    } else {
      UnlinkFirst(qs, v, a, b - 1);
      var x := AppendIds(qs, v, a, b - 1);
      AppendIdsCount(qs, v, a, b - 1, Id(v, a));
      UnlinkCommutes(x, CpuOf(b - 1, |qs|), Id(v, a), Id(v, b - 1));
    }
  }

  /** vCPUs below a stopped but initialized, from a to b running, the rest as in m. */
  ghost function Between(m: Machine, v: nat, a: nat, b: nat): Machine
    requires v < |m.vms| && |m.queues| > 0 && a <= b <= |m.vms[v].vcpus|
  {
    var vcpus := m.vms[v].vcpus;
    Machine(m.vms[v := m.vms[v].(vcpus := seq(|vcpus|, i requires 0 <= i < |vcpus| =>
              if i < a then Vcpu(false, true) else if i < b then Vcpu(true, true) else vcpus[i]))],
            AppendIds(m.queues, v, a, b))
  }

  ghost predicate NoneUp(m: Machine, v: nat) {
    && v < |m.vms| && |m.queues| > 0
    && (forall i :: 0 <= i < |m.vms[v].vcpus| ==> !m.vms[v].vcpus[i].running)
    && (forall i: nat :: Id(v, i) !in Contents(m.queues))
  }

  lemma {:induction false} StopToBetween(m: Machine, v: nat, a: nat, b: nat)
    requires NoneUp(m, v) && a <= b <= |m.vms[v].vcpus|
    ensures StopTo(Between(m, v, 0, b), v, a) == Between(m, v, a, b)
  {
    hide Contents, Unlink, Enqueue;
    if a > 0 {
      StopToBetween(m, v, a - 1, b);
      UnlinkFirst(m.queues, v, a - 1, b);
      var r := StopVcpu(Between(m, v, a - 1, b), v, a - 1);
      assert r.vms[v].vcpus == Between(m, v, a, b).vms[v].vcpus;
      assert r.vms == Between(m, v, a, b).vms;
    }
  }

  /** The first vCPU from i on whose set-up fails, or the number of vCPUs. */
  function FirstFailure(vcpus: seq<Vcpu>, setup: seq<bool>, i: nat): nat
    decreases |vcpus| - i
  {
    if i >= |vcpus| then |vcpus|
    else if !vcpus[i].initialized && !Ready(setup, i) then i
    else FirstFailure(vcpus, setup, i + 1)
  }

  lemma {:induction false} FirstFailureBounds(vcpus: seq<Vcpu>, setup: seq<bool>, i: nat)
    requires i <= |vcpus|
    ensures i <= FirstFailure(vcpus, setup, i) <= |vcpus|
    decreases |vcpus| - i
  {
    if i < |vcpus| { FirstFailureBounds(vcpus, setup, i + 1); }
  }

  lemma {:induction false} StartFromBetween(m: Machine, v: nat, i: nat, setup: seq<bool>)
    requires NoneUp(m, v) && i <= |m.vms[v].vcpus|
    ensures var n := |m.vms[v].vcpus|;
            var k := FirstFailure(m.vms[v].vcpus, setup, i);
            i <= k <= n
            && StartFrom(Between(m, v, 0, i), v, i, setup) ==
               if k == n then (SetVm(Between(m, v, 0, n), v, Between(m, v, 0, n).vms[v].(state := Running)), true)
               else (Between(m, v, k, k), false)
    decreases |m.vms[v].vcpus| - i
  {
    hide Contents, Unlink, CpuOf, StopTo;
    var n := |m.vms[v].vcpus|;
    FirstFailureBounds(m.vms[v].vcpus, setup, i);
    if i < n {
      var b := Between(m, v, 0, i);
      assert b.vms[v].vcpus[i] == m.vms[v].vcpus[i];
      var (m', ok) := StartVcpu(b, v, i, Ready(setup, i));
      if ok {
        assert m'.vms[v].vcpus == Between(m, v, 0, i + 1).vms[v].vcpus;
        assert m'.vms == Between(m, v, 0, i + 1).vms;
        StartFromBetween(m, v, i + 1, setup);
      } else {
        StopToBetween(m, v, i, i);
      }
    }
  }

  /** vm_start of a stopped VM is all or nothing: either every vCPU runs and is queued once more, or
      the queues are exactly as before and no vCPU runs; only set-ups done so far are remembered. */
  lemma StartAllOrNothing(m: Machine, v: nat, setup: seq<bool>)
    requires NoneUp(m, v) && (m.vms[v].state == Initialized || m.vms[v].state == Shutdown)
    ensures var (r, ok) := Start(m, v, setup);
            var n := |m.vms[v].vcpus|;
            var k := FirstFailure(m.vms[v].vcpus, setup, 0);
            && (ok <==> k == n) && |r.vms| == |m.vms| && |r.vms[v].vcpus| == n
            && (forall u :: 0 <= u < |m.vms| && u != v ==> r.vms[u] == m.vms[u])
            && (ok ==> r.vms[v].state == Running && r.queues == AppendIds(m.queues, v, 0, n)
                       && forall i :: 0 <= i < n ==> r.vms[v].vcpus[i] == Vcpu(true, true))
            && (!ok ==> r.vms[v].state == m.vms[v].state && r.queues == m.queues
                        && forall i :: 0 <= i < n ==>
                             r.vms[v].vcpus[i] == if i < k then Vcpu(false, true) else m.vms[v].vcpus[i])
  {
    hide Contents, Unlink, CpuOf, StopTo, Enqueue, FirstFailure;
    assert Between(m, v, 0, 0).vms[v].vcpus == m.vms[v].vcpus;
    assert Between(m, v, 0, 0) == m;
    StartFromBetween(m, v, 0, setup);
  }

  // ----- vCPU flags, over every run

  ghost predicate FlagsOk(vm: Vm) {
    match vm.state
    case Running => forall i :: 0 <= i < |vm.vcpus| ==> vm.vcpus[i] == Vcpu(true, true)
    case Paused => forall i :: 0 <= i < |vm.vcpus| ==> vm.vcpus[i] == Vcpu(false, true)
    case Initialized => forall i :: 0 <= i < |vm.vcpus| ==> !vm.vcpus[i].running
    case Shutdown => forall i :: 0 <= i < |vm.vcpus| ==> !vm.vcpus[i].running
    case Destroyed => vm.vcpus == []
  }

  ghost predicate Flags(m: Machine) {
    |m.queues| > 0 && forall v :: 0 <= v < |m.vms| ==> FlagsOk(m.vms[v])
  }

  lemma {:induction false} StopToFlags(m: Machine, v: nat, n: nat)
    requires v < |m.vms| && n <= |m.vms[v].vcpus| && |m.queues| > 0
    ensures var r := StopTo(m, v, n);
            (forall u :: 0 <= u < |m.vms| && u != v ==> r.vms[u] == m.vms[u])
            && (forall i :: 0 <= i < |m.vms[v].vcpus| ==>
                  r.vms[v].vcpus[i] == if i < n then m.vms[v].vcpus[i].(running := false) else m.vms[v].vcpus[i])
  {
    hide Unlink;
    if n > 0 { StopToFlags(m, v, n - 1); }
  }

  lemma {:induction false} StartFromFlags(m: Machine, v: nat, i: nat, setup: seq<bool>)
    requires v < |m.vms| && |m.queues| > 0 && i <= |m.vms[v].vcpus|
    requires forall j :: 0 <= j < i ==> m.vms[v].vcpus[j] == Vcpu(true, true)
    requires forall j :: i <= j < |m.vms[v].vcpus| ==> !m.vms[v].vcpus[j].running
    ensures var (r, ok) := StartFrom(m, v, i, setup);
            |r.vms| == |m.vms| && |r.queues| == |m.queues| && |r.vms[v].vcpus| == |m.vms[v].vcpus|
            && (forall u :: 0 <= u < |m.vms| && u != v ==> r.vms[u] == m.vms[u])
            && (ok ==> r.vms[v].state == Running && FlagsOk(r.vms[v]))
            && (!ok ==> r.vms[v].state == m.vms[v].state
                        && forall j :: 0 <= j < |r.vms[v].vcpus| ==> !r.vms[v].vcpus[j].running)
            && (!ok ==> exists j :: i <= j < |m.vms[v].vcpus| && !m.vms[v].vcpus[j].initialized)
    decreases |m.vms[v].vcpus| - i
  {
    hide Unlink, Enqueue, StopTo;
    if i < |m.vms[v].vcpus| {
      var (m', ok) := StartVcpu(m, v, i, Ready(setup, i));
      if ok {
        StartFromFlags(m', v, i + 1, setup);
      } else {
        StopToFlags(m', v, i);
      }
    }
  }

  lemma {:induction false} StopRunningNothing(m: Machine, v: nat, n: nat)
    requires v < |m.vms| && n <= |m.vms[v].vcpus| && |m.queues| > 0
    requires forall i :: 0 <= i < |m.vms[v].vcpus| ==> !m.vms[v].vcpus[i].running
    ensures StopRunning(m, v, n) == m
  {
    if n > 0 { StopRunningNothing(m, v, n - 1); }
  }

  datatype Op =
    | CreateVm(vcpuCount: nat)
    | StartVm(v: nat, setup: seq<bool>)
    | StopVm(v: nat)
    | PauseVm(v: nat)
    | ResumeVm(v: nat)
    | ResetVm(v: nat)
    | DestroyVm(v: nat)
    | Reschedule(queues: seq<seq<Id>>)     // any scheduler activity: entities move, none come or go

  ghost predicate Enabled(m: Machine, op: Op) {
    match op
    case CreateVm(_) => true
    case Reschedule(qs) => |qs| == |m.queues| && Contents(qs) == Contents(m.queues)
    case _ => op.v < |m.vms| && m.vms[op.v].state != Destroyed
  }

  ghost function Step(m: Machine, op: Op): Machine
    requires |m.queues| > 0 && Enabled(m, op)
  {
    match op
    case CreateVm(n) => Create(m, n)
    case StartVm(v, setup) => Start(m, v, setup).0
    case StopVm(v) => Stop(m, v).0
    case PauseVm(v) => Pause(m, v).0
    case ResumeVm(v) => Resume(m, v).0
    case ResetVm(v) => Reset(m, v)
    case DestroyVm(v) => Destroy(m, v)
    case Reschedule(qs) => m.(queues := qs)
  }

  lemma StopFlags(m: Machine, v: nat)
    requires Flags(m) && v < |m.vms|
    ensures var r := Stop(m, v).0;
            Flags(r) && |r.vms| == |m.vms| && |r.vms[v].vcpus| == |m.vms[v].vcpus|
            && (m.vms[v].state == Running ==> r.vms[v].state == Shutdown)
            && (m.vms[v].state != Running ==> r == m)
  {
    hide StopTo;
    if m.vms[v].state == Running {
      StopToFlags(m, v, |m.vms[v].vcpus|);
    }
  }

  /** The flags invariant survives every operation, failed starts included. */
  lemma StepFlags(m: Machine, op: Op)
    requires Flags(m) && Enabled(m, op)
    ensures Flags(Step(m, op))
  {
    hide StopTo, StartFrom, Stop, StopRunning, Contents, Destroy;
    match op
    case StartVm(v, setup) =>
      if m.vms[v].state != Running { StartFromFlags(m, v, 0, setup); }
    case StopVm(v) => StopFlags(m, v);
    case ResetVm(v) => StopFlags(m, v);
    case DestroyVm(v) =>
      DestroyShape(m, v);
      StopFlags(m, v);
    case _ =>
  }

  lemma DestroyShape(m: Machine, v: nat)
    requires Flags(m) && v < |m.vms| && m.vms[v].state != Destroyed
    ensures Destroy(m, v) == SetVm(Stop(m, v).0, v, Vm(Destroyed, []))
  {
    hide StopTo;
    StopFlags(m, v);
    var r := Stop(m, v).0;
    assert FlagsOk(r.vms[v]);
    StopRunningNothing(r, v, |r.vms[v].vcpus|);
  }

  ghost function RunOps(m: Machine, ops: seq<Op>): Machine
    requires Flags(m) && AllEnabled(m, ops)
    decreases |ops|
  {
    if ops == [] then m else StepFlags(m, ops[0]); RunOps(Step(m, ops[0]), ops[1..])
  }

  ghost predicate AllEnabled(m: Machine, ops: seq<Op>)
    requires Flags(m)
    decreases |ops|
  {
    ops == [] || (Enabled(m, ops[0]) && (StepFlags(m, ops[0]); AllEnabled(Step(m, ops[0]), ops[1..])))
  }

  /** On every run a RUNNING VM has all vCPUs initialized and running and any other VM has none running. */
  lemma {:induction false} RunFlags(m: Machine, ops: seq<Op>)
    requires Flags(m) && AllEnabled(m, ops)
    ensures Flags(RunOps(m, ops))
    decreases |ops|
  {
    hide FlagsOk, Step, Enabled;
    if ops != [] {
      StepFlags(m, ops[0]);
      RunFlags(Step(m, ops[0]), ops[1..]);
    }
  }

  // ----- run queue membership, over every run

  ghost predicate Schedulable(m: Machine, id: Id) {
    && id.vm < |m.vms| && id.vcpu < |m.vms[id.vm].vcpus|
    && (m.vms[id.vm].state == Running || m.vms[id.vm].state == Paused)
  }

  /** Each vCPU of a RUNNING or PAUSED VM is linked exactly once, and nothing else is linked. */
  ghost predicate QueuesOk(m: Machine) {
    forall id :: Contents(m.queues)[id] == if Schedulable(m, id) then 1 else 0
  }

  ghost predicate Inv(m: Machine) { Flags(m) && QueuesOk(m) }

  lemma {:induction false} StopToCount(m: Machine, v: nat, n: nat, id: Id)
    requires v < |m.vms| && n <= |m.vms[v].vcpus| && |m.queues| > 0
    requires forall i: nat :: i < n ==> Contents(m.queues)[Id(v, i)] == 1
    ensures Contents(StopTo(m, v, n).queues)[id] ==
            if id.vm == v && id.vcpu < n then 0 else Contents(m.queues)[id]
  {
    hide Contents, Unlink;
    if n > 0 {
      StopToCount(m, v, n - 1, id);
      StopToCount(m, v, n - 1, Id(v, n - 1));
      var r := StopTo(m, v, n - 1);
      assert Contents(m.queues)[Id(v, n - 1)] == 1;
      UnlinkContents(r.queues, Id(v, n - 1));
      assert Contents(r.queues)[id] == (Contents(Unlink(r.queues, Id(v, n - 1))) + multiset{Id(v, n - 1)})[id];
    }
  }

  lemma StopQueues(m: Machine, v: nat)
    requires Inv(m) && v < |m.vms|
    ensures QueuesOk(Stop(m, v).0)
  {
    hide Contents, StopTo;
    if m.vms[v].state == Running {
      StopToFlags(m, v, |m.vms[v].vcpus|);
      forall i: nat | i < |m.vms[v].vcpus| ensures Contents(m.queues)[Id(v, i)] == 1 {
        assert Schedulable(m, Id(v, i));
      }
      var r := Stop(m, v).0;
      forall id ensures Contents(r.queues)[id] == if Schedulable(r, id) then 1 else 0 {
        StopToCount(m, v, |m.vms[v].vcpus|, id);
        if id.vm < |m.vms| && id.vm != v { assert r.vms[id.vm] == m.vms[id.vm]; }
      }
    }
  }

  /** Starting stopped, initialized vCPUs links each of them once more. */
  lemma {:induction false} StartFromCount(m: Machine, v: nat, i: nat, setup: seq<bool>, id: Id)
    requires v < |m.vms| && |m.queues| > 0 && i <= |m.vms[v].vcpus|
    requires forall j :: i <= j < |m.vms[v].vcpus| ==> m.vms[v].vcpus[j] == Vcpu(false, true)
    ensures var (r, ok) := StartFrom(m, v, i, setup);
            ok && Contents(r.queues)[id] ==
                  Contents(m.queues)[id] + if id.vm == v && i <= id.vcpu < |m.vms[v].vcpus| then 1 else 0
    decreases |m.vms[v].vcpus| - i
  {
    hide Contents, Enqueue, StopTo;
    if i < |m.vms[v].vcpus| {
      var (m', ok) := StartVcpu(m, v, i, Ready(setup, i));
      EnqueueContents(m.queues, Id(v, i));
      StartFromCount(m', v, i + 1, setup, id);
    }
  }

  lemma StartQueues(m: Machine, v: nat, setup: seq<bool>)
    requires Inv(m) && v < |m.vms| && (m.vms[v].state == Initialized || m.vms[v].state == Shutdown)
    ensures QueuesOk(Start(m, v, setup).0)
  {
    hide Contents, StartFrom, AppendIds, FirstFailure;
    forall i: nat ensures Id(v, i) !in Contents(m.queues) {
      assert Contents(m.queues)[Id(v, i)] == 0;
    }
    assert FlagsOk(m.vms[v]);
    StartAllOrNothing(m, v, setup);
    var (r, ok) := Start(m, v, setup);
    var n := |m.vms[v].vcpus|;
    forall id ensures Contents(r.queues)[id] == if Schedulable(r, id) then 1 else 0 {
      AppendIdsCount(m.queues, v, 0, n, id);
      if id.vm < |m.vms| && id.vm != v { assert r.vms[id.vm] == m.vms[id.vm]; }
    }
  }

  /** The calls that take a PAUSED VM somewhere else than vm_resume does. */
  predicate LeavesPaused(m: Machine, op: Op) {
    && (op.StartVm? || op.ResetVm? || op.DestroyVm?)
    && op.v < |m.vms| && m.vms[op.v].state == Paused && m.vms[op.v].vcpus != []
  }

  lemma StartPausedBreaks(m: Machine, v: nat, setup: seq<bool>)
    requires Inv(m) && v < |m.vms| && m.vms[v].state == Paused && m.vms[v].vcpus != []
    ensures !QueuesOk(Start(m, v, setup).0)
  {
    hide Contents, StartFrom;
    assert FlagsOk(m.vms[v]);
    StartFromCount(m, v, 0, setup, Id(v, 0));
    assert Schedulable(m, Id(v, 0));
  }

  /** A machine with one VM that has one vCPU. */
  function Solo(state: VmState, running: bool, initialized: bool, qs: seq<seq<Id>>): Machine {
    Machine([Vm(state, [Vcpu(running, initialized)])], qs)
  }

  lemma SoloCreate(qs: seq<seq<Id>>)
    ensures Create(Machine([], qs), 1) == Solo(Initialized, false, false, qs)
  {
    assert seq(1, i => Vcpu(false, false)) == [Vcpu(false, false)];
  }

  lemma SoloPause(qs: seq<seq<Id>>)
    ensures Pause(Solo(Running, true, true, qs), 0).0 == Solo(Paused, false, true, qs)
  {
    var vcpus := [Vcpu(true, true)];
    assert seq(1, i requires 0 <= i < 1 => vcpus[i].(running := false)) == [Vcpu(false, true)];
    assert Pause(Solo(Running, true, true, qs), 0).0.vms[0].vcpus == [Vcpu(false, true)];
  }

  lemma SoloStart(state: VmState, initialized: bool, qs: seq<seq<Id>>)
    requires (state == Initialized || state == Paused) && |qs| > 0
    ensures Start(Solo(state, false, initialized, qs), 0, []).0 == Solo(Running, true, true, Enqueue(qs, Id(0, 0)))
  {
    hide Enqueue;
    var m := Solo(state, false, initialized, qs);
    var m' := StartVcpu(m, 0, 0, true).0;
    assert m'.vms[0].vcpus == [Vcpu(true, true)];
    assert m' == Solo(state, true, true, Enqueue(qs, Id(0, 0)));
    assert StartFrom(m', 0, 1, []).0 == Solo(Running, true, true, Enqueue(qs, Id(0, 0)));
    assert StartFrom(m, 0, 0, []) == StartFrom(m', 0, 1, []);
  }

  /** A run from the empty table: one VM with one vCPU is created, started, paused and started again,
      and its vCPU stands in the queue twice. */
  lemma StartPausedTwice(cpus: nat, m: Machine, ops: seq<Op>)
    requires cpus > 0 && m == Machine([], seq(cpus, i => []))
    requires ops == [CreateVm(1), StartVm(0, []), PauseVm(0), StartVm(0, [])]
    ensures Flags(m) && AllEnabled(m, ops)
    ensures RunOps(m, ops) == Solo(Running, true, true, m.queues[0 := [Id(0, 0), Id(0, 0)]])
    ensures !QueuesOk(RunOps(m, ops))
  {
    hide Contents, StartFrom, Start, Pause, Create, Enqueue, QueuesOk;
    var id := Id(0, 0);
    var q1 := Enqueue(m.queues, id);
    var q2 := Enqueue(q1, id);
    QueuedTwice(m.queues, q2);
    var m1, m2 := Solo(Initialized, false, false, m.queues), Solo(Running, true, true, q1);
    var m3, m4 := Solo(Paused, false, true, q1), Solo(Running, true, true, q2);
    SoloCreate(m.queues);
    SoloStart(Initialized, false, m.queues);
    SoloPause(q1);
    SoloStart(Paused, true, q1);
    assert Step(m, ops[0]) == m1 && Step(m1, ops[1]) == m2 && Step(m2, ops[2]) == m3 && Step(m3, ops[3]) == m4;
    SoloFlags(m1);
    SoloFlags(m2);
    SoloFlags(m3);
    SoloFlags(m4);
    assert ops[3..][1..] == [] && AllEnabled(m4, []) && RunOps(m4, []) == m4;
    assert ops[2..][1..] == ops[3..] && AllEnabled(m3, ops[3..]) && RunOps(m3, ops[3..]) == m4;
    assert ops[1..][1..] == ops[2..] && AllEnabled(m2, ops[2..]) && RunOps(m2, ops[2..]) == m4;
    assert AllEnabled(m1, ops[1..]) && RunOps(m1, ops[1..]) == m4;
  }

  lemma SoloFlags(m: Machine)
    requires |m.vms| == 1 && |m.queues| > 0 && FlagsOk(m.vms[0])
    ensures Flags(m)
  {}

  lemma QueuedTwice(qs: seq<seq<Id>>, q2: seq<seq<Id>>)
    requires |qs| > 0 && (forall i :: 0 <= i < |qs| ==> qs[i] == [])
    requires q2 == Enqueue(Enqueue(qs, Id(0, 0)), Id(0, 0))
    ensures q2 == qs[0 := [Id(0, 0), Id(0, 0)]] && !QueuesOk(Solo(Running, true, true, q2))
  {
    hide Contents;
    EnqueueContents(qs, Id(0, 0));
    EnqueueContents(Enqueue(qs, Id(0, 0)), Id(0, 0));
    assert Contents(q2)[Id(0, 0)] >= 2;
    assert CpuOf(0, |qs|) == 0;
    assert qs[0] + [Id(0, 0)] == [Id(0, 0)] && [Id(0, 0)] + [Id(0, 0)] == [Id(0, 0), Id(0, 0)];
    assert Enqueue(qs, Id(0, 0)) == qs[0 := [Id(0, 0)]];
  }

  /** vm_start, vm_reset and vm_destroy of a PAUSED VM break queue membership, and nothing else does. */
  lemma QueuesKeptIff(m: Machine, op: Op)
    requires Inv(m) && Enabled(m, op)
    ensures QueuesOk(Step(m, op)) <==> !LeavesPaused(m, op)
  {
    hide Contents, StartFrom, StopTo, StopRunning, Start, Stop, Destroy, FlagsOk, QueuesOk, Pause, Resume, Create;
    match op
    case CreateVm(n) => CreateQueues(m, n);
    case StartVm(v, setup) => StartQueuesIff(m, v, setup);
    case StopVm(v) => StopQueues(m, v);
    case PauseVm(v) => PauseResumeQueues(m, v);
    case ResumeVm(v) => PauseResumeQueues(m, v);
    case ResetVm(v) =>
      StopQueues(m, v);
      StopFlags(m, v);
      DropQueues(m, v, Stop(m, v).0, Step(m, op));
    case DestroyVm(v) =>
      StopQueues(m, v);
      StopFlags(m, v);
      DestroyShape(m, v);
      DropQueues(m, v, Stop(m, v).0, Step(m, op));
    case Reschedule(qs) => OtherQueues(m, Step(m, op));
  }

  lemma CreateQueues(m: Machine, n: nat)
    requires QueuesOk(m)
    ensures QueuesOk(Create(m, n))
  {
    hide Contents, QueuesOk;
    OtherQueues(m, Create(m, n));
  }

  lemma PauseResumeQueues(m: Machine, v: nat)
    requires QueuesOk(m) && v < |m.vms|
    ensures QueuesOk(Pause(m, v).0) && QueuesOk(Resume(m, v).0)
  {
    hide Contents, QueuesOk;
    OtherQueues(m, Pause(m, v).0);
    OtherQueues(m, Resume(m, v).0);
  }

  lemma OtherQueues(m: Machine, r: Machine)
    requires QueuesOk(m) && Contents(r.queues) == Contents(m.queues)
    requires forall id :: Schedulable(r, id) == Schedulable(m, id)
    ensures QueuesOk(r)
  {}

  lemma StartQueuesIff(m: Machine, v: nat, setup: seq<bool>)
    requires Inv(m) && v < |m.vms| && m.vms[v].state != Destroyed
    ensures QueuesOk(Start(m, v, setup).0) <==> !(m.vms[v].state == Paused && m.vms[v].vcpus != [])
  {
    hide Contents, QueuesOk, FlagsOk;
    match m.vms[v].state
    case Paused =>
      if m.vms[v].vcpus != [] {
        StartPausedBreaks(m, v, setup);
      } else {
        var r := Start(m, v, setup).0;
        OtherQueues(m, r);
      }
    case Running =>
    case Destroyed =>
    case Initialized => StartQueues(m, v, setup);
    case Shutdown => StartQueues(m, v, setup);
  }

  /** Dropping a stopped VM out of the schedulable states keeps the queues right unless it was PAUSED. */
  lemma DropQueues(m: Machine, v: nat, r: Machine, d: Machine)
    requires Inv(m) && v < |m.vms| == |r.vms| == |d.vms| && QueuesOk(r) && d.queues == r.queues
    requires if m.vms[v].state == Running then r.vms[v].state == Shutdown else r == m
    requires forall u :: 0 <= u < |r.vms| && u != v ==> d.vms[u] == r.vms[u]
    requires d.vms[v].state != Running && d.vms[v].state != Paused
    ensures QueuesOk(d) <==> !(m.vms[v].state == Paused && m.vms[v].vcpus != [])
  {
    hide Contents;
    if m.vms[v].state == Paused && m.vms[v].vcpus != [] {
      assert Schedulable(r, Id(v, 0)) && !Schedulable(d, Id(v, 0));
      assert Contents(r.queues)[Id(v, 0)] == 1;
    } else {
      forall id ensures Schedulable(d, id) == Schedulable(r, id) {
        if id.vm < |r.vms| && id.vm != v { assert d.vms[id.vm] == r.vms[id.vm]; }
      }
      OtherQueues(r, d);
    }
  }

  ghost predicate OnlyResumed(m: Machine, ops: seq<Op>)
    requires Flags(m) && AllEnabled(m, ops)
    decreases |ops|
  {
    ops == [] || (!LeavesPaused(m, ops[0]) && (StepFlags(m, ops[0]); OnlyResumed(Step(m, ops[0]), ops[1..])))
  }

  /** On every run in which a PAUSED VM is only resumed, queue membership is exact. */
  lemma {:induction false} RunQueuesOk(m: Machine, ops: seq<Op>)
    requires Inv(m) && AllEnabled(m, ops) && OnlyResumed(m, ops)
    ensures Inv(RunOps(m, ops))
    decreases |ops|
  {
    hide FlagsOk, QueuesOk, Step, Enabled, LeavesPaused;
    if ops != [] {
      StepFlags(m, ops[0]);
      QueuesKeptIff(m, ops[0]);
      RunQueuesOk(Step(m, ops[0]), ops[1..]);
    }
  }

  // ----- what each operation does, by the state of the VM

  /** vCPUs of VM v below n that belong to CPU c, in increasing order. */
  ghost function Placed(v: nat, n: nat, c: nat, cpus: nat): (r: seq<Id>)
    requires cpus > 0
    ensures forall id :: id in r <==> id.vm == v && id.vcpu < n && id.vcpu % cpus == c
    ensures forall a, b :: 0 <= a < b < |r| ==> r[a].vcpu < r[b].vcpu
  {
    if n == 0 then []
    else
      var p := Placed(v, n - 1, c, cpus);
      assert forall a :: 0 <= a < |p| ==> p[a] in p;
      if (n - 1) % cpus == c then p + [Id(v, n - 1)] else p
  }

  lemma {:induction false} AppendPlaces(qs: seq<seq<Id>>, v: nat, n: nat, c: nat)
    requires c < |qs|
    ensures AppendIds(qs, v, 0, n)[c] == qs[c] + Placed(v, n, c, |qs|)
  {
    if n > 0 { AppendPlaces(qs, v, n - 1, c); }
  }

  /** A start of a stopped VM that succeeds puts its vCPUs, in increasing order, behind what each queue
      held: vCPU i goes to CPU i modulo the number of CPUs. */
  lemma StartPlaces(m: Machine, v: nat, setup: seq<bool>)
    requires NoneUp(m, v) && (m.vms[v].state == Initialized || m.vms[v].state == Shutdown)
    requires Start(m, v, setup).1
    ensures var r := Start(m, v, setup).0;
            && |r.queues| == |m.queues|
            && forall c :: 0 <= c < |m.queues| ==>
                 r.queues[c] == m.queues[c] + Placed(v, |m.vms[v].vcpus|, c, |m.queues|)
  {
    hide Contents, StartFrom, AppendIds, FirstFailure, Placed;
    StartAllOrNothing(m, v, setup);
    forall c | 0 <= c < |m.queues|
      ensures AppendIds(m.queues, v, 0, |m.vms[v].vcpus|)[c]
              == m.queues[c] + Placed(v, |m.vms[v].vcpus|, c, |m.queues|)
    {
      AppendPlaces(m.queues, v, |m.vms[v].vcpus|, c);
    }
  }

  /** A queue without the vCPUs of VM v below n, the others in their order. */
  ghost function Dropped(q: seq<Id>, v: nat, n: nat): seq<Id> {
    if q == [] then []
    else (if q[0].vm == v && q[0].vcpu < n then [] else [q[0]]) + Dropped(q[1..], v, n)
  }

  lemma {:induction false} DroppedNone(q: seq<Id>, v: nat)
    ensures Dropped(q, v, 0) == q
  {
    if q != [] { DroppedNone(q[1..], v); }
  }

  lemma {:induction false} DroppedAbsent(q: seq<Id>, v: nat, n: nat)
    requires n > 0 && Id(v, n - 1) !in q
    ensures Dropped(q, v, n) == Dropped(q, v, n - 1)
  {
    if q != [] { DroppedAbsent(q[1..], v, n); }
  }

  lemma {:induction false} DroppedNext(q: seq<Id>, v: nat, n: nat)
    requires n > 0 && multiset(q)[Id(v, n - 1)] <= 1
    ensures Without(Dropped(q, v, n - 1), Id(v, n - 1)) == Dropped(q, v, n)
  {
    if q != [] {
      assert q == [q[0]] + q[1..];
      if q[0] == Id(v, n - 1) {
        assert Id(v, n - 1) !in multiset(q[1..]);
        DroppedAbsent(q[1..], v, n);
        assert Dropped(q, v, n - 1)[1..] == Dropped(q[1..], v, n - 1);
      } else {
        DroppedNext(q[1..], v, n);
        var d := Dropped(q[1..], v, n - 1);
        assert ([q[0]] + d)[1..] == d;
        assert Dropped(q, v, n - 1) == d || Dropped(q, v, n - 1) == [q[0]] + d;
      }
    }
  }

  lemma {:induction false} WithoutAbsent(q: seq<Id>, x: Id)
    requires x !in q
    ensures Without(q, x) == q
  {
    if q != [] { WithoutAbsent(q[1..], x); }
  }

  /** An entity that is linked at most once is unlinked from every queue. */
  lemma {:induction false} UnlinkAt(qs: seq<seq<Id>>, x: Id, c: nat)
    requires c < |qs| && Contents(qs)[x] <= 1
    ensures Unlink(qs, x)[c] == Without(qs[c], x)
  {
    hide Without;
    ContentsUnfold(qs, x);
    if x in qs[0] {
      if c > 0 {
        NotAgain(qs, x, c);
        WithoutAbsent(qs[c], x);
      }
    } else if c == 0 {
      WithoutAbsent(qs[0], x);
    } else {
      UnlinkAt(qs[1..], x, c - 1);
    }
  }

  lemma NotAgain(qs: seq<seq<Id>>, x: Id, c: nat)
    requires 0 < c < |qs| && Contents(qs)[x] <= 1 && x in qs[0]
    ensures x !in qs[c]
  {
    AtMost(qs[1..], x, c - 1);
    assert multiset(qs[0])[x] >= 1;
  }

  lemma {:induction false} AtMost(qs: seq<seq<Id>>, x: Id, c: nat)
    requires c < |qs|
    ensures multiset(qs[c])[x] <= Contents(qs)[x]
  {
    if c > 0 { AtMost(qs[1..], x, c - 1); }
  }

  lemma {:induction false} StopToDropped(m: Machine, v: nat, n: nat, c: nat)
    requires v < |m.vms| && n <= |m.vms[v].vcpus| && c < |m.queues|
    requires forall i: nat :: i < |m.vms[v].vcpus| ==> Contents(m.queues)[Id(v, i)] == 1
    ensures StopTo(m, v, n).queues[c] == Dropped(m.queues[c], v, n)
  {
    hide Contents, Unlink, Dropped, Without;
    if n == 0 {
      DroppedNone(m.queues[c], v);
    } else {
      var id := Id(v, n - 1);
      var r := StopTo(m, v, n - 1);
      StopToDropped(m, v, n - 1, c);
      assert Contents(m.queues)[id] == 1;
      StopToCount(m, v, n - 1, id);
      UnlinkAt(r.queues, id, c);
      AtMost(m.queues, id, c);
      DroppedNext(m.queues[c], v, n);
    }
  }

  /** Everything about the other VMs and about v's set-ups is as before. */
  ghost predicate OnlyFlags(m: Machine, r: Machine, v: nat)
    requires v < |m.vms|
  {
    && |r.vms| == |m.vms| && |r.queues| == |m.queues| && |r.vms[v].vcpus| == |m.vms[v].vcpus|
    && (forall u :: 0 <= u < |m.vms| && u != v ==> r.vms[u] == m.vms[u])
    && (forall i :: 0 <= i < |m.vms[v].vcpus| ==> r.vms[v].vcpus[i].initialized == m.vms[v].vcpus[i].initialized)
  }

  ghost predicate NoneRuns(vm: Vm) {
    forall i :: 0 <= i < |vm.vcpus| ==> !vm.vcpus[i].running
  }

  /** Each queue has lost exactly the vCPUs of v and kept the order of the rest. */
  ghost predicate LeftQueues(m: Machine, r: Machine, v: nat)
    requires v < |m.vms| && |r.queues| == |m.queues|
  {
    forall c :: 0 <= c < |m.queues| ==> r.queues[c] == Dropped(m.queues[c], v, |m.vms[v].vcpus|)
  }

  lemma StopMeans(m: Machine, v: nat)
    requires Inv(m) && v < |m.vms|
    ensures var (r, ok) := Stop(m, v);
            && (ok <==> m.vms[v].state == Running)
            && (!ok ==> r == m)
            && (ok ==> r.vms[v].state == Shutdown && OnlyFlags(m, r, v) && NoneRuns(r.vms[v]) && LeftQueues(m, r, v))
  {
    hide Contents, StopTo, Dropped;
    if m.vms[v].state == Running {
      StopToFlags(m, v, |m.vms[v].vcpus|);
      forall i: nat | i < |m.vms[v].vcpus| ensures Contents(m.queues)[Id(v, i)] == 1 {
        assert Schedulable(m, Id(v, i));
      }
      forall c | 0 <= c < |m.queues|
        ensures StopTo(m, v, |m.vms[v].vcpus|).queues[c] == Dropped(m.queues[c], v, |m.vms[v].vcpus|)
      {
        StopToDropped(m, v, |m.vms[v].vcpus|, c);
      }
    }
  }

  lemma PauseMeans(m: Machine, v: nat)
    requires v < |m.vms|
    ensures var (r, ok) := Pause(m, v);
            && (ok <==> m.vms[v].state == Running)
            && (!ok ==> r == m)
            && (ok ==> r.vms[v].state == Paused && OnlyFlags(m, r, v) && NoneRuns(r.vms[v]) && r.queues == m.queues)
  {}

  lemma ResumeMeans(m: Machine, v: nat)
    requires v < |m.vms|
    ensures var (r, ok) := Resume(m, v);
            && (ok <==> m.vms[v].state == Paused)
            && (!ok ==> r == m)
            && (ok ==> r.vms[v].state == Running && OnlyFlags(m, r, v) && r.queues == m.queues)
            && (ok ==> forall i :: 0 <= i < |m.vms[v].vcpus| ==>
                  (r.vms[v].vcpus[i].running <==> m.vms[v].vcpus[i].initialized || m.vms[v].vcpus[i].running))
  {}

  /** vm_reset is never refused and ends in SHUTDOWN from every state. */
  lemma ResetMeans(m: Machine, v: nat)
    requires Inv(m) && v < |m.vms|
    ensures var r := Reset(m, v);
            && r.vms[v].state == Shutdown && OnlyFlags(m, r, v) && NoneRuns(r.vms[v])
            && (if m.vms[v].state == Running then LeftQueues(m, r, v) else r.queues == m.queues)
  {
    hide StopTo, Dropped, QueuesOk, Stop;
    assert FlagsOk(m.vms[v]);
    StopMeans(m, v);
  }

  /** vm_destroy drops the VM from every state, and leaves the queues of a PAUSED one as they are. */
  lemma DestroyMeans(m: Machine, v: nat)
    requires Inv(m) && v < |m.vms| && m.vms[v].state != Destroyed
    ensures var r := Destroy(m, v);
            && |r.vms| == |m.vms| && |r.queues| == |m.queues| && r.vms[v] == Vm(Destroyed, [])
            && (forall u :: 0 <= u < |m.vms| && u != v ==> r.vms[u] == m.vms[u])
            && (if m.vms[v].state == Running then LeftQueues(m, r, v) else r.queues == m.queues)
  {
    hide StopTo, Dropped, QueuesOk, Stop, Destroy;
    DestroyShape(m, v);
    StopMeans(m, v);
  }

  lemma {:induction false} StopRunningCount(m: Machine, v: nat, n: nat, id: Id)
    requires v < |m.vms| && n <= |m.vms[v].vcpus| && |m.queues| > 0
    ensures var r := StopRunning(m, v, n);
            && (forall i :: n <= i < |m.vms[v].vcpus| ==> r.vms[v].vcpus[i] == m.vms[v].vcpus[i])
            && Contents(r.queues)[id] == Contents(m.queues)[id]
                 - if id.vm == v && id.vcpu < n && m.vms[v].vcpus[id.vcpu].running
                      && id in Contents(m.queues) then 1 else 0
  {
    hide Contents, Unlink;
    if n > 0 {
      StopRunningCount(m, v, n - 1, id);
      var r, x := StopRunning(m, v, n - 1), Id(v, n - 1);
      StopRunningCount(m, v, n - 1, x);
      if r.vms[v].vcpus[n - 1].running {
        if x in Contents(r.queues) {
          UnlinkContents(r.queues, x);
          assert Contents(r.queues)[id] == (Contents(Unlink(r.queues, x)) + multiset{x})[id];
        } else {
          UnlinkAbsent(r.queues, x);
        }
      }
    }
  }

  /** In whatever condition a VM that is not RUNNING is, vm_destroy unlinks exactly those of its vCPUs that
      are marked running, once each. */
  lemma DestroyUnlinks(m: Machine, v: nat, id: Id)
    requires v < |m.vms| && |m.queues| > 0 && m.vms[v].state != Running
    ensures Contents(Destroy(m, v).queues)[id] == Contents(m.queues)[id]
              - if id.vm == v && id.vcpu < |m.vms[v].vcpus| && m.vms[v].vcpus[id.vcpu].running
                   && id in Contents(m.queues) then 1 else 0
  {
    hide Contents, StopRunning;
    StopRunningCount(m, v, |m.vms[v].vcpus|, id);
  }

  /** vm_start by state: nothing to do for a RUNNING VM, refused for a dropped one, and sure to succeed
      for a PAUSED one, whose vCPUs are all set up. */
  lemma StartByState(m: Machine, v: nat, setup: seq<bool>)
    requires Inv(m) && v < |m.vms|
    ensures var (r, ok) := Start(m, v, setup);
            && (m.vms[v].state == Running ==> ok && r == m)
            && (m.vms[v].state == Destroyed ==> !ok && r == m)
            && (m.vms[v].state == Paused ==> ok)
            && (ok <==> (m.vms[v].state != Destroyed && |r.vms| == |m.vms| && r.vms[v].state == Running))
            && (!ok ==> r.queues == m.queues)
  {
    hide Contents, StartFrom, AppendIds, FirstFailure;
    assert FlagsOk(m.vms[v]);
    match m.vms[v].state
    case Paused =>
      StartFromCount(m, v, 0, setup, Id(v, 0));
      StartFromFlags(m, v, 0, setup);
    case Running =>
    case Destroyed =>
    case _ =>
      forall i: nat ensures Id(v, i) !in Contents(m.queues) {
        assert Contents(m.queues)[Id(v, i)] == 0;
      }
      StartAllOrNothing(m, v, setup);
  }

  /** A new VM is INITIALIZED, with vCPUs neither set up nor running, and on no queue. */
  lemma CreateMeans(m: Machine, n: nat)
    ensures var r := Create(m, n);
            && r.queues == m.queues && |r.vms| == |m.vms| + 1 && r.vms[..|m.vms|] == m.vms
            && r.vms[|m.vms|].state == Initialized && |r.vms[|m.vms|].vcpus| == n
            && forall i :: 0 <= i < n ==> r.vms[|m.vms|].vcpus[i] == Vcpu(false, false)
  {}

  // ----- the operations on the mutable VM table

  class VmTable {
    var vms: seq<Vm>
    var queues: seq<seq<Id>>

    ghost function State(): Machine
      reads this
    {
      Machine(vms, queues)
    }

    constructor (cpus: nat)
      requires cpus > 0
      ensures |queues| == cpus && vms == [] && Inv(State())
    {
      vms, queues := [], seq(cpus, i => []);
      new;
      NothingQueued(queues);
    }

    method VcpuStart(v: nat, i: nat, ready: bool) returns (ok: bool)
      requires HasVcpu(State(), v, i)
      modifies this
      ensures (State(), ok) == StartVcpu(old(State()), v, i, ready)
      ensures ok <==> old(vms)[v].vcpus[i].running || old(vms)[v].vcpus[i].initialized || ready
      ensures ok ==> vms[v].vcpus[i].running
      ensures !ok || old(vms)[v].vcpus[i].running ==> vms == old(vms) && queues == old(queues)
      ensures ok && !old(vms)[v].vcpus[i].running ==>
                (vms == old(vms)[v := old(vms)[v].(vcpus := old(vms)[v].vcpus[i := Vcpu(true, true)])]
                 && var c := i % |queues|; queues == old(queues)[c := old(queues)[c] + [Id(v, i)]])
    {
      var c := vms[v].vcpus[i];
      if c.running {
        return true;
      }
      if !c.initialized {
        if !ready {
          return false;
        }
        c := c.(initialized := true);
      }
      c := c.(running := true);
      vms := vms[v := vms[v].(vcpus := vms[v].vcpus[i := c])];
      queues := Enqueue(queues, Id(v, i));
      return true;
    }

    method VcpuStop(v: nat, i: nat)
      requires HasVcpu(State(), v, i)
      modifies this
      ensures State() == StopVcpu(old(State()), v, i)
      ensures vms == old(vms)[v := old(vms)[v].(vcpus := vms[v].vcpus)] && |vms[v].vcpus| == |old(vms)[v].vcpus|
      ensures forall j :: 0 <= j < |vms[v].vcpus| && j != i ==> vms[v].vcpus[j] == old(vms)[v].vcpus[j]
      ensures !vms[v].vcpus[i].running && vms[v].vcpus[i].initialized == old(vms)[v].vcpus[i].initialized
      ensures if Id(v, i) in old(Contents(queues))
              then Contents(queues) + multiset{Id(v, i)} == old(Contents(queues))
              else queues == old(queues)
    {
      if Id(v, i) in Contents(queues) {
        UnlinkContents(queues, Id(v, i));
      } else {
        UnlinkAbsent(queues, Id(v, i));
      }
      vms := vms[v := vms[v].(vcpus := vms[v].vcpus[i := vms[v].vcpus[i].(running := false)])];
      queues := Unlink(queues, Id(v, i));
    }

    method StopFirst(v: nat, n: nat)
      requires v < |vms| && n <= |vms[v].vcpus| && |queues| > 0
      modifies this
      ensures State() == StopTo(old(State()), v, n)
    {
      hide Unlink;
      var j := 0;
      while j < n
        invariant 0 <= j <= n && v < |vms| && n <= |vms[v].vcpus| && |queues| > 0
        invariant State() == StopTo(old(State()), v, j)
      {
        VcpuStop(v, j);
        j := j + 1;
      }
    }

    method VmStart(v: nat, setup: seq<bool>) returns (ok: bool)
      requires v < |vms| && |queues| > 0
      modifies this
      ensures (State(), ok) == Start(old(State()), v, setup)
    {
      hide Unlink, Enqueue;
      if vms[v].state == Running {
        return true;
      }
      if vms[v].state != Initialized && vms[v].state != Paused && vms[v].state != Shutdown {
        return false;
      }
      ghost var start := State();
      var count := |vms[v].vcpus|;
      var i := 0;
      while i < count
        invariant 0 <= i <= count && v < |vms| && |vms[v].vcpus| == count && |queues| > 0
        invariant StartFrom(State(), v, i, setup) == StartFrom(start, v, 0, setup)
      {
        ok := VcpuStart(v, i, Ready(setup, i));
        if !ok {
          StopFirst(v, i);
          return false;
        }
        i := i + 1;
      }
      vms := vms[v := vms[v].(state := Running)];
      return true;
    }

    method VmStop(v: nat) returns (ok: bool)
      requires v < |vms| && |queues| > 0
      modifies this
      ensures (State(), ok) == Stop(old(State()), v)
    {
      if vms[v].state != Running {
        return false;
      }
      StopFirst(v, |vms[v].vcpus|);
      vms := vms[v := vms[v].(state := Shutdown)];
      return true;
    }

    method VmPause(v: nat) returns (ok: bool)
      requires v < |vms|
      modifies this
      ensures (State(), ok) == Pause(old(State()), v)
    {
      if vms[v].state != Running {
        return false;
      }
      ghost var before := vms;
      var count := |vms[v].vcpus|;
      var i := 0;
      while i < count
        invariant 0 <= i <= count && queues == old(queues) && |vms| == |before| && |vms[v].vcpus| == count
        invariant vms == before[v := before[v].(vcpus := vms[v].vcpus)]
        invariant forall j :: 0 <= j < count ==>
                    vms[v].vcpus[j] == if j < i then before[v].vcpus[j].(running := false) else before[v].vcpus[j]
      {
        if vms[v].vcpus[i].running {
          vms := vms[v := vms[v].(vcpus := vms[v].vcpus[i := vms[v].vcpus[i].(running := false)])];
        }
        i := i + 1;
      }
      vms := vms[v := vms[v].(state := Paused)];
      assert vms[v].vcpus == Pause(old(State()), v).0.vms[v].vcpus;
      assert vms == Pause(old(State()), v).0.vms;
      return true;
    }

    method VmResume(v: nat) returns (ok: bool)
      requires v < |vms|
      modifies this
      ensures (State(), ok) == Resume(old(State()), v)
    {
      if vms[v].state != Paused {
        return false;
      }
      ghost var before := vms;
      var count := |vms[v].vcpus|;
      var i := 0;
      while i < count
        invariant 0 <= i <= count && queues == old(queues) && |vms| == |before| && |vms[v].vcpus| == count
        invariant vms == before[v := before[v].(vcpus := vms[v].vcpus)]
        invariant forall j :: 0 <= j < count ==>
                    vms[v].vcpus[j] == if j < i && before[v].vcpus[j].initialized
                                       then before[v].vcpus[j].(running := true) else before[v].vcpus[j]
      {
        if vms[v].vcpus[i].initialized {
          vms := vms[v := vms[v].(vcpus := vms[v].vcpus[i := vms[v].vcpus[i].(running := true)])];
        }
        i := i + 1;
      }
      vms := vms[v := vms[v].(state := Running)];
      assert vms[v].vcpus == Resume(old(State()), v).0.vms[v].vcpus;
      assert vms == Resume(old(State()), v).0.vms;
      return true;
    }

    method VmReset(v: nat)
      requires v < |vms| && |queues| > 0
      modifies this
      ensures State() == Reset(old(State()), v)
    {
      if vms[v].state == Running {
        var _ := VmStop(v);
      }
      vms := vms[v := vms[v].(state := Shutdown)];
    }

    method VmDestroy(v: nat)
      requires v < |vms| && |queues| > 0
      modifies this
      ensures State() == Destroy(old(State()), v)
    {
      hide Unlink, StopTo;
      if vms[v].state == Running {
        var _ := VmStop(v);
      }
      ghost var r := State();
      var count := |vms[v].vcpus|;
      var i := 0;
      while i < count
        invariant 0 <= i <= count && v < |r.vms| && count == |r.vms[v].vcpus| && |r.queues| > 0
        invariant State() == StopRunning(r, v, i)
      {
        if vms[v].vcpus[i].running {
          VcpuStop(v, i);
        }
        i := i + 1;
      }
      vms := vms[v := Vm(Destroyed, [])];
    }
  }

  lemma {:induction false} NothingQueued(qs: seq<seq<Id>>)
    requires forall i :: 0 <= i < |qs| ==> qs[i] == []
    ensures Contents(qs) == multiset{}
  {
    if qs != [] { NothingQueued(qs[1..]); }
  }
}
