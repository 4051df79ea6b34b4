/** The null-terminated doubly linked list of VMs that src/hypervisor/hypervisor.c keeps, with its
    identifiers and its counter. */
module VmList {
  import opened Common

  /** Where vm_create may fail: before or after it has taken an identifier. */
  datatype Outcome = Success | NoVmMemory | LaterFailure

  class VmNode {
    const id: nat
    var next: VmNode?
    var prev: VmNode?

    constructor (vmId: nat)
      ensures id == vmId && next == null && prev == null
    {
      id, next, prev := vmId, null, null;
    }
  }

  /** next and prev run through s and back, with null at both ends. */
  ghost predicate Chain(s: seq<VmNode>)
    reads s
  {
    && (forall i, j :: 0 <= i < j < |s| ==> s[i] != s[j])
    && (forall i :: 0 <= i < |s| - 1 ==> s[i].next == s[i + 1])
    && (forall i :: 0 < i < |s| ==> s[i].prev == s[i - 1])
    && (s != [] ==> s[|s| - 1].next == null && s[0].prev == null)
  }

  lemma ChainAt(s: seq<VmNode>, i: nat)
    requires Chain(s) && i < |s|
    ensures s[i].next == (if i + 1 < |s| then s[i + 1] else null)
    ensures s[i].prev == (if i > 0 then s[i - 1] else null)
  {}

  /** Positions before and after position k is dropped. */
  ghost function Old(i: nat, k: nat): nat { if i < k then i else i + 1 }

  ghost function Drop(s: seq<VmNode>, k: nat): seq<VmNode>
    requires k < |s|
  {
    s[..k] + s[k + 1..]
  }

  /** Live identifiers are distinct and below the next one. */
  ghost predicate DistinctIds(s: seq<VmNode>, nextId: nat) {
    && (forall i :: 0 <= i < |s| ==> s[i].id < nextId)
    && (forall i, j :: 0 <= i < j < |s| ==> s[i].id != s[j].id)
  }

  lemma DropIds(s: seq<VmNode>, k: nat, nextId: nat)
    requires k < |s| && DistinctIds(s, nextId)
    ensures DistinctIds(Drop(s, k), nextId)
  {
    var r := Drop(s, k);
    forall i, j | 0 <= i < j < |r| ensures r[i].id != r[j].id {
      assert r[i] == s[Old(i, k)] && r[j] == s[Old(j, k)];
    }
  }

  ghost function IdsOf(s: seq<VmNode>): (r: seq<nat>)
    ensures |r| == |s|
  {
    seq(|s|, i requires 0 <= i < |s| => s[i].id)
  }

  lemma DropIdsOf(s: seq<VmNode>, k: nat)
    requires k < |s|
    ensures IdsOf(Drop(s, k)) == IdsOf(s)[..k] + IdsOf(s)[k + 1..]
  {}

  /** The list head for s. */
  ghost function First(s: seq<VmNode>): VmNode? {
    if s == [] then null else s[0]
  }

  /** The linking statements of vm_create. */
  method LinkFront(node: VmNode, head: VmNode?, ghost s: seq<VmNode>)
    requires Chain(s) && head == First(s) && node !in s && node.prev == null
    modifies node, s
    ensures Chain([node] + s)
  {
    node.next := head;
    if head != null {
      head.prev := node;
    }
    assert forall i :: 0 < i <= |s| ==> ([node] + s)[i] == s[i - 1];
  }

  /** The neighbour updates of vm_destroy. */
  method UnlinkNode(vm: VmNode, head: VmNode?, ghost s: seq<VmNode>, ghost k: nat) returns (head': VmNode?)
    requires Chain(s) && head == First(s) && k < |s| && s[k] == vm
    modifies s
    ensures Chain(Drop(s, k)) && head' == First(Drop(s, k)) && vm.next == old(vm.next)
  {
    ChainAt(s, k);
    head' := head;
    if vm.prev != null {
      vm.prev.next := vm.next;
    } else {
      head' := vm.next;
    }
    if vm.next != null {
      vm.next.prev := vm.prev;
    }
    ghost var r := Drop(s, k);
    forall i, j | 0 <= i < j < |r| ensures r[i] != r[j] {
      assert r[i] == s[Old(i, k)] && r[j] == s[Old(j, k)];
    }
    forall i | 0 <= i < |r| - 1 ensures r[i].next == r[i + 1] {
      assert r[i] == s[Old(i, k)] && r[i + 1] == s[Old(i + 1, k)];
    }
    forall i | 0 < i < |r| ensures r[i].prev == r[i - 1] {
      assert r[i] == s[Old(i, k)] && r[i - 1] == s[Old(i - 1, k)];
    }
  }

  class Registry {
    var vms: VmNode?
    var vmCount: int
    var nextVmId: nat
    ghost var list: seq<VmNode>

    /** The links spell out list, and the counter counts it. */
    ghost predicate Linked()
      reads this, list
    {
      && Chain(list)
      && vms == First(list)
      && vmCount == |list|
    }

    /** Identifiers in list order, and the next one. */
    ghost function View(): Ids
      reads this
    {
      Ids(IdsOf(list), nextVmId)
    }

    ghost predicate IdsOk()
      reads this
    {
      DistinctIds(list, nextVmId)
    }

    constructor ()
      ensures Linked() && IdsOk() && list == [] && nextVmId == 1
    {
      vms, vmCount, nextVmId, list := null, 0, 1, [];
    }

    /** vm_create: a failing call changes nothing but, past the first allocation, the next identifier. */
    method VmCreate(outcome: Outcome) returns (vm: VmNode?)
      requires Linked()
      modifies this, list
      ensures Linked()
      ensures nextVmId == if outcome == NoVmMemory then old(nextVmId) else (old(nextVmId) + 1) % U32
      ensures View() == After(old(View()), Create(outcome))
      ensures outcome != Success ==> vm == null && list == old(list)
      ensures outcome == Success ==> vm != null && fresh(vm) && vm.id == old(nextVmId) && list == [vm] + old(list)
      ensures old(IdsOk()) && old(nextVmId) + 1 < U32 ==> IdsOk()
    {
      hide Chain;
      if outcome == NoVmMemory {
        return null;
      }
      var id := nextVmId;
      nextVmId := (nextVmId + 1) % U32;
      if outcome == LaterFailure {
        return null;
      }
      ghost var s := list;
      var node := new VmNode(id);
      LinkFront(node, vms, s);
      vms := node;
      vmCount := vmCount + 1;
      list := [node] + s;
      assert IdsOf(list) == [id] + IdsOf(s);
      vm := node;
    }

    /** vm_destroy, the list part. */
    method VmDestroy(vm: VmNode, ghost k: nat)
      requires Linked() && k < |list| && list[k] == vm
      modifies this, list
      ensures Linked() && list == Drop(old(list), k) && nextVmId == old(nextVmId)
      ensures View() == After(old(View()), Destroy(k))
      ensures old(IdsOk()) ==> IdsOk()
    {
      hide Chain, DistinctIds;
      ghost var s := list;
      if IdsOk() { DropIds(s, k, nextVmId); }
      DropIdsOf(s, k);
      vms := UnlinkNode(vm, vms, s, k);
      vmCount := vmCount - 1;
      list := Drop(s, k);
    }

    /** vm_get_by_id finds the first live VM with that identifier, which is the only one as long as
        identifiers are distinct. */
    method VmGetById(vmId: nat) returns (vm: VmNode?)
      requires Linked()
      ensures vm == null <==> forall i :: 0 <= i < |list| ==> list[i].id != vmId
      ensures vm != null ==> exists i :: 0 <= i < |list| && list[i] == vm && vm.id == vmId
                                         && forall j :: 0 <= j < i ==> list[j].id != vmId
      ensures vm != null && IdsOk() ==> forall x :: x in list && x.id == vmId ==> x == vm
    {
      vm := vms;
      ghost var i := 0;
      while vm != null
        invariant 0 <= i <= |list| && vm == if i < |list| then list[i] else null
        invariant forall j :: 0 <= j < i ==> list[j].id != vmId
        decreases |list| - i
      {
        if vm.id == vmId {
          return;
        }
        vm := vm.next;
        i := i + 1;
      }
    }

    /** The loop of hypervisor_shutdown: every VM is destroyed once, in list order. */
    method Shutdown() returns (ghost destroyed: seq<VmNode>)
      requires Linked()
      modifies this, list
      ensures Linked() && list == [] && vms == null && vmCount == 0 && destroyed == old(list)
    {
      hide Chain, Drop;
      ghost var all := list;
      destroyed := [];
      var vm := vms;
      while vm != null
        invariant |destroyed| <= |all| && list == all[|destroyed|..] && destroyed == all[..|destroyed|]
        invariant Linked() && vm == vms
        decreases |all| - |destroyed|
      {
        ghost var k := |destroyed|;
        ChainAt(list, 0);
        DropFirst(list);
        assert all[k + 1..] == all[k..][1..] && all[..k + 1] == all[..k] + [all[k]];
        var next := vm.next;
        destroyed := destroyed + [vm];
        VmDestroy(vm, 0);
        vm := next;
      }
    }
  }

  lemma DropFirst(s: seq<VmNode>)
    requires s != []
    ensures Drop(s, 0) == s[1..]
  {}

  // ----- identifiers over every run of creates and destroys

  datatype Event = Create(outcome: Outcome) | Destroy(k: nat)

  /** The identifiers of the live VMs in list order, and the next one. */
  datatype Ids = Ids(live: seq<nat>, next: nat)

  function After(x: Ids, e: Event): Ids {
    match e
    case Create(Success) => Ids([x.next] + x.live, (x.next + 1) % U32)
    case Create(NoVmMemory) => x
    case Create(LaterFailure) => Ids(x.live, (x.next + 1) % U32)
    case Destroy(k) => if k < |x.live| then Ids(x.live[..k] + x.live[k + 1..], x.next) else x
  }

  function AfterAll(x: Ids, es: seq<Event>): Ids
    decreases |es|
  {
    if es == [] then x else AfterAll(After(x, es[0]), es[1..])
  }

  ghost predicate Unique(ids: seq<nat>) {
    forall i, j :: 0 <= i < j < |ids| ==> ids[i] != ids[j]
  }

  ghost predicate Fresh(x: Ids) {
    Unique(x.live) && forall i :: 0 <= i < |x.live| ==> x.live[i] < x.next
  }

  /** The same event with a counter that never comes round: VMs by issue number. */
  function Issue(y: Ids, e: Event): Ids {
    match e
    case Create(Success) => Ids([y.next] + y.live, y.next + 1)
    case Create(NoVmMemory) => y
    case Create(LaterFailure) => Ids(y.live, y.next + 1)
    case Destroy(k) => if k < |y.live| then Ids(y.live[..k] + y.live[k + 1..], y.next) else y
  }

  function IssueAll(y: Ids, es: seq<Event>): Ids
    decreases |es|
  {
    if es == [] then y else IssueAll(Issue(y, es[0]), es[1..])
  }

  function Wrapped(s: seq<nat>): (r: seq<nat>)
    ensures |r| == |s|
  {
    seq(|s|, i requires 0 <= i < |s| => s[i] % U32)
  }

  function Wrap(y: Ids): Ids { Ids(Wrapped(y.live), y.next % U32) }

  lemma WrapNext(n: nat)
    ensures (n % U32 + 1) % U32 == (n + 1) % U32
  {}

  lemma {:induction false} RunIsWrapped(y: Ids, es: seq<Event>)
    ensures AfterAll(Wrap(y), es) == Wrap(IssueAll(y, es))
    decreases |es|
  {
    if es != [] {
      WrapNext(y.next);
      assert After(Wrap(y), es[0]).live == Wrap(Issue(y, es[0])).live;
      RunIsWrapped(Issue(y, es[0]), es[1..]);
    }
  }

  /** No two issue numbers are a multiple of 2^32 apart. */
  ghost predicate Spaced(s: seq<nat>) {
    forall i, j :: 0 <= i < j < |s| ==> (s[i] - s[j]) % U32 != 0
  }

  lemma SameWrapped(a: nat, b: nat)
    ensures a % U32 == b % U32 <==> (a - b) % U32 == 0
  {
    assert a == U32 * (a / U32) + a % U32 && b == U32 * (b / U32) + b % U32;
    var q := a / U32 - b / U32;
    assert a - b == U32 * q + (a % U32 - b % U32);
  }

  /** After a run of any length the live identifiers are distinct exactly when no two live VMs were
      created a multiple of 2^32 identifiers apart. */
  lemma RunUniqueIff(y: Ids, es: seq<Event>)
    ensures Unique(AfterAll(Wrap(y), es).live) <==> Spaced(IssueAll(y, es).live)
  {
    RunIsWrapped(y, es);
    var s := IssueAll(y, es).live;
    var r := Wrapped(s);
    forall i, j | 0 <= i < j < |s| ensures r[i] == r[j] <==> (s[i] - s[j]) % U32 == 0 {
      SameWrapped(s[i], s[j]);
    }
  }

  lemma IssueFresh(y: Ids, e: Event)
    requires Fresh(y)
    ensures Fresh(Issue(y, e))
  {
    if e.Destroy? && e.k < |y.live| {
      var r := Issue(y, e).live;
      assert forall i :: 0 <= i < |r| ==> r[i] == y.live[Old(i, e.k)];
      forall i, j | 0 <= i < j < |r| ensures r[i] != r[j] {
        assert r[i] == y.live[Old(i, e.k)] && r[j] == y.live[Old(j, e.k)];
      }
    }
  }

  /** A create that fails in its first allocation and a destroy take no identifier. */
  predicate Takes(e: Event) { e.Create? && e.outcome != NoVmMemory }

  /** How many identifiers the events take. */
  function Issued(es: seq<Event>): nat {
    if es == [] then 0 else (if Takes(es[0]) then 1 else 0) + Issued(es[1..])
  }

  /** Over every run that takes fewer identifiers than the counter has left, live identifiers stay
      distinct and below the next one. */
  lemma {:induction false} RunFresh(x: Ids, es: seq<Event>)
    requires Fresh(x) && x.next + Issued(es) < U32
    ensures Fresh(AfterAll(x, es)) && AfterAll(x, es).next == x.next + Issued(es)
    decreases |es|
  {
    if es != [] {
      assert After(x, es[0]) == Issue(x, es[0]);
      IssueFresh(x, es[0]);
      RunFresh(After(x, es[0]), es[1..]);
    }
  }

  lemma {:induction false} RunIssueFresh(y: Ids, es: seq<Event>)
    requires Fresh(y)
    ensures Fresh(IssueAll(y, es))
    decreases |es|
  {
    if es != [] {
      IssueFresh(y, es[0]);
      RunIssueFresh(Issue(y, es[0]), es[1..]);
    }
  }

  /** However long the run, identifiers are distinct while every live VM is among the last 2^32 issued. */
  lemma YoungUnique(es: seq<Event>)
    requires var y := IssueAll(Ids([], 1), es); forall i :: 0 <= i < |y.live| ==> y.next <= y.live[i] + U32
    ensures Unique(AfterAll(Ids([], 1), es).live)
  {
    var y := IssueAll(Ids([], 1), es);
    RunIssueFresh(Ids([], 1), es);
    assert Wrap(Ids([], 1)) == Ids([], 1);
    RunUniqueIff(Ids([], 1), es);
    forall i, j | 0 <= i < j < |y.live| ensures (y.live[i] - y.live[j]) % U32 != 0 {
      Near(y.live[i], y.live[j]);
    }
  }

  lemma Near(a: nat, b: nat)
    requires a != b && a < b + U32 && b < a + U32
    ensures (a - b) % U32 != 0
  {
    SameWrapped(a, b);
  }

  lemma {:induction false} AfterAllCat(x: Ids, a: seq<Event>, b: seq<Event>)
    ensures AfterAll(x, a + b) == AfterAll(AfterAll(x, a), b)
    decreases |a|
  {
    if a == [] {
      assert a + b == b;
    } else {
      assert (a + b)[1..] == a[1..] + b;
      AfterAllCat(After(x, a[0]), a[1..], b);
    }
  }

  function Failures(n: nat): seq<Event> { seq(n, _ => Create(LaterFailure)) }

  lemma {:induction false} FailuresAdvance(x: Ids, n: nat)
    requires x.next < U32
    ensures AfterAll(x, Failures(n)) == Ids(x.live, (x.next + n) % U32)
    decreases n
  {
    if n > 0 {
      assert Failures(n)[1..] == Failures(n - 1);
      FailuresAdvance(After(x, Create(LaterFailure)), n - 1);
      Advance(x.next, n);
    }
  }

  lemma Advance(a: nat, n: nat)
    requires a < U32 && n > 0
    ensures ((a + 1) % U32 + (n - 1)) % U32 == (a + n) % U32
  {
    SameWrapped((a + 1) % U32 + (n - 1), a + n);
  }

  /** A run from the empty list that repeats an identifier: one VM, 2^32 - 1 creates that fail late,
      one more VM. */
  lemma IdentifierRepeats(es: seq<Event>)
    requires es == [Create(Success)] + Failures(0xFFFF_FFFF) + [Create(Success)]
    ensures AfterAll(Ids([], 1), es).live == [1, 1]
  {
    var a, b := [Create(Success)], Failures(U32 - 1);
    AfterAllCat(Ids([], 1), a + b, a);
    AfterAllCat(Ids([], 1), a, b);
    assert a[1..] == [];
    assert AfterAll(Ids([], 1), a) == Ids([1], 2);
    FailuresAdvance(Ids([1], 2), U32 - 1);
  }
}
