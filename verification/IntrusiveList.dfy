/** The circular doubly linked list macros of src/utils/log.h on a heap of nodes, refined to
    sequence operations. */
module IntrusiveList {

  /** A list_head; entry names the structure it is embedded in, which list_entry recovers. */
  class Node {
    const entry: nat
    var next: Node
    var prev: Node

    /** INIT_LIST_HEAD: an empty list is its own neighbour. */
    constructor (owner: nat)
      ensures Ring(this, []) && entry == owner
    {
      entry := owner;
      next, prev := this, this;
    }
  }

  ghost predicate Distinct(r: seq<Node>) {
    forall i, j :: 0 <= i < j < |r| ==> r[i] != r[j]
  }

  /** next runs through r in order and wraps around; prev is its inverse. */
  ghost predicate Cyclic(r: seq<Node>)
    reads r
  {
    && |r| > 0 && Distinct(r)
    && (forall i :: 0 <= i < |r| - 1 ==> r[i].next == r[i + 1])
    && (forall i :: 0 < i < |r| ==> r[i].prev == r[i - 1])
    && r[|r| - 1].next == r[0] && r[0].prev == r[|r| - 1]
  }

  /** The list at head holds exactly s, in order. */
  ghost predicate Ring(head: Node, s: seq<Node>)
    reads [head] + s
  {
    Cyclic([head] + s)
  }

  /** list_add: push at the front. */
  method Add(new_: Node, head: Node, ghost s: seq<Node>)
    requires Ring(head, s) && new_ !in [head] + s
    modifies new_, head, head.next
    ensures Ring(head, [new_] + s)
  {
    ghost var r := [head] + s;
    assert s != [] ==> head.next == r[1];
    new_.next := head.next;
    new_.prev := head;
    head.next.prev := new_;
    head.next := new_;
    assert [head] + ([new_] + s) == [r[0]] + [new_] + r[1..];
  }

  /** list_add_tail: push at the back. */
  method AddTail(new_: Node, head: Node, ghost s: seq<Node>)
    requires Ring(head, s) && new_ !in [head] + s
    modifies new_, head, head.prev
    ensures Ring(head, s + [new_])
  {
    ghost var r := [head] + s;
    assert head.prev == r[|r| - 1];
    new_.next := head;
    new_.prev := head.prev;
    head.prev.next := new_;
    head.prev := new_;
    assert [head] + (s + [new_]) == r + [new_];
  }

  /** list_del: unlink one element, without being told the head. */
  method Del(entry: Node, ghost head: Node, ghost s: seq<Node>, ghost k: nat)
    requires Ring(head, s) && k < |s| && s[k] == entry
    modifies entry.prev, entry.next
    ensures Ring(head, s[..k] + s[k + 1..])
    ensures entry.next == old(entry.next) && entry.prev == old(entry.prev)
  {
    ghost var r := [head] + s;
    assert r[k + 1] == entry && entry.prev == r[k];
    assert entry.next == if k + 2 < |r| then r[k + 2] else r[0];
    entry.prev.next := entry.next;
    entry.next.prev := entry.prev;
    ghost var r' := [head] + (s[..k] + s[k + 1..]);
    assert Skips(r, r', k, k + 2);
    Rejoined(r, r', k, k + 2);
  }

  /** Positions before and after positions i + 1 to j - 1 are dropped. */
  ghost function Over(a: nat, i: nat, j: nat): nat
    requires i < j
  {
    if a <= i then a else a + (j - 1 - i)
  }

  ghost predicate Skips(r: seq<Node>, r': seq<Node>, i: nat, j: nat)
    requires i < j
  {
    |r'| + (j - 1 - i) == |r| && forall a :: 0 <= a < |r'| ==> r'[a] == r[Over(a, i, j)]
  }

  /** Joining position i to position j drops what stands between. */
  lemma Rejoined(r: seq<Node>, r': seq<Node>, i: nat, j: nat)
    requires Distinct(r) && i < j <= |r| && Skips(r, r', i, j)
    requires forall a :: 0 <= a < |r| - 1 && a != i ==> r[a].next == r[a + 1]
    requires forall a :: 0 < a < |r| && a != j ==> r[a].prev == r[a - 1]
    requires (i < |r| - 1 ==> r[|r| - 1].next == r[0]) && (j < |r| ==> r[0].prev == r[|r| - 1])
    requires var n := if j < |r| then r[j] else r[0]; r[i].next == n && n.prev == r[i]
    ensures Cyclic(r')
  {
    forall a, b | 0 <= a < b < |r'| ensures r'[a] != r'[b] {
      assert r'[a] == r[Over(a, i, j)] && r'[b] == r[Over(b, i, j)];
    }
    forall a | 0 <= a < |r'| - 1 ensures r'[a].next == r'[a + 1] {
      assert r'[a] == r[Over(a, i, j)] && r'[a + 1] == r[Over(a + 1, i, j)];
    }
    forall a | 0 < a < |r'| ensures r'[a].prev == r'[a - 1] {
      assert r'[a] == r[Over(a, i, j)] && r'[a - 1] == r[Over(a - 1, i, j)];
    }
    assert r'[|r'| - 1] == r[Over(|r'| - 1, i, j)] && r'[0] == r[0];
  }

  method Empty(head: Node, ghost s: seq<Node>) returns (empty: bool)
    requires Ring(head, s)
    ensures empty <==> s == []
  {
    ghost var r := [head] + s;
    assert s != [] ==> head.next == r[1] && r[0] != r[1];
    empty := head.next == head;
  }

  /** list_for_each with a counter, as the scheduler measures load. */
  method Count(head: Node, ghost s: seq<Node>) returns (n: nat)
    requires Ring(head, s)
    ensures n == |s|
  {
    ghost var r := [head] + s;
    n := 0;
    var pos := head.next;
    while pos != head
      invariant n <= |s| && pos == if n < |s| then r[n + 1] else head
      decreases |s| - n
    {
      pos := pos.next;
      n := n + 1;
    }
  }

  /** list_del and list_add_tail onto the same list, as schedule and yield do. */
  method MoveToTail(entry: Node, head: Node, ghost s: seq<Node>, ghost k: nat)
    requires Ring(head, s) && k < |s| && s[k] == entry
    modifies [head] + s
    ensures Ring(head, s[..k] + s[k + 1..] + [entry])
  {
    ghost var r := [head] + s;
    Neighbours(r, k + 1);
    Del(entry, head, s, k);
    ghost var s' := s[..k] + s[k + 1..];
    Absent(head, s, k);
    LastIsPrev(head, s');
    assert entry == r[k + 1] && head == r[0] && head.prev in r;
    AddTail(entry, head, s');
  }

  /** list_del and list_add onto the same list, as wake does. */
  method MoveToFront(entry: Node, head: Node, ghost s: seq<Node>, ghost k: nat)
    requires Ring(head, s) && k < |s| && s[k] == entry
    modifies [head] + s
    ensures Ring(head, [entry] + (s[..k] + s[k + 1..]))
  {
    ghost var r := [head] + s;
    Neighbours(r, k + 1);
    Del(entry, head, s, k);
    ghost var s' := s[..k] + s[k + 1..];
    Absent(head, s, k);
    Neighbours([head] + s', 0);
    assert entry == r[k + 1] && head == r[0] && head.next in r;
    Add(entry, head, s');
  }

  /** list_del from one list and list_add_tail onto another, as load balancing does. */
  method MoveAcross(entry: Node, target: Node, ghost head: Node, ghost s: seq<Node>, ghost k: nat, ghost u: seq<Node>)
    requires Ring(head, s) && Ring(target, u) && k < |s| && s[k] == entry
    requires forall x :: x in [head] + s ==> x !in [target] + u
    modifies [head] + s, [target] + u
    ensures Ring(head, s[..k] + s[k + 1..]) && Ring(target, u + [entry])
  {
    Neighbours([head] + s, k + 1);
    assert entry == ([head] + s)[k + 1];
    Del(entry, head, s, k);
    Absent(head, s, k);
    LastIsPrev(target, u);
    assert target in [target] + u;
    AddTail(entry, target, u);
  }

  lemma Neighbours(r: seq<Node>, i: nat)
    requires Cyclic(r) && i < |r|
    ensures r[i].next in r && r[i].prev in r
  {
    assert r[i].next == if i + 1 < |r| then r[i + 1] else r[0];
    assert r[i].prev == if i > 0 then r[i - 1] else r[|r| - 1];
  }

  /** Where next leads from the head. */
  lemma RingFirst(head: Node, s: seq<Node>)
    requires Ring(head, s)
    ensures head.next == if s == [] then head else s[0]
    ensures head !in s
  {
    var r := [head] + s;
    assert s != [] ==> r[0].next == r[1] == s[0];
    assert forall k :: 0 <= k < |s| ==> s[k] == r[k + 1] != r[0];
  }

  /** Where next leads from the element at position k. */
  lemma RingNext(head: Node, s: seq<Node>, k: nat)
    requires Ring(head, s) && k < |s|
    ensures s[k].next == if k + 1 < |s| then s[k + 1] else head
  {
    var r := [head] + s;
    assert s[k] == r[k + 1];
    assert k + 1 < |s| ==> s[k + 1] == r[k + 2];
  }

  lemma LastIsPrev(head: Node, s: seq<Node>)
    requires Ring(head, s)
    ensures head.prev in [head] + s
  {
    Neighbours([head] + s, 0);
  }

  lemma Absent(head: Node, s: seq<Node>, k: nat)
    requires Distinct([head] + s) && k < |s|
    ensures s[k] !in [head] + (s[..k] + s[k + 1..])
    ensures forall x :: x in [head] + (s[..k] + s[k + 1..]) ==> x in [head] + s
  {
    var r := [head] + s;
    var r' := [head] + (s[..k] + s[k + 1..]);
    assert Skips(r, r', k, k + 2);
    assert r[k + 1] == s[k];
    forall i | 0 <= i < |r'| ensures r'[i] != s[k] {
      assert r'[i] == r[Over(i, k, k + 2)];
    }
  }

  /** Following next from r[0] runs through r and then comes to end. */
  ghost predicate Forward(r: seq<Node>, end: Node)
    reads r
  {
    |r| > 0 && (forall i :: 0 <= i < |r| - 1 ==> r[i].next == r[i + 1]) && r[|r| - 1].next == end
  }

  /** list_add_tail of the element at position k, which is linked already. A traversal from the head
      then sees s[..k + 1] only: what stood behind is lost, and if it was the last element, it has
      become its own successor and the traversal never comes back to the head. */
  method AddTailAgain(x: Node, head: Node, ghost s: seq<Node>, ghost k: nat)
    requires Ring(head, s) && k < |s| && s[k] == x
    modifies x, head, head.prev
    ensures Forward(([head] + s)[..k + 2], if k + 1 < |s| then head else x)
    ensures head.prev == x && s[|s| - 1].next == x
  {
    ghost var r := [head] + s;
    assert r[k + 1] == x && head.prev == r[|r| - 1];
    ghost var q := r[..k + 2];
    assert forall i :: 0 <= i < |q| ==> q[i] == r[i];
    x.next := head;
    x.prev := head.prev;
    head.prev.next := x;
    head.prev := x;
    forall i | 0 <= i < |q| - 1 ensures q[i].next == q[i + 1] {
      assert q[i] == r[i] && q[i + 1] == r[i + 1] && r[i] != r[k + 1] && r[i] != r[|r| - 1];
    }
  }

  /** list_del of an element that is unlinked already. Its links still name its old neighbours, at
      positions i and j of the ring: whatever has come between them since is lost, and the list is
      left alone exactly while they are still adjacent. */
  method DelAgain(entry: Node, ghost head: Node, ghost s: seq<Node>, ghost i: nat, ghost j: nat)
    requires Ring(head, s) && entry !in [head] + s && i < j <= |s| + 1
    requires entry.prev == ([head] + s)[i] && entry.next == if j <= |s| then ([head] + s)[j] else head
    modifies entry.prev, entry.next
    ensures Ring(head, s[..i] + s[j - 1..])
    ensures s[..i] + s[j - 1..] == s <==> j == i + 1
  {
    ghost var r := [head] + s;
    ghost var r' := [head] + (s[..i] + s[j - 1..]);
    assert Skips(r, r', i, j);
    entry.prev.next := entry.next;
    entry.next.prev := entry.prev;
    Rejoined(r, r', i, j);
    assert |s[..i] + s[j - 1..]| == |s| - (j - 1 - i);
  }

  lemma {:induction false} SharedFrom(r: seq<Node>, q: seq<Node>, i: nat)
    requires Cyclic(r) && Cyclic(q) && i < |r| && r[i] in q
    ensures forall j :: i <= j < |r| ==> r[j] in q
    ensures r[0] in q
    decreases |r| - i
  {
    var m :| 0 <= m < |q| && q[m] == r[i];
    Neighbours(q, m);
    if i + 1 < |r| { SharedFrom(r, q, i + 1); }
  }

  /** Two lists that share a node share all of them: distinct lists are disjoint, so an operation
      whose frame is its own nodes leaves every other list as it was. */
  lemma ListsDisjointOrSame(r: seq<Node>, q: seq<Node>, x: Node)
    requires Cyclic(r) && Cyclic(q) && x in r && x in q
    ensures forall y :: y in r <==> y in q
  {
    var i :| 0 <= i < |r| && r[i] == x;
    var m :| 0 <= m < |q| && q[m] == x;
    SharedFrom(r, q, i);
    SharedFrom(r, q, 0);
    SharedFrom(q, r, m);
    SharedFrom(q, r, 0);
  }
}
