/** memmove of src/utils/log.c: an overlap-safe copy inside one array. */
module MemMove {

  /** The array contents with n bytes from src copied to dest. */
  function Moved(a: seq<bv8>, dest: nat, src: nat, n: nat): (r: seq<bv8>)
    requires dest + n <= |a| && src + n <= |a|
    ensures |r| == |a|
  {
    a[..dest] + a[src..src + n] + a[dest + n..]
  }

  method Move(a: array<bv8>, dest: nat, src: nat, n: nat)
    requires dest + n <= a.Length && src + n <= a.Length
    modifies a
    ensures a[..] == Moved(old(a[..]), dest, src, n)
  {
    hide Moved;
    ghost var was := a[..];
    MovedNone(was, dest, src);
    MovedNone(was, dest + n, src + n);
    if dest < src {
      var k := 0;
      while k < n
        invariant 0 <= k <= n && a[..] == Moved(was, dest, src, k)
      {
        ForwardStep(was, dest, src, k);
        a[dest + k] := a[src + k];
        k := k + 1;
      }
    } else {
      var k := n;
      while k > 0
        invariant 0 <= k <= n && a[..] == Moved(was, dest + k, src + k, n - k)
      {
        k := k - 1;
        BackwardStep(was, dest + k, src + k, n - k);
        a[dest + k] := a[src + k];
      }
    }
  }

  lemma MovedNone(a: seq<bv8>, dest: nat, src: nat)
    requires dest <= |a| && src <= |a|
    ensures Moved(a, dest, src, 0) == a
  {}

  /** Below the source the copy can run upwards: the byte read has not been written yet. */
  lemma ForwardStep(a: seq<bv8>, dest: nat, src: nat, k: nat)
    requires dest < src && src + k < |a|
    ensures Moved(a, dest, src, k)[dest + k := Moved(a, dest, src, k)[src + k]] == Moved(a, dest, src, k + 1)
  {
    var m := Moved(a, dest, src, k);
    MovedBytes(a, dest, src, k, src + k);
    var w, r := m[dest + k := m[src + k]], Moved(a, dest, src, k + 1);
    forall i | 0 <= i < |a| ensures w[i] == r[i] {
      MovedBytes(a, dest, src, k, i);
      MovedBytes(a, dest, src, k + 1, i);
    }
  }

  /** At or above the source it can run downwards. */
  lemma BackwardStep(a: seq<bv8>, dest: nat, src: nat, n: nat)
    requires src <= dest && n > 0 && dest + n <= |a|
    ensures var m := Moved(a, dest + 1, src + 1, n - 1);
            m[dest := m[src]] == Moved(a, dest, src, n)
  {
    var m := Moved(a, dest + 1, src + 1, n - 1);
    MovedBytes(a, dest + 1, src + 1, n - 1, src);
    var w, r := m[dest := m[src]], Moved(a, dest, src, n);
    forall i | 0 <= i < |a| ensures w[i] == r[i] {
      MovedBytes(a, dest + 1, src + 1, n - 1, i);
      MovedBytes(a, dest, src, n, i);
    }
  }

  /** What a caller sees: the destination holds the original source bytes and the rest is untouched. */
  lemma MovedBytes(a: seq<bv8>, dest: nat, src: nat, n: nat, i: nat)
    requires dest + n <= |a| && src + n <= |a| && i < |a|
    ensures Moved(a, dest, src, n)[i] == if dest <= i < dest + n then a[src + (i - dest)] else a[i]
  {}
}
