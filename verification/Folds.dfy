/** Iteration and folding over a parameter function, with the relational induction principles
    that the checksum proofs instantiate. */
module Folds {

  function Iter<T>(f: T -> T, n: nat, x: T): T {
    if n == 0 then x else Iter(f, n - 1, f(x))
  }

  function Fold<S, A>(f: (S, A) -> S, s: S, xs: seq<A>): S
    decreases |xs|
  {
    if xs == [] then s else Fold(f, f(s, xs[0]), xs[1..])
  }

  /** The first n digits that digit reads off as rest consumes y. */
  function Digits<Y, A>(digit: Y -> A, rest: Y -> Y, n: nat, y: Y): (r: seq<A>)
    ensures |r| == n
  {
    if n == 0 then [] else [digit(y)] + Digits(digit, rest, n - 1, rest(y))
  }

  lemma {:induction false} FoldConcat<S, A>(f: (S, A) -> S, s: S, u: seq<A>, v: seq<A>)
    ensures Fold(f, s, u + v) == Fold(f, Fold(f, s, u), v)
    decreases |u|
  {
    if u == [] {
      assert u + v == v;
    } else {
      assert (u + v)[1..] == u[1..] + v;
      FoldConcat(f, f(s, u[0]), u[1..], v);
    }
  }

  /** A ternary relation kept by one fold step is kept by the whole fold. */
  lemma {:induction false} FoldRelated<S(!new), A(!new)>(
      f: (S, A) -> S, R: (S, S, S) -> bool, Q: (A, A, A) -> bool,
      x: S, y: S, z: S, a: seq<A>, b: seq<A>, c: seq<A>)
    requires |a| == |b| == |c| && R(x, y, z)
    requires forall i :: 0 <= i < |a| ==> Q(a[i], b[i], c[i])
    requires forall x, y, z, p, q, r :: R(x, y, z) && Q(p, q, r) ==> R(f(x, p), f(y, q), f(z, r))
    ensures R(Fold(f, x, a), Fold(f, y, b), Fold(f, z, c))
    decreases |a|
  {
    if a != [] {
      assert Q(a[0], b[0], c[0]);
      FoldRelated(f, R, Q, f(x, a[0]), f(y, b[0]), f(z, c[0]), a[1..], b[1..], c[1..]);
    }
  }

  /** A relation kept by feeding one digit, dropping it, and one step is kept by n of each. */
  lemma {:induction false} DigitsRelated<S(!new), Y(!new), A>(
      feed: (S, A) -> S, digit: Y -> A, rest: Y -> Y, step: S -> S, R: (S, Y, S) -> bool,
      n: nat, s: S, y: Y, t: S)
    requires R(s, y, t)
    requires forall s, y, t :: R(s, y, t) ==> R(feed(s, digit(y)), rest(y), step(t))
    ensures R(Fold(feed, s, Digits(digit, rest, n, y)), Iter(rest, n, y), Iter(step, n, t))
  {
    if n > 0 {
      DigitsRelated(feed, digit, rest, step, R, n - 1, feed(s, digit(y)), rest(y), step(t));
      assert Digits(digit, rest, n, y)[1..] == Digits(digit, rest, n - 1, rest(y));
    }
  }

  lemma {:induction false} FoldInjective<S(!new), A(!new)>(f: (S, A) -> S, x: S, y: S, xs: seq<A>)
    requires x != y
    requires forall x, y, a :: f(x, a) == f(y, a) ==> x == y
    ensures Fold(f, x, xs) != Fold(f, y, xs)
    decreases |xs|
  {
    if xs != [] {
      FoldInjective(f, f(x, xs[0]), f(y, xs[0]), xs[1..]);
    }
  }

  /** Backward induction: a property of the final state that each step pulls back over its input. */
  lemma {:induction false} FoldBackward<S(!new), A(!new)>(
      f: (S, A) -> S, I: (S, seq<A>) -> bool, s: S, xs: seq<A>)
    requires I(Fold(f, s, xs), [])
    requires forall s, a, rest :: I(f(s, a), rest) ==> I(s, [a] + rest)
    ensures I(s, xs)
    decreases |xs|
  {
    if xs != [] {
      FoldBackward(f, I, f(s, xs[0]), xs[1..]);
      assert xs == [xs[0]] + xs[1..];
    }
  }
}
