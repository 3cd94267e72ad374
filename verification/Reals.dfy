/** Functions of real numbers, named so that proofs can keep them folded. */
module Reals {
  function Abs(x: real): (a: real)
    ensures a >= 0.0
  {
    if x < 0.0 then -x else x
  }

  function Times(a: real, b: real): real { a * b }

  /** f(0) + f(1) + ... + f(n - 1) */
  function SumTo(n: nat, f: nat -> real): real {
    if n == 0 then 0.0 else SumTo(n - 1, f) + f(n - 1)
  }

  /** Sums with equal terms are equal. */
  lemma {:induction false} SumsAlike(n: nat, f: nat -> real, g: nat -> real)
    requires forall i: nat :: i < n ==> f(i) == g(i)
    ensures SumTo(n, f) == SumTo(n, g)
  {
    if n == 0 {
    } else {
      SumsAlike(n - 1, f, g);
    }
  }

  /** A sum may be cut: `g` reads the terms of `f` from `a` on. */
  lemma {:induction false} SumSplits(a: nat, n: nat, f: nat -> real, g: nat -> real)
    requires forall k: nat :: k < n ==> g(k) == f(a + k)
    ensures SumTo(a + n, f) == SumTo(a, f) + SumTo(n, g)
  {
    if n == 0 {
    } else {
      SumSplits(a, n - 1, f, g);
      assert g(n - 1) == f(a + (n - 1));
    }
  }

  /** The first term may be taken out. */
  lemma {:induction false} SumFromFirst(n: nat, f: nat -> real, g: nat -> real)
    requires n > 0 && forall i: nat :: i < n - 1 ==> g(i) == f(i + 1)
    ensures SumTo(n, f) == f(0) + SumTo(n - 1, g)
  {
    if n == 1 {
    } else {
      SumFromFirst(n - 1, f, g);
    }
  }
}
