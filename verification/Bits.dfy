/**
 Powers of two and the bitwise operators the kernels apply to thread numbers. Numbers are unbounded, and
 the operators work digit by digit, so that one digit can be followed through both.
 */
module Bits {

  function Pow2(e: nat): (p: nat)
    ensures p > 0
  {
    if e == 0 then 1 else 2 * Pow2(e - 1)
  }

  /** Exclusive or of two unsigned numbers, one binary digit at a time. */
  function Xor(a: nat, b: nat): nat
    decreases a + b
  {
    if a == 0 && b == 0 then 0 else (a + b) % 2 + 2 * Xor(a / 2, b / 2)
  }

  /** Bitwise and of two unsigned numbers, one binary digit at a time. */
  function And(a: nat, b: nat): nat
    decreases a
  {
    if a == 0 then 0 else (if a % 2 == 1 && b % 2 == 1 then 1 else 0) + 2 * And(a / 2, b / 2)
  }

  /** Binary digit number `e` of `a` is zero. */
  predicate Clear(a: nat, e: nat)
  {
    if e == 0 then a % 2 == 0 else Clear(a / 2, e - 1)
  }

  lemma {:induction false} XorZero(a: nat)
    ensures Xor(a, 0) == a
  {
    if a == 0 {
    } else {
      XorZero(a / 2);
    }
  }

  lemma {:induction false} AndZero(a: nat)
    ensures And(a, 0) == 0
  {
    if a == 0 {
    } else {
      AndZero(a / 2);
    }
  }

  lemma DoubleParts(a: nat, w: nat)
    ensures (a + 2 * w) % 2 == a % 2 && (2 * w) / 2 == w
  {
  }

  lemma XorUnfolds(a: nat, b: nat)
    requires b > 0
    ensures Xor(a, b) == (a + b) % 2 + 2 * Xor(a / 2, b / 2)
  {
  }

  lemma HalfOfDouble(bit: nat, x: nat)
    requires bit < 2
    ensures (bit + 2 * x) / 2 == x
  {
  }

  lemma XorDouble(a: nat, w: nat)
    requires w > 0
    ensures Xor(a, 2 * w) == a % 2 + 2 * Xor(a / 2, w) && Xor(a, 2 * w) / 2 == Xor(a / 2, w)
  {
    DoubleParts(a, w);
    XorUnfolds(a, 2 * w);
    HalfOfDouble(a % 2, Xor(a / 2, w));
  }

  lemma XorLowest(a: nat)
    ensures Xor(a, 1) == if a % 2 == 0 then a + 1 else a - 1
  {
    XorZero(a / 2);
  }

  /** `t ^ 2^e` flips one binary digit: it adds the stride where that digit is clear. */
  lemma {:induction false} XorFlipsDigit(a: nat, e: nat)
    ensures Xor(a, Pow2(e)) == if Clear(a, e) then a + Pow2(e) else a - Pow2(e)
    ensures Clear(Xor(a, Pow2(e)), e) != Clear(a, e)
  {
    if e == 0 {
      XorLowest(a);
    } else {
      XorFlipsDigit(a / 2, e - 1);
      XorDouble(a, Pow2(e - 1));
      DigitUp(a, Xor(a, Pow2(e)), e);
    }
  }

  lemma DigitUp(a: nat, x: nat, e: nat)
    requires e > 0
    ensures a == a % 2 + 2 * (a / 2) && Clear(a, e) == Clear(a / 2, e - 1) && Clear(x, e) == Clear(x / 2, e - 1)
  {
  }

  /** `t & 2^e` is zero when that binary digit is clear, and 2^e when it is set. */
  lemma {:induction false} AndTestsDigit(a: nat, e: nat)
    ensures And(a, Pow2(e)) == if Clear(a, e) then 0 else Pow2(e)
  {
    if e == 0 {
      AndZero(a / 2);
    } else {
      AndTestsDigit(a / 2, e - 1);
    }
  }

  /** `lo` starts a block of width `2^e`: its `e` lowest digits are zero. */
  predicate Aligned(lo: nat, e: nat) {
    e == 0 || (lo % 2 == 0 && Aligned(lo / 2, e - 1))
  }

  lemma {:induction false} ZeroAligned(e: nat)
    ensures Aligned(0, e) && Clear(0, e)
  {
    if e == 0 {
    } else {
      ZeroAligned(e - 1);
    }
  }

  /** Inside a block of width `2^(e+1)`, digit `e` is clear on the first half only. */
  lemma {:induction false} DigitInBlock(e: nat, lo: nat, r: nat)
    requires Aligned(lo, e + 1) && r < Pow2(e + 1)
    ensures Clear(lo + r, e) <==> r < Pow2(e)
    decreases e
  {
    if e == 0 {
    } else {
      assert (lo + r) / 2 == lo / 2 + r / 2;
      DigitInBlock(e - 1, lo / 2, r / 2);
    }
  }

  /** All of a block shares the digit above it. */
  lemma {:induction false} DigitAboveBlock(e: nat, lo: nat, r: nat)
    requires Aligned(lo, e) && r < Pow2(e)
    ensures Clear(lo + r, e) == Clear(lo, e)
    decreases e
  {
    if e == 0 {
    } else {
      assert (lo + r) / 2 == lo / 2 + r / 2;
      DigitAboveBlock(e - 1, lo / 2, r / 2);
    }
  }

  /** The two halves of a block are blocks, told apart by one digit. */
  lemma {:induction false} HalvesAligned(lo: nat, e: nat)
    requires Aligned(lo, e + 1)
    ensures Aligned(lo, e) && Aligned(lo + Pow2(e), e)
    ensures Clear(lo, e) && !Clear(lo + Pow2(e), e)
    decreases e
  {
    if e == 0 {
    } else {
      assert (lo + Pow2(e)) / 2 == lo / 2 + Pow2(e - 1);
      HalvesAligned(lo / 2, e - 1);
    }
  }

  /** Inside a block of width `2^(e+1)`, flipping digit `e` pairs cell `i` with cell `i + 2^e`. */
  lemma BlockPairs(lo: nat, e: nat, i: nat)
    requires Aligned(lo, e + 1) && lo <= i < lo + Pow2(e)
    ensures Xor(i, Pow2(e)) == i + Pow2(e) && Xor(i + Pow2(e), Pow2(e)) == i
  {
    DigitInBlock(e, lo, i - lo);
    DigitInBlock(e, lo, i + Pow2(e) - lo);
    XorFlipsDigit(i, e);
    XorFlipsDigit(i + Pow2(e), e);
  }

  /** Flipping a digit below `e` keeps a number below `2^e`. */
  lemma {:induction false} PartnerInRange(i: nat, q: nat, e: nat)
    requires i < Pow2(e) && q < e
    ensures Xor(i, Pow2(q)) < Pow2(e)
    decreases e
  {
    if q == 0 {
      XorZero(i / 2);
    } else {
      PartnerInRange(i / 2, q - 1, e - 1);
      assert Xor(i, Pow2(q)) == i % 2 + 2 * Xor(i / 2, Pow2(q - 1));
    }
  }
}
