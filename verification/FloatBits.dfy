/** What a 32-bit float pattern stands for, and that the total order of patterns is the order of values. */
module FloatBits {
  import opened Bits

  /** Sign, eight bits of exponent, 23 bits of fraction. */
  predicate Negative(x: nat) { x >= 0x8000_0000 }

  function Exponent(x: nat): nat { (x / 0x80_0000) % 256 }

  function Fraction(x: nat): nat { x % 0x80_0000 }

  predicate Finite(x: nat) { x < 0x1_0000_0000 && Exponent(x) < 255 }

  /** The magnitude in units of the smallest positive float. */
  function Units(exp: nat, frac: nat): nat {
    if exp == 0 then frac else (0x80_0000 + frac) * Pow2(exp - 1)
  }

  /** Magnitude with its sign. */
  function SignedUnits(x: nat): int {
    var m: int := Units(Exponent(x), Fraction(x));
    if Negative(x) then -m else m
  }

  function OfUnits(m: int): real { m as real / Pow2(149) as real }

  /** The value of a finite pattern. */
  function Decoded(x: nat): real { OfUnits(SignedUnits(x)) }

  /** Total order of floats by their bits: negative numbers count down. */
  function TotalKey(x: nat): int
    requires x < 0x1_0000_0000
  {
    if x < 0x8000_0000 then x else 0x8000_0000 - 1 - x
  }

  // ---------------------------------------------------------------- the format

  /** A pattern of sign, exponent and fraction: 23 bits behind the point, and an exponent biased by 127. */
  lemma PatternIs(negative: bool, exp: nat, frac: nat, x: nat, m: int, scale: nat)
    requires scale == 149 && exp < 255 && frac < 8388608 && x == (if negative then 2147483648 else 0) + exp * 8388608 + frac
    requires m == if exp == 0 then frac else (8388608 + frac) * Pow2(exp - 1)
    ensures Finite(x) && Decoded(x) == (if negative then -m else m) as real / Pow2(scale) as real
  {
    assert Exponent(x) == exp && Fraction(x) == frac && (Negative(x) <==> negative);
  }

  lemma {:induction false} PowersMultiply(a: nat, b: nat)
    ensures Pow2(a + b) == Pow2(a) * Pow2(b)
  {
    if b == 0 {
    } else {
      PowersMultiply(a, b - 1);
      Twice(Pow2(a), Pow2(b - 1));
    }
  }

  lemma Twice(a: int, b: int)
    ensures 2 * (a * b) == a * (2 * b)
  {
  }

  /** The pattern of one. */
  lemma OneIs(x: nat, a: nat, b: nat)
    requires x == 0x3f80_0000 && a == 126 && b == 23
    ensures Decoded(x) == 1.0
  {
    PowersMultiply(a, b);
    Fraction23(b);
    PowerIs(a + 1, x, Pow2(a), a + b);
    Whole(8388608 * Pow2(a), Pow2(a + b));
  }

  lemma PowerIs(exp: nat, x: nat, p: nat, scale: nat)
    requires 1 <= exp < 255 && x == exp * 8388608 && p == Pow2(exp - 1) && scale == 149
    ensures Decoded(x) == (8388608 * p) as real / Pow2(scale) as real
  {
    PatternIs(false, exp, 0, x, 8388608 * p, scale);
  }

  lemma Fraction23(b: nat)
    requires b == 23
    ensures Pow2(b) == 8388608
  {
    assert Pow2(5) == 32;
    assert Pow2(10) == 1024;
    assert Pow2(15) == 32768;
    assert Pow2(20) == 1048576;
  }

  lemma Whole(a: int, b: nat)
    requires a == b && b > 0
    ensures a as real / b as real == 1.0
  {
  }

  // ---------------------------------------------------------------- magnitudes grow

  function Magnitude(n: nat): nat { Units(Exponent(n), Fraction(n)) }

  lemma PartsOf(e: nat, f: nat)
    requires f < 0x80_0000 && e < 256
    ensures Exponent(e * 0x80_0000 + f) == e && Fraction(e * 0x80_0000 + f) == f
  {
  }

  lemma Grows(m: nat, p: nat)
    requires p > 0
    ensures m * p < (m + 1) * p
  {
  }

  lemma FractionStep(e: nat, f: nat)
    requires f + 1 < 0x80_0000
    ensures Units(e, f) < Units(e, f + 1)
  {
    if e > 0 {
      Grows(0x80_0000 + f, Pow2(e - 1));
    }
  }

  lemma ExponentStep(e: nat)
    ensures Units(e, 0x7f_ffff) < Units(e + 1, 0)
  {
    if e > 0 {
      Grows(0xff_ffff, Pow2(e - 1));
    }
  }

  lemma MagnitudeStep(n: nat)
    requires n + 1 < 0x7f80_0000
    ensures Magnitude(n) < Magnitude(n + 1)
  {
    var e, f := n / 0x80_0000, n % 0x80_0000;
    PartsOf(e, f);
    if f + 1 < 0x80_0000 {
      PartsOf(e, f + 1);
      FractionStep(e, f);
    } else {
      PartsOf(e + 1, 0);
      ExponentStep(e);
    }
  }

  lemma {:induction false} MagnitudeGrows(x: nat, y: nat)
    requires x < y < 0x7f80_0000
    ensures Magnitude(x) < Magnitude(y)
    decreases y
  {
    MagnitudeStep(y - 1);
    if x == y - 1 {
    } else {
      MagnitudeGrows(x, y - 1);
    }
  }

  // ---------------------------------------------------------------- the two orders

  /** A pattern without its sign. */
  function Unsigned(x: nat): nat
    requires x < 0x1_0000_0000
  {
    if x < 0x8000_0000 then x else x - 0x8000_0000
  }

  lemma SignDrops(y: nat)
    requires y < 0x8000_0000
    ensures Exponent(0x8000_0000 + y) == Exponent(y) && Fraction(0x8000_0000 + y) == Fraction(y)
  {
    var q, r := y / 0x80_0000, y % 0x80_0000;
    assert 0x8000_0000 + y == (256 + q) * 0x80_0000 + r;
    assert (0x8000_0000 + y) / 0x80_0000 == 256 + q;
  }

  lemma FiniteBelow(y: nat)
    requires y < 0x8000_0000
    ensures Exponent(y) < 255 <==> y < 0x7f80_0000
  {
  }

  lemma SignAside(x: nat)
    requires x < 0x1_0000_0000
    ensures Finite(x) <==> Unsigned(x) < 0x7f80_0000
    ensures SignedUnits(x) == if Negative(x) then 0 - Magnitude(Unsigned(x)) else Magnitude(Unsigned(x))
  {
    SignDrops(Unsigned(x));
    FiniteBelow(Unsigned(x));
  }

  lemma OnlyZeroIsZero(n: nat)
    requires n < 0x7f80_0000
    ensures Magnitude(n) == 0 <==> n == 0
  {
    if n > 0 {
      MagnitudeGrows(0, n);
    }
  }

  lemma UnitsOrder(m: int, n: int)
    ensures m < n <==> OfUnits(m) < OfUnits(n)
  {
    OverUnit(m, n, Pow2(149));
  }

  lemma OverUnit(m: int, n: int, u: int)
    requires u > 0
    ensures m < n <==> m as real / u as real < n as real / u as real
  {
  }

  /** Of two finite patterns the one of less value has the lesser key; equal values are the two zeros or the same. */
  lemma KeyIsValue(x: nat, y: nat)
    requires Finite(x) && Finite(y)
    ensures TotalKey(x) < TotalKey(y) <==> Decoded(x) < Decoded(y) || (x == 0x8000_0000 && y == 0)
  {
    UnitsOrder(SignedUnits(x), SignedUnits(y));
    var m, n := Unsigned(x), Unsigned(y);
    SignAside(x);
    SignAside(y);
    OnlyZeroIsZero(m);
    OnlyZeroIsZero(n);
    if m < n {
      MagnitudeGrows(m, n);
    } else if n < m {
      MagnitudeGrows(n, m);
    }
  }

  /** Infinities and patterns that are no number lie outside all finite ones. */
  lemma KeysOutside(x: nat, y: nat)
    requires Finite(x) && y < 0x1_0000_0000 && !Finite(y)
    ensures if Negative(y) then TotalKey(y) < TotalKey(x) else TotalKey(x) < TotalKey(y)
  {
    SignAside(x);
    SignAside(y);
  }
}
