/**
 The E4M3FN grid: the 127 non-negative finite codes of an 8-bit float. The bits of a code are its exponent
 and its mantissa; codes below eight are subnormal, and the greatest value is 448.
 */
module E4m3 {
  import opened Grid

  const MAX_CODE: nat := 126
  const MAX_VALUE := 448.0

  /** `dsv4_e4m3fn_exp_scale` */
  function ExpScale(e: nat): real {
    if e == 0 then 0.0 else if e == 1 then 0.015625 else if e == 2 then 0.03125 else if e == 3 then 0.0625
    else if e == 4 then 0.125 else if e == 5 then 0.25 else if e == 6 then 0.5 else if e == 7 then 1.0
    else if e == 8 then 2.0 else if e == 9 then 4.0 else if e == 10 then 8.0 else if e == 11 then 16.0
    else if e == 12 then 32.0 else if e == 13 then 64.0 else if e == 14 then 128.0 else 256.0
  }

  /** `dsv4_e4m3fn_value` */
  function Value(i: nat): real {
    Coded(i / 8, i % 8)
  }

  function Coded(exp: nat, mant: nat): real {
    if exp == 0 then mant as real * 0.001953125
    else (1.0 + mant as real * 0.125) * ExpScale(exp)
  }

  lemma BitsOf(exp: nat, mant: nat)
    requires mant < 8
    ensures (8 * exp + mant) / 8 == exp && (8 * exp + mant) % 8 == mant
  {
  }

  lemma ScaleDoubles(e: nat)
    requires 1 <= e < 15
    ensures ExpScale(e + 1) == 2.0 * ExpScale(e) && ExpScale(e) > 0.0
  {
  }

  lemma MulGrows(a: real, b: real, s: real)
    requires 0.0 <= a < b && s > 0.0
    ensures 0.0 <= a * s < b * s
  {
  }

  /** The next mantissa, and the next exponent. */
  lemma MantissaStep(exp: nat, mant: nat)
    requires exp < 16 && mant < 7
    ensures 0.0 <= Coded(exp, mant) < Coded(exp, mant + 1)
  {
    if exp > 0 {
      MulGrows(1.0 + mant as real * 0.125, 1.0 + (mant + 1) as real * 0.125, ExpScale(exp));
    }
  }

  lemma ExponentStep(exp: nat)
    requires exp < 15
    ensures 0.0 <= Coded(exp, 7) < Coded(exp + 1, 0)
  {
    if exp > 0 {
      ScaleDoubles(exp);
    }
  }

  ghost predicate Rises(f: nat -> real, k: nat) {
    0.0 <= f(k) < f(k + 1)
  }

  /** Consecutive codes have increasing values. */
  lemma ValueStep(i: nat)
    requires i < MAX_CODE
    ensures Rises(Value, i)
  {
    var exp, mant := i / 8, i % 8;
    if mant < 7 {
      BitsOf(exp, mant + 1);
      MantissaStep(exp, mant);
    } else {
      BitsOf(exp + 1, 0);
      ExponentStep(exp);
    }
  }

  lemma {:induction false} StepsGrow(f: nat -> real, n: nat, i: nat, j: nat)
    requires (forall k: nat :: k < n ==> Rises(f, k)) && i < j <= n
    ensures 0.0 <= f(i) < f(j)
  {
    assert Rises(f, j - 1);
    if i == j - 1 {
    } else {
      StepsGrow(f, n, i, j - 1);
    }
  }

  lemma ValueGrows(i: nat, j: nat)
    requires i < j <= MAX_CODE
    ensures 0.0 <= Value(i) < Value(j)
  {
    forall k: nat | k < MAX_CODE
      ensures Rises(Value, k)
    {
      ValueStep(k);
    }
    StepsGrow(Value, MAX_CODE, i, j);
  }

  lemma IsGrid()
    ensures Increasing(Value, MAX_CODE) && Value(MAX_CODE) == MAX_VALUE
  {
    forall i: nat, j: nat | i < j <= MAX_CODE
      ensures Below(Value, i, j)
    {
      ValueGrows(i, j);
    }
  }

  /** E4M3FN rounding of any real. */
  function ToE4m3(x: real): real {
    Rounded(Value, MAX_CODE, x)
  }

  /** `dsv4_e4m3fn_dequant` */
  method Dequant(x: real) returns (r: real)
    ensures r == ToE4m3(x)
  {
    IsGrid();
    r := Search(Value, MAX_CODE, x);
  }

  lemma SubnormalDoubles(c: nat)
    requires c < 8
    ensures Value(2 * c) == 2.0 * Value(c)
  {
    if c >= 4 {
      BitsOf(1, 2 * c - 8);
    }
  }

  lemma CodedDoubles(exp: nat, mant: nat)
    requires 1 <= exp < 15
    ensures Coded(exp + 1, mant) == 2.0 * Coded(exp, mant)
  {
    ScaleDoubles(exp);
    Doubles(1.0 + mant as real * 0.125, ExpScale(exp));
  }

  lemma NormalDoubles(c: nat)
    requires 8 <= c < 120
    ensures Value(c + 8) == 2.0 * Value(c)
  {
    BitsOf(c / 8 + 1, c % 8);
    CodedDoubles(c / 8, c % 8);
  }

  lemma Doubles(a: real, s: real)
    ensures a * (2.0 * s) == 2.0 * (a * s)
  {
  }

  /** Twice a representable magnitude is representable, as long as it does not exceed the greatest. */
  lemma ValueDoubles(c: nat) returns (d: nat)
    requires c <= MAX_CODE && 2.0 * Value(c) <= MAX_VALUE
    ensures d <= MAX_CODE && Value(d) == 2.0 * Value(c)
  {
    if c < 8 {
      SubnormalDoubles(c);
      d := 2 * c;
    } else {
      HalfOfTop(c);
      NormalDoubles(c);
      d := c + 8;
    }
  }

  lemma ValueOf118()
    ensures Value(118) == 224.0
  {
    BitsOf(14, 6);
  }

  lemma HalfOfTop(c: nat)
    requires c <= MAX_CODE && 2.0 * Value(c) <= MAX_VALUE
    ensures c <= 118
  {
    ValueOf118();
    if c > 118 {
      ValueGrows(118, c);
    }
  }

  lemma GridDoubles()
    ensures forall c: nat :: c <= MAX_CODE && 2.0 * Value(c) <= Value(MAX_CODE) ==> HasDouble(Value, MAX_CODE, c)
  {
    IsGrid();
    forall c: nat | c <= MAX_CODE && 2.0 * Value(c) <= Value(MAX_CODE)
      ensures HasDouble(Value, MAX_CODE, c)
    {
      var d := ValueDoubles(c);
    }
  }

  /** For all reals, E4M3FN rounding obeys the laws block quantisation needs. */
  lemma E4m3RoundsToFp8()
    ensures RoundsToFp8(ToE4m3)
  {
    IsGrid();
    GridDoubles();
    ValueOf118();
    GridObeys(Value, MAX_CODE, ToE4m3, 118);
  }
}
