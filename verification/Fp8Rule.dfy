/** The FP8 store cell by cell, stated with the numbers of the format instead of the names of its constants. */
module Fp8Rule {
  import opened E4m3
  import opened Grid
  import opened KvQuantize
  import opened Reals

  lemma ScaleIsPower(exp: nat)
    requires 1 <= exp <= 15
    ensures ExpScale(exp) == 8.0 * Exp2(exp - 10)
  {
    Exp2Step(-9); Exp2Step(-8); Exp2Step(-7); Exp2Step(-6); Exp2Step(-5); Exp2Step(-4); Exp2Step(-3); Exp2Step(-2);
    Exp2Step(-1); Exp2Step(0); Exp2Step(1); Exp2Step(2); Exp2Step(3); Exp2Step(4);
  }

  lemma EightTimes(m: real, s: real, t: real)
    requires t == 8.0 * s
    ensures (1.0 + m * 0.125) * t == Times(8.0 + m, s)
  {
  }

  lemma CodedIs(exp: nat, mant: nat, s: real)
    requires 1 <= exp <= 15 && mant < 8 && ExpScale(exp) == 8.0 * s
    ensures Coded(exp, mant) == Times((8 + mant) as real, s)
  {
    EightTimes(mant as real, s, ExpScale(exp));
  }

  /** What a code means: three fraction bits, and four exponent bits biased by seven. */
  lemma CodeValue(exp: nat, mant: nat)
    requires exp <= 15 && mant < 8
    ensures exp == 0 ==> Value(mant) * 512.0 == mant as real
    ensures exp >= 1 ==> Value(8 * exp + mant) == Times((8 + mant) as real, Exp2(exp - 10))
  {
    if exp == 0 {
    } else {
      ScaleIsPower(exp);
      CodedIs(exp, mant, Exp2(exp - 10));
      Parts(exp, mant, 8 * exp + mant);
    }
  }

  lemma Parts(exp: nat, mant: nat, i: nat)
    requires mant < 8 && i == 8 * exp + mant
    ensures Value(i) == Coded(exp, mant)
  {
    assert i / 8 == exp && i % 8 == mant;
  }

  /** The scale 2^k bounds cell `j` and leaves no binade unused, unless the block is below the floor of 0.0001. */
  ghost predicate ScaleFits(x: seq<real>, i: nat, k: int) {
    && (forall j :: 0 <= j < |x| && j / 64 == i / 64 ==> Abs(x[j]) <= 448.0 * Exp2(k))
    && 0.0001 <= 448.0 * Exp2(k)
    && (224.0 * Exp2(k) < 0.0001 || exists j :: 0 <= j < |x| && j / 64 == i / 64 && 224.0 * Exp2(k) < Abs(x[j]))
  }

  lemma FirstBlock(x: seq<real>, v: seq<real>, i: nat) returns (k: int)
    requires i < |v| <= 64 && v <= x && (|v| == 64 || v == x)
    ensures BlockScale(v) == Exp2(k) && ScaleFits(x, i, k)
  {
    var m := Max(AMax(v), 0.0001);
    k :| BlockScale(v) == Exp2(k);
    assert 224.0 * Exp2(k) < m <= 448.0 * Exp2(k);
    forall j | 0 <= j < |x| && j / 64 == i / 64
      ensures Abs(x[j]) <= 448.0 * Exp2(k)
    {
      assert v[j] == x[j];
    }
    if 224.0 * Exp2(k) >= 0.0001 {
      var j :| 0 <= j < |v| && Abs(v[j]) == AMax(v);
      assert x[j] == v[j] && j / 64 == i / 64;
    }
  }

  lemma LaterBlock(x: seq<real>, y: seq<real>, i: nat, k: int)
    requires 64 <= i < |x| && y == x[64..] && ScaleFits(y, i - 64, k)
    ensures ScaleFits(x, i, k)
  {
    forall j | 0 <= j < |x| && j / 64 == i / 64
      ensures Abs(x[j]) <= 448.0 * Exp2(k)
    {
      assert x[j] == y[j - 64] && (j - 64) / 64 == (i - 64) / 64;
    }
    if 224.0 * Exp2(k) >= 0.0001 {
      var j :| 0 <= j < |y| && j / 64 == (i - 64) / 64 && 224.0 * Exp2(k) < Abs(y[j]);
      assert x[j + 64] == y[j] && (j + 64) / 64 == i / 64;
    }
  }

  lemma {:induction false} CellInBlock(f: real -> real, x: seq<real>, i: nat) returns (k: int)
    requires i < |x|
    ensures ScaleFits(x, i, k) && QuantRow(f, x)[i] == QuantizedAt(f, x[i], Exp2(k))
  {
    if i < 64 {
      var v := if |x| <= 64 then x else x[..64];
      k := FirstBlock(x, v, i);
    } else {
      k := CellInBlock(f, x[64..], i - 64);
      LaterBlock(x, x[64..], i, k);
    }
  }

  /** Every cell is divided by its block's power of two, rounded, and multiplied back; blocks are 64 wide. */
  lemma CellIs(f: real -> real, x: seq<real>, i: nat) returns (k: int, y: real)
    requires i < |x|
    ensures ScaleFits(x, i, k) && Times(y, Exp2(k)) == x[i] && QuantRow(f, x)[i] == Times(f(y), Exp2(k))
  {
    k := CellInBlock(f, x, i);
    y := x[i] / Exp2(k);
    Divided(x[i], Exp2(k));
    Rounded64(f, x[i], Exp2(k), y);
  }

  lemma Divided(x: real, s: real)
    requires s > 0.0
    ensures Times(x / s, s) == x
  {
  }

  lemma Rounded64(f: real -> real, x: real, s: real, y: real)
    requires s > 0.0 && y == x / s
    ensures QuantizedAt(f, x, s) == Times(f(y), s)
  {
  }
}
