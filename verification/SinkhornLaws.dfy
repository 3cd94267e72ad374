/** What the parts of a split are, as equations in the entries they are computed from. */
module SinkhornLaws {
  import opened HyperConnection
  import opened Reals
  import opened Sinkhorn
  import opened Softmax

  lemma ExpOfZero(exp: real -> real)
    requires ExpLaws(exp)
    ensures exp(0.0) == 1.0
  {
    ExpOfDouble(exp, 0.0, 0.0);
  }

  lemma ExpOfDouble(exp: real -> real, z: real, w: real)
    requires ExpLaws(exp) && w == z + z && w == z
    ensures exp(z) == 1.0
  {
    assert AddsUp(exp, z, z);
    assert exp(w) == exp(z + z);
    assert exp(z + z) == exp(z) * exp(z);
    assert exp(w) == exp(z) * exp(z);
    assert exp(z) == exp(w);
    assert exp(z) == exp(z) * exp(z);
    Cancel(exp(z));
  }

  lemma Cancel(e: real)
    requires e > 0.0 && e == e * e
    ensures e == 1.0
  {
    assert e * (e - 1.0) == 0.0;
  }

  lemma ExpMirror(exp: real -> real, x: real)
    requires ExpLaws(exp)
    ensures exp(x) * exp(-x) == 1.0
  {
    ExpOfZero(exp);
    assert AddsUp(exp, x, -x);
    assert x + -x == 0.0;
  }

  // ---------------------------------------------------------------- the gates

  /** Output gate `i` reads entries 4 + i of the row and of the base, and the second scale. */
  lemma PostGateIs(exp: real -> real, mix: seq<real>, scale: seq<real>, base: seq<real>, i: nat)
    requires SplitFits(mix, scale, base) && i < 4 && forall x :: exp(x) > 0.0
    ensures PostGate(exp, mix, scale, base, i) * (1.0 + exp(-(mix[4 + i] * scale[1] + base[4 + i]))) == 2.0
    ensures 0.0 < PostGate(exp, mix, scale, base, i) < 2.0
  {
    var e := exp(-(mix[4 + i] * scale[1] + base[4 + i]));
    InvPositive(1.0 + e);
    TwiceInverse(e, Inv(1.0 + e));
  }

  lemma TwiceInverse(e: real, v: real)
    requires e > 0.0 && v > 0.0 && (1.0 + e) * v == 1.0
    ensures (2.0 * v) * (1.0 + e) == 2.0 && 0.0 < v < 1.0
  {
    assert v + e * v == 1.0;
    assert e * v > 0.0;
  }

  /** Opposite arguments give output gates that add up to two. */
  lemma PostGatesMirror(exp: real -> real, mix: seq<real>, scale: seq<real>, base: seq<real>, i: nat,
                        mix': seq<real>, scale': seq<real>, base': seq<real>)
    requires SplitFits(mix, scale, base) && SplitFits(mix', scale', base') && i < 4 && ExpLaws(exp)
    requires mix'[4 + i] * scale'[1] + base'[4 + i] == -(mix[4 + i] * scale[1] + base[4 + i])
    ensures PostGate(exp, mix, scale, base, i) + PostGate(exp, mix', scale', base', i) == 2.0
  {
    var z := mix[4 + i] * scale[1] + base[4 + i];
    PostGateIs(exp, mix, scale, base, i);
    PostGateIs(exp, mix', scale', base', i);
    ExpMirror(exp, z);
    Halves(exp(-z), exp(z), PostGate(exp, mix, scale, base, i), PostGate(exp, mix', scale', base', i));
  }

  lemma Halves(e: real, f: real, a: real, b: real)
    requires e > 0.0 && f > 0.0 && f * e == 1.0 && a * (1.0 + e) == 2.0 && b * (1.0 + f) == 2.0
    ensures a + b == 2.0
  {
    assert (b * (1.0 + f)) * e == b * e + b * (f * e);
    assert b * (1.0 + e) == 2.0 * e;
    assert (a + b) * (1.0 + e) == 2.0 * (1.0 + e);
    OneFactor(a + b, 2.0, 1.0 + e);
  }

  lemma OneFactor(a: real, b: real, c: real)
    requires c > 0.0 && a * c == b * c
    ensures a == b
  {
    assert (a - b) * c == 0.0;
  }

  /** Input gate `i` reads entry `i` of the row and of the base, and the first scale. */
  lemma PreGateIs(exp: real -> real, mix: seq<real>, scale: seq<real>, base: seq<real>, eps: real, i: nat)
    requires SplitFits(mix, scale, base) && i < 4 && ExpLaws(exp)
    ensures (PreGate(exp, mix, scale, base, eps, i) - eps) * (1.0 + exp(-(mix[i] * scale[0] + base[i]))) == 1.0
    ensures eps < PreGate(exp, mix, scale, base, eps, i) < 1.0 + eps
  {
    SigmoidIs(exp, mix[i] * scale[0] + base[i]);
  }

  lemma SigmoidIs(exp: real -> real, x: real)
    requires ExpLaws(exp)
    ensures Sigmoid(exp, x) * (1.0 + exp(-x)) == 1.0 && 0.0 < Sigmoid(exp, x) < 1.0
  {
    ExpMirror(exp, x);
    var e, f := exp(x), exp(-x);
    InvPositive(1.0 + f);
    InvPositive(1.0 + e);
    TwiceInverse(f, Inv(1.0 + f));
    if x < 0.0 {
      OtherForm(e, f, Inv(1.0 + e));
    }
  }

  lemma OtherForm(e: real, f: real, v: real)
    requires e > 0.0 && f > 0.0 && e * f == 1.0 && v > 0.0 && (1.0 + e) * v == 1.0
    ensures (e * v) * (1.0 + f) == 1.0 && 0.0 < e * v < 1.0
  {
    assert (e * v) * (1.0 + f) == e * v + (e * f) * v;
    assert v + e * v == 1.0;
  }

  // ---------------------------------------------------------------- the start of the mixer

  lemma CellOf(dst: nat, src: nat)
    requires dst < 4 && src < 4
    ensures Row(4 * dst + src) == dst && Col(4 * dst + src) == src
  {
  }

  lemma ShiftedCell(exp: real -> real, a: Matrix, i: nat, m: real, e: real)
    requires ExpLaws(exp) && i < 16 && m == RowMax(a, Row(i)) && e == Exponentials(exp, a)[i]
    ensures e == exp(a[i]) * exp(-m)
  {
    ShiftExp(exp, a[i], m);
  }

  lemma GreatestCell(exp: real -> real, a: Matrix, i: nat, m: real, e: real)
    requires ExpLaws(exp) && i < 16 && m == RowMax(a, Row(i)) && e == Exponentials(exp, a)[i]
    ensures e > 0.0 && (a[i] == m ==> e == 1.0)
  {
    ExpOfZero(exp);
    assert e == exp(a[i] - m);
    assert a[i] == m ==> a[i] - m == 0.0;
  }

  lemma RowAtLeastOne(exp: real -> real, a: Matrix, dst: nat, m: real, e: Matrix)
    requires ExpLaws(exp) && dst < 4 && m == RowMax(a, dst) && e == Exponentials(exp, a)
    ensures RowSum(e, dst) >= 1.0
  {
    var i := 4 * dst;
    CellOf(dst, 0);
    CellOf(dst, 1);
    CellOf(dst, 2);
    CellOf(dst, 3);
    GreatestCell(exp, a, i, m, e[i]);
    GreatestCell(exp, a, i + 1, m, e[i + 1]);
    GreatestCell(exp, a, i + 2, m, e[i + 2]);
    GreatestCell(exp, a, i + 3, m, e[i + 3]);
    ShiftedSum(a[i], a[i + 1], a[i + 2], a[i + 3], m, e[i], e[i + 1], e[i + 2], e[i + 3]);
  }

  lemma ShiftedSum(x0: real, x1: real, x2: real, x3: real, m: real, e0: real, e1: real, e2: real, e3: real)
    requires m == Max2(Max2(Max2(x0, x1), x2), x3) && e0 > 0.0 && e1 > 0.0 && e2 > 0.0 && e3 > 0.0
    requires (x0 == m ==> e0 == 1.0) && (x1 == m ==> e1 == 1.0) && (x2 == m ==> e2 == 1.0) && (x3 == m ==> e3 == 1.0)
    ensures e0 + e1 + e2 + e3 >= 1.0
  {
  }

  lemma SoftenedCell(e: Matrix, eps: real, i: nat)
    requires i < 16 && RowSum(e, Row(i)) >= 1.0 && eps <= 1.0
    ensures Softened(e, eps)[i] - eps == Times(e[i], Inv(RowSum(e, Row(i))))
  {
    assert Softened(e, eps)[i] == Times(e[i], Inv(Max2(RowSum(e, Row(i)), eps))) + eps;
  }

  /** `p` is to `q` as `x` is to `y`. */
  ghost predicate InRatio(p: real, x: real, q: real, y: real) {
    Times(p, y) == Times(q, x)
  }

  /** Lifted cell `i` less the lift, times the exponential of a neighbour. */
  lemma CrossCell(exp: real -> real, a: Matrix, i: nat, j: nat, m: real, v: real)
    requires ExpLaws(exp) && i < 16 && j < 16 && Row(i) == Row(j) && m == RowMax(a, Row(i))
    ensures InRatio(Times(Exponentials(exp, a)[i], v), exp(a[i]), Times(Exponentials(exp, a)[j], v), exp(a[j]))
  {
    var p, q := Exponentials(exp, a)[i], Exponentials(exp, a)[j];
    ShiftedCell(exp, a, i, m, p);
    ShiftedCell(exp, a, j, m, q);
    Crossed(exp(a[i]), exp(a[j]), exp(-m), v, p, q);
  }

  lemma Crossed(x: real, y: real, k: real, v: real, p: real, q: real)
    requires p == x * k && q == y * k
    ensures Times(Times(p, v), y) == Times(Times(q, v), x)
  {
    calc {
      (x * k * v) * y;
      (y * k * v) * x;
    }
  }

  /** Shares that add up to one and stand in the ratio of the weights are the weights over their sum. */
  lemma SharesOf(p0: real, p1: real, p2: real, p3: real, x0: real, x1: real, x2: real, x3: real, p: real, x: real)
    requires p0 + p1 + p2 + p3 == 1.0
    requires InRatio(p, x, p0, x0) && InRatio(p, x, p1, x1) && InRatio(p, x, p2, x2) && InRatio(p, x, p3, x3)
    ensures Times(p, x0 + x1 + x2 + x3) == x
  {
    calc {
      p * (x0 + x1 + x2 + x3);
      p * x0 + p * x1 + p * x2 + p * x3;
      p0 * x + p1 * x + p2 * x + p3 * x;
      (p0 + p1 + p2 + p3) * x;
      x;
    }
  }

  lemma SharesAddUp(e0: real, e1: real, e2: real, e3: real, v: real)
    requires Times(e0 + e1 + e2 + e3, v) == 1.0
    ensures Times(e0, v) + Times(e1, v) + Times(e2, v) + Times(e3, v) == 1.0
  {
  }

  /** The cells before the softmax read entries 8 to 23 of the row and of the base, and the third scale. */
  lemma AffineIs(mix: seq<real>, scale: seq<real>, base: seq<real>, i: nat)
    requires SplitFits(mix, scale, base) && i < 16
    ensures Affine(mix, scale, base)[i] == mix[8 + i] * scale[2] + base[8 + i]
  {
  }

  /** The start is the softmax of every row, lifted by `eps`: less the lift, cell times row total is the exponential. */
  lemma StartIsSoftmax(exp: real -> real, mix: seq<real>, scale: seq<real>, base: seq<real>, eps: real, dst: nat, src: nat)
    requires SplitFits(mix, scale, base) && ExpLaws(exp) && 0.0 < eps <= 1.0 && dst < 4 && src < 4
    ensures var a, s := Affine(mix, scale, base), Started(exp, mix, scale, base, eps);
            Times(s[4 * dst + src] - eps, RowOf(exp, a, dst)) == exp(a[4 * dst + src])
  {
    var a := Affine(mix, scale, base);
    RowAtLeastOne(exp, a, dst, RowMax(a, dst), Exponentials(exp, a));
    CellOf(dst, src);
    LiftedShare(exp, a, eps, dst, 4 * dst + src, RowMax(a, dst), Exponentials(exp, a));
  }

  function RowOf(exp: real -> real, a: Matrix, dst: nat): real
    requires dst < 4
  {
    exp(a[4 * dst]) + exp(a[4 * dst + 1]) + exp(a[4 * dst + 2]) + exp(a[4 * dst + 3])
  }

  lemma InvTimes(s: real)
    requires s > 0.0
    ensures Times(s, Inv(s)) == 1.0
  {
    InvPositive(s);
  }

  lemma LiftedShare(exp: real -> real, a: Matrix, eps: real, dst: nat, i: nat, m: real, e: Matrix)
    requires ExpLaws(exp) && eps <= 1.0 && dst < 4 && i < 16 && Row(i) == dst && m == RowMax(a, dst) && e == Exponentials(exp, a)
    requires RowSum(e, dst) >= 1.0
    ensures Times(Softened(e, eps)[i] - eps, RowOf(exp, a, dst)) == exp(a[i])
  {
    InvTimes(RowSum(e, dst));
    SharesOfRow(exp, a, dst, i, m, e, Inv(RowSum(e, dst)));
    SoftenedCell(e, eps, i);
  }

  lemma RowOfFour(dst: nat, j: nat)
    requires dst < 4 && j == 4 * dst
    ensures Row(j) == Row(j + 1) == Row(j + 2) == Row(j + 3) == dst
  {
  }

  lemma SharesOfRow(exp: real -> real, a: Matrix, dst: nat, i: nat, m: real, e: Matrix, v: real)
    requires ExpLaws(exp) && dst < 4 && i < 16 && Row(i) == dst && m == RowMax(a, dst) && e == Exponentials(exp, a)
    requires Times(RowSum(e, dst), v) == 1.0
    ensures Times(Times(e[i], v), RowOf(exp, a, dst)) == exp(a[i])
  {
    var j := 4 * dst;
    RowOfFour(dst, j);
    CrossCell(exp, a, i, j, m, v);
    CrossCell(exp, a, i, j + 1, m, v);
    CrossCell(exp, a, i, j + 2, m, v);
    CrossCell(exp, a, i, j + 3, m, v);
    SharesAddUp(e[j], e[j + 1], e[j + 2], e[j + 3], v);
    SharesOf(Times(e[j], v), Times(e[j + 1], v), Times(e[j + 2], v), Times(e[j + 3], v),
             exp(a[j]), exp(a[j + 1]), exp(a[j + 2]), exp(a[j + 3]), Times(e[i], v), exp(a[i]));
  }

  // ---------------------------------------------------------------- the scalings

  /** Each row divided by its sum plus `eps`; each column likewise. */
  lemma ScalingsDivide(c: Matrix, eps: real, dst: nat, src: nat)
    requires Positive(c) && eps > 0.0 && dst < 4 && src < 4
    ensures RowsScaled(c, eps)[4 * dst + src] * (c[4 * dst] + c[4 * dst + 1] + c[4 * dst + 2] + c[4 * dst + 3] + eps)
         == c[4 * dst + src]
    ensures ColsScaled(c, eps)[4 * dst + src] * (c[src] + c[4 + src] + c[8 + src] + c[12 + src] + eps) == c[4 * dst + src]
  {
    RowScalingDivides(c, eps, dst, src);
    ColScalingDivides(c, eps, dst, src);
  }

  lemma RowScalingDivides(c: Matrix, eps: real, dst: nat, src: nat)
    requires Positive(c) && eps > 0.0 && dst < 4 && src < 4
    ensures RowsScaled(c, eps)[4 * dst + src] * (RowSum(c, dst) + eps) == c[4 * dst + src]
  {
    RowsScaledAt(c, eps, dst, src);
    SumsPositive(c, dst);
    QuotientTimes(c[4 * dst + src], RowSum(c, dst) + eps, RowsScaled(c, eps)[4 * dst + src]);
  }

  lemma ColScalingDivides(c: Matrix, eps: real, dst: nat, src: nat)
    requires Positive(c) && eps > 0.0 && dst < 4 && src < 4
    ensures ColsScaled(c, eps)[4 * dst + src] * (ColSum(c, src) + eps) == c[4 * dst + src]
  {
    ColsScaledAt(c, eps, dst, src);
    SumsPositive(c, src);
    QuotientTimes(c[4 * dst + src], ColSum(c, src) + eps, ColsScaled(c, eps)[4 * dst + src]);
  }

  lemma RowsScaledAt(c: Matrix, eps: real, dst: nat, src: nat)
    requires dst < 4 && src < 4
    ensures RowsScaled(c, eps)[4 * dst + src] == Times(c[4 * dst + src], Inv(RowSum(c, dst) + eps))
  {
    CellOf(dst, src);
    assert RowsScaled(c, eps)[4 * dst + src] == RowCell(c, eps, 4 * dst + src);
  }

  lemma ColsScaledAt(c: Matrix, eps: real, dst: nat, src: nat)
    requires dst < 4 && src < 4
    ensures ColsScaled(c, eps)[4 * dst + src] == Times(c[4 * dst + src], Inv(ColSum(c, src) + eps))
  {
    CellOf(dst, src);
    assert ColsScaled(c, eps)[4 * dst + src] == ColCell(c, eps, 4 * dst + src);
  }

  lemma QuotientTimes(x: real, s: real, y: real)
    requires s > 0.0 && y == Times(x, Inv(s))
    ensures y * s == x
  {
    InvPositive(s);
    Divided(x, s, Inv(s));
  }

  lemma Divided(x: real, s: real, v: real)
    requires s * v == 1.0
    ensures Times(x, v) * s == x
  {
    assert (x * v) * s == x * (s * v);
  }

  /** One column scaling for zero or one iteration, and for every further one a row and a column scaling. */
  lemma IterationsAre(exp: real -> real, mix: seq<real>, scale: seq<real>, base: seq<real>, iters: nat, eps: real)
    requires SplitFits(mix, scale, base)
    ensures iters <= 1 ==> Mixer(exp, mix, scale, base, iters, eps) == ColsScaled(Started(exp, mix, scale, base, eps), eps)
    ensures iters >= 1 ==>
              Mixer(exp, mix, scale, base, iters + 1, eps)
              == ColsScaled(RowsScaled(Mixer(exp, mix, scale, base, iters, eps), eps), eps)
  {
  }
}
