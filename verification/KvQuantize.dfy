/** The FP8 KV store: blocks of 64 rounded through E4M3FN at a power-of-two scale. */
module KvQuantize {
  import opened Grid
  import opened E4m3
  import opened Bits
  import opened Reals

  // ---------------------------------------------------------------- the block scale

  /** Two to an integer power of either sign. */
  function Exp2(k: int): (x: real)
    ensures x > 0.0
    decreases if k < 0 then -k else k
  {
    if k == 0 then 1.0 else if k > 0 then 2.0 * Exp2(k - 1) else Exp2(k + 1) / 2.0
  }

  lemma Exp2Step(k: int)
    ensures Exp2(k + 1) == 2.0 * Exp2(k)
  {
  }

  lemma {:induction false} Exp2Grows(j: int, k: int)
    requires j < k
    ensures 2.0 * Exp2(j) <= Exp2(k)
    decreases k - j
  {
    Exp2Step(k - 1);
    if j == k - 1 {
    } else {
      Exp2Grows(j, k - 1);
    }
  }

  /** `s` is the least power of two at which magnitudes up to `amax` stay within the grid. */
  ghost predicate IsScale(amax: real, s: real) {
    (exists k: int :: s == Exp2(k)) && 224.0 * s < amax <= 448.0 * s
  }

  lemma ScaleUnique(amax: real, s: real, s': real)
    requires IsScale(amax, s) && IsScale(amax, s')
    ensures s == s'
  {
    var k: int :| s == Exp2(k);
    var k': int :| s' == Exp2(k');
    if k < k' {
      Exp2Grows(k, k');
    } else if k' < k {
      Exp2Grows(k', k);
    }
  }

  /** The kernel's `exp2(ceil(log2(amax / 448)))`, searched upwards from 2^k. */
  function ScaleFrom(amax: real, k: int): (s: real)
    requires 224.0 * Exp2(k) < amax
    ensures IsScale(amax, s)
    decreases (amax / Exp2(k)).Floor
  {
    if amax <= 448.0 * Exp2(k) then Exp2(k)
    else
      Exp2Step(k);
      QuotientHalves(amax, Exp2(k));
      ScaleFrom(amax, k + 1)
  }

  lemma QuotientHalves(a: real, s: real)
    requires s > 0.0 && a > 448.0 * s
    ensures 0 <= (a / (2.0 * s)).Floor < (a / s).Floor
  {
    var q := a / (2.0 * s);
    assert q * (2.0 * s) == a;
    assert (2.0 * q) * s == a;
    assert a / s == 2.0 * q;
    DivGreater(a, 2.0 * s, 224.0);
  }

  lemma DivGreater(a: real, b: real, c: real)
    requires b > 0.0 && a > c * b
    ensures a / b > c
  {
  }

  const MIN_AMAX := 0.0001

  function Scale(amax: real): (s: real)
    requires amax >= MIN_AMAX
    ensures IsScale(amax, s)
  {
    assert 224.0 * Exp2(-22) < MIN_AMAX by { SmallPower(); }
    ScaleFrom(amax, -22)
  }

  lemma SmallPower()
    ensures Exp2(-22) == 1.0 / 4194304.0
  {
    assert Exp2(-5) == 1.0 / 32.0;
    assert Exp2(-10) == 1.0 / 1024.0;
    assert Exp2(-15) == 1.0 / 32768.0;
    assert Exp2(-20) == 1.0 / 1048576.0;
  }

  // ---------------------------------------------------------------- one block

  /** The greatest magnitude of a block. */
  function AMax(v: seq<real>): (m: real)
    ensures m >= 0.0 && forall i :: 0 <= i < |v| ==> Abs(v[i]) <= m
    ensures v != [] ==> exists i :: 0 <= i < |v| && Abs(v[i]) == m
  {
    if v == [] then 0.0 else Max(AMax(v[..|v| - 1]), Abs(v[|v| - 1]))
  }

  function BlockScale(v: seq<real>): (s: real)
    ensures s > 0.0
  {
    Scale(Max(AMax(v), MIN_AMAX))
  }

  function QuantizedAt(f: real -> real, x: real, s: real): real
    requires s > 0.0
  {
    f(x / s) * s
  }

  /** A block after the FP8 round trip through the rounding `f`. */
  function QuantBlock(f: real -> real, v: seq<real>): (q: seq<real>)
    ensures |q| == |v|
  {
    var s := BlockScale(v);
    seq(|v|, i requires 0 <= i < |v| => QuantizedAt(f, v[i], s))
  }

  // ---------------------------------------------------------------- twice is once

  lemma DivMul(c: real, s: real)
    requires s > 0.0
    ensures (c * s) / s == c && (c * s) / (s / 2.0) == 2.0 * c && (2.0 * c) * (s / 2.0) == c * s
  {
    assert ((c * s) / (s / 2.0)) * (s / 2.0) == c * s;
    assert (2.0 * c) * (s / 2.0) == c * s;
  }

  lemma AbsDiv(x: real, s: real)
    requires s > 0.0
    ensures Abs(x / s) == Abs(x) / s
  {
  }

  /** A product divided by its own scale, or by half of it. */
  lemma ProductAtScale(c: real, s: real, p: real)
    requires s > 0.0 && p == c * s
    ensures p / s == c && p / (s / 2.0) == 2.0 * c
  {
    DivMul(c, s);
  }

  /** At the same scale a quantised value stays where it is. */
  lemma StaysAtScale(f: real -> real, x: real, s: real, p: real)
    requires s > 0.0 && p == QuantizedAt(f, x, s) && Idempotent(f, x / s)
    ensures QuantizedAt(f, p, s) == p
  {
    var c := f(x / s);
    ProductAtScale(c, s, p);
    assert f(p / s) == c;
  }

  /** At half the scale too, if its magnitude fits there. */
  lemma StaysAtHalfScale(f: real -> real, x: real, s: real, half: real, p: real)
    requires s > 0.0 && p == QuantizedAt(f, x, s) && half == s / 2.0
    requires DoublesToo(f, x / s) && Abs(f(x / s)) <= 224.0
    ensures QuantizedAt(f, p, half) == p
  {
    var c := f(x / s);
    ProductAtScale(c, s, p);
    assert f(p / half) == 2.0 * c;
    DivMul(c, s);
  }

  lemma HalfIsScale(amax: real, s: real, half: real)
    requires (exists k: int :: s == Exp2(k)) && half == s / 2.0
    requires 112.0 * s < amax <= 224.0 * s
    ensures IsScale(amax, half)
  {
    var k: int :| s == Exp2(k);
    Exp2Step(k - 1);
    assert half == Exp2(k - 1);
  }

  lemma ProductMagnitude(c: real, a: real, s: real, p: real)
    requires s > 0.0 && p == c * s && a == Abs(c) && a <= 448.0
    ensures Abs(p) == a * s && Abs(p) <= 448.0 * s
  {
    AbsMul(c, s);
    assert Abs(p) == a * s;
    MulOrdered(a, 448.0, s);
  }

  lemma AtLeast(a: real, s: real, k: real, w: real)
    requires s > 0.0 && a >= k && w == a * s
    ensures w >= k * s
  {
  }

  /** Magnitudes of quantised values: at most 448 scales. */
  lemma QuantizedMagnitude(f: real -> real, x: real, s: real, p: real)
    requires s > 0.0 && RoundsToFp8(f) && p == QuantizedAt(f, x, s)
    ensures Abs(p) == Abs(f(x / s)) * s && Abs(p) <= 448.0 * s
  {
    var y := x / s;
    assert KeepsOrder(f, y, y);
    ProductMagnitude(f(y), Abs(f(y)), s, p);
  }

  /** A value of 224 scales or more stays that large. */
  lemma LargeStaysLarge(f: real -> real, x: real, s: real, p: real)
    requires s > 0.0 && RoundsToFp8(f) && p == QuantizedAt(f, x, s) && Abs(x) >= 224.0 * s
    ensures Abs(p) >= 224.0 * s
  {
    var y := x / s;
    QuantizedMagnitude(f, x, s, p);
    AbsDiv(x, s);
    DivAtLeast(Abs(x), s, 224.0);
    assert KeepsOrder(f, 224.0, y);
    AtLeast(Abs(f(y)), s, 224.0, Abs(p));
  }

  lemma AbsMul(c: real, s: real)
    requires s > 0.0
    ensures Abs(c * s) == Abs(c) * s
  {
  }

  lemma MulOrdered(a: real, b: real, s: real)
    requires s > 0.0 && a <= b
    ensures a * s <= b * s
  {
  }

  lemma MulCancels(a: real, b: real, s: real)
    requires s > 0.0 && a * s <= b * s
    ensures a <= b
  {
  }

  lemma DivAtLeast(a: real, b: real, c: real)
    requires b > 0.0 && a >= c * b
    ensures a / b >= c
  {
  }

  lemma AMaxIs(v: seq<real>, m: real)
    requires m >= 0.0 && (forall i :: 0 <= i < |v| ==> Abs(v[i]) <= m)
    ensures AMax(v) <= m
  {
  }

  /** The quantised block's own maximum lies between 224 and 448 of the old scale. */
  lemma NewMaximum(f: real -> real, v: seq<real>, s: real, q: seq<real>)
    requires RoundsToFp8(f) && s == BlockScale(v) && q == QuantBlock(f, v)
    ensures 224.0 * s <= Max(AMax(q), MIN_AMAX) <= 448.0 * s
  {
    assert IsScale(Max(AMax(v), MIN_AMAX), s);
    forall i | 0 <= i < |q|
      ensures Abs(q[i]) <= 448.0 * s
    {
      QuantizedMagnitude(f, v[i], s, q[i]);
    }
    AMaxIs(q, 448.0 * s);
    if AMax(v) > MIN_AMAX {
      GreatestStays(f, v, s, q);
    }
  }

  lemma GreatestStays(f: real -> real, v: seq<real>, s: real, q: seq<real>)
    requires RoundsToFp8(f) && s > 0.0 && |q| == |v| && v != [] && AMax(v) > 224.0 * s
    requires forall i :: 0 <= i < |v| ==> q[i] == QuantizedAt(f, v[i], s)
    ensures AMax(q) >= 224.0 * s
  {
    var i :| 0 <= i < |v| && Abs(v[i]) == AMax(v);
    LargeStaysLarge(f, v[i], s, q[i]);
    assert Abs(q[i]) <= AMax(q);
  }

  lemma BlockStaysAtScale(f: real -> real, v: seq<real>, q: seq<real>, s: real)
    requires RoundsToFp8(f) && s > 0.0 && |q| == |v| && BlockScale(q) == s
    requires forall i :: 0 <= i < |v| ==> q[i] == QuantizedAt(f, v[i], s)
    ensures QuantBlock(f, q) == q
  {
    forall i | 0 <= i < |v|
      ensures QuantizedAt(f, q[i], s) == q[i]
    {
      assert Idempotent(f, v[i] / s);
      StaysAtScale(f, v[i], s, q[i]);
    }
  }

  lemma BlockStaysAtHalfScale(f: real -> real, v: seq<real>, q: seq<real>, s: real, half: real)
    requires RoundsToFp8(f) && s > 0.0 && |q| == |v| && half == s / 2.0 && BlockScale(q) == half && AMax(q) <= 224.0 * s
    requires forall i :: 0 <= i < |v| ==> q[i] == QuantizedAt(f, v[i], s)
    ensures QuantBlock(f, q) == q
  {
    forall i | 0 <= i < |v|
      ensures QuantizedAt(f, q[i], half) == q[i]
    {
      assert Abs(q[i]) <= AMax(q);
      SmallStays(f, v[i], s, half, q[i]);
    }
  }

  lemma SmallStays(f: real -> real, x: real, s: real, half: real, p: real)
    requires RoundsToFp8(f) && s > 0.0 && half == s / 2.0 && p == QuantizedAt(f, x, s) && Abs(p) <= 224.0 * s
    ensures QuantizedAt(f, p, half) == p
  {
    QuantizedMagnitude(f, x, s, p);
    MulCancels(Abs(f(x / s)), 224.0, s);
    assert DoublesToo(f, x / s);
    StaysAtHalfScale(f, x, s, half, p);
  }

  /** Quantising a block twice equals quantising it once, even when the second pass halves the scale. */
  lemma QuantBlockProjects(f: real -> real, v: seq<real>)
    requires RoundsToFp8(f)
    ensures QuantBlock(f, QuantBlock(f, v)) == QuantBlock(f, v)
  {
    var s, q := BlockScale(v), QuantBlock(f, v);
    var amax' := Max(AMax(q), MIN_AMAX);
    NewMaximum(f, v, s, q);
    assert IsScale(Max(AMax(v), MIN_AMAX), s);
    if amax' > 224.0 * s {
      ScaleUnique(amax', s, BlockScale(q));
      BlockStaysAtScale(f, v, q, s);
    } else {
      HalfIsScale(amax', s, s / 2.0);
      ScaleUnique(amax', s / 2.0, BlockScale(q));
      BlockStaysAtHalfScale(f, v, q, s, s / 2.0);
    }
  }

  // ---------------------------------------------------------------- rows of blocks

  const BLOCK := 64

  /** A row is quantised in blocks of 64; the last one may be shorter. */
  function QuantRow(f: real -> real, x: seq<real>): (q: seq<real>)
    ensures |q| == |x|
  {
    if |x| <= BLOCK then QuantBlock(f, x) else QuantBlock(f, x[..BLOCK]) + QuantRow(f, x[BLOCK..])
  }

  /** A whole row quantised twice equals the row quantised once. */
  lemma {:induction false} QuantRowProjects(f: real -> real, x: seq<real>)
    requires RoundsToFp8(f)
    ensures QuantRow(f, QuantRow(f, x)) == QuantRow(f, x)
  {
    if |x| <= BLOCK {
      QuantBlockProjects(f, x);
    } else {
      QuantBlockProjects(f, x[..BLOCK]);
      QuantRowProjects(f, x[BLOCK..]);
      var a, b := QuantBlock(f, x[..BLOCK]), QuantRow(f, x[BLOCK..]);
      assert (a + b)[..BLOCK] == a && (a + b)[BLOCK..] == b;
    }
  }

  /** The FP8 key/value row written back by the kernel is a fixed point of the kernel's rounding. */
  lemma Fp8RowProjects(x: seq<real>)
    ensures QuantRow(ToE4m3, QuantRow(ToE4m3, x)) == QuantRow(ToE4m3, x)
  {
    E4m3RoundsToFp8();
    QuantRowProjects(ToE4m3, x);
  }

  // ---------------------------------------------------------------- the kernel

  lemma AMaxUnique(v: seq<real>, m: real)
    requires m >= 0.0 && (forall i :: 0 <= i < |v| ==> Abs(v[i]) <= m)
    requires m == 0.0 || exists i :: 0 <= i < |v| && Abs(v[i]) == m
    ensures AMax(v) == m
  {
    AMaxIs(v, m);
  }

  ghost predicate Folded(cur: seq<real>, next: seq<real>, w: nat) {
    2 * w <= |cur| == |next| && forall t :: 0 <= t < w ==> next[t] == Max(Abs(cur[t]), Abs(cur[t + w]))
  }

  /** One halving round of the tree keeps the maximum. */
  lemma FoldKeepsMaximum(cur: seq<real>, next: seq<real>, w: nat)
    requires Folded(cur, next, w)
    ensures AMax(next[..w]) == AMax(cur[..2 * w])
  {
    var c, n, m := cur[..2 * w], next[..w], AMax(cur[..2 * w]);
    forall t | 0 <= t < w
      ensures Abs(n[t]) <= m
    {
      assert Abs(c[t]) <= m && Abs(c[t + w]) <= m;
    }
    if w > 0 {
      var i :| 0 <= i < 2 * w && Abs(c[i]) == m;
      var t := if i < w then i else i - w;
      assert n[t] == Max(Abs(cur[t]), Abs(cur[t + w]));
      assert Abs(c[t]) <= m && Abs(c[t + w]) <= m;
      assert Abs(n[t]) == m;
    }
    AMaxUnique(n, m);
  }

  /** One round of the tree: the threads below `stride` each take the greater of two cells. */
  method FoldRound(scratch: array<real>, stride: nat)
    requires 2 * stride <= scratch.Length && forall t :: 0 <= t < scratch.Length ==> scratch[t] >= 0.0
    modifies scratch
    ensures Folded(old(scratch[..]), scratch[..], stride)
    ensures forall t :: 0 <= t < scratch.Length ==> scratch[t] >= 0.0
  {
    for tid := 0 to stride
      invariant forall t {:trigger scratch[t]} :: tid <= t < scratch.Length ==> scratch[t] == old(scratch[t])
      invariant forall t {:trigger scratch[t]} :: 0 <= t < tid ==>
        scratch[t] == Max(Abs(old(scratch[t])), Abs(old(scratch[t + stride])))
    {
      scratch[tid] := Max(scratch[tid], scratch[tid + stride]);
    }
  }

  /** The threadgroup's max tree over its 64 magnitudes. */
  method TreeMax(scratch: array<real>) returns (m: real)
    requires scratch.Length == BLOCK && forall t :: 0 <= t < BLOCK ==> scratch[t] >= 0.0
    modifies scratch
    ensures m == AMax(old(scratch[..]))
  {
    ghost var s := scratch[..];
    ghost var e := 5;
    ghost var w := BLOCK;
    var stride := 32;
    assert s[..BLOCK] == s;
    while stride > 0
      invariant -1 <= e <= 5 && stride == (if e < 0 then 0 else Pow2(e)) && w == (if e < 0 then 1 else 2 * Pow2(e))
      invariant w <= BLOCK && forall t :: 0 <= t < BLOCK ==> scratch[t] >= 0.0
      invariant AMax(scratch[..w]) == AMax(s)
      decreases stride
    {
      ghost var cur := scratch[..];
      FoldRound(scratch, stride);
      FoldKeepsMaximum(cur, scratch[..], stride);
      w := stride;
      stride := stride / 2;
      e := e - 1;
    }
    m := scratch[0];
    AMaxUnique(scratch[..1], scratch[0]);
  }

  /** Clamping before the rounding changes nothing: the scale already bounds the block. */
  lemma ClampIdle(x: real, s: real)
    requires s > 0.0 && Abs(x) <= 448.0 * s
    ensures -448.0 <= x / s <= 448.0
  {
    AbsDiv(x, s);
    DivAtMost(Abs(x), s, 448.0);
  }

  lemma DivAtMost(a: real, b: real, c: real)
    requires b > 0.0 && a <= c * b
    ensures a / b <= c
  {
  }

  function Clamp(x: real, lo: real, hi: real): real {
    if x < lo then lo else if x > hi then hi else x
  }

  /** Each thread loads one magnitude; threads past the end load zero. */
  method LoadMagnitudes(kv: array<real>, scratch: array<real>, off: nat, nNope: nat)
    requires off < nNope <= kv.Length && scratch.Length == BLOCK && scratch != kv
    modifies scratch
    ensures forall t {:trigger scratch[t]} :: 0 <= t < BLOCK ==>
              scratch[t] == if off + t < nNope then Abs(kv[off + t]) else 0.0
  {
    for tid := 0 to BLOCK
      invariant forall t {:trigger scratch[t]} :: 0 <= t < tid ==>
        scratch[t] == if off + t < nNope then Abs(kv[off + t]) else 0.0
    {
      scratch[tid] := if off + tid < nNope then Abs(kv[off + tid]) else 0.0;
    }
  }

  // The kernel's code is verified for a rounding function `f` known only to agree with E4M3FN.

  predicate SameAt(f: real -> real, x: real) { f(x) == ToE4m3(x) }

  ghost predicate IsE4m3(f: real -> real) {
    forall x :: SameAt(f, x)
  }

  /** One thread's value: divide by the scale, clamp, round, multiply back. */
  method RoundCell(x: real, scale: real, ghost f: real -> real) returns (r: real)
    requires IsE4m3(f) && scale > 0.0 && Abs(x) <= 448.0 * scale
    ensures r == QuantizedAt(f, x, scale)
  {
    ClampIdle(x, scale);
    var y := x / scale;
    var q := Dequant(Clamp(y, -448.0, 448.0));
    assert SameAt(f, y);
    QuantizedIs(f, x, scale, q);
    r := q * scale;
  }

  lemma QuantizedIs(f: real -> real, x: real, s: real, q: real)
    requires s > 0.0 && q == f(x / s)
    ensures QuantizedAt(f, x, s) == q * s
  {
  }

  /** Each thread rounds its own cell. */
  method RoundCells(kv: array<real>, off: nat, end: nat, scale: real, ghost f: real -> real)
    requires IsE4m3(f) && off < end <= kv.Length && end - off <= BLOCK && scale > 0.0
    requires forall i :: off <= i < end ==> Abs(kv[i]) <= 448.0 * scale
    modifies kv
    ensures forall i :: 0 <= i < kv.Length ==>
      kv[i] == if off <= i < end then QuantizedAt(f, old(kv[i]), scale) else old(kv[i])
  {
    for tid := 0 to BLOCK
      invariant forall i :: 0 <= i < kv.Length ==>
        kv[i] == if off <= i < end && i - off < tid then QuantizedAt(f, old(kv[i]), scale) else old(kv[i])
    {
      if off + tid < end {
        var r := RoundCell(kv[off + tid], scale, f);
        kv[off + tid] := r;
      }
    }
  }

  /** The scale of a block, from the greatest magnitude the group finds in it. */
  method ScaleOfBlock(kv: array<real>, scratch: array<real>, off: nat, nNope: nat, end: nat) returns (scale: real)
    requires off < nNope <= kv.Length && scratch.Length == BLOCK && scratch != kv
    requires end == if nNope - off < BLOCK then nNope else off + BLOCK
    modifies scratch
    ensures scale == BlockScale(kv[off..end])
  {
    LoadMagnitudes(kv, scratch, off, nNope);
    SameMaximum(kv[off..end], scratch[..]);
    var top := TreeMax(scratch);
    scale := Scale(Max(top, MIN_AMAX));
  }

  /** The cells of a block rounded at the block's own scale. */
  method RoundBlock(kv: array<real>, off: nat, end: nat, scale: real, ghost f: real -> real)
    requires IsE4m3(f) && off < end <= kv.Length && end - off <= BLOCK && scale == BlockScale(kv[off..end])
    modifies kv
    ensures kv[..] == old(kv[..off]) + QuantBlock(f, old(kv[off..end])) + old(kv[end..])
  {
    ghost var before := kv[..];
    assert before[off..end] == kv[off..end];
    BlockBounded(before, off, end, scale);
    RoundCells(kv, off, end, scale, f);
    BlockRounded(f, before, kv[..], off, end, scale);
  }

  /** One block of the store: the cells from `off` on, at most 64 of them. */
  method StoreBlock(kv: array<real>, scratch: array<real>, off: nat, nNope: nat, ghost f: real -> real)
    requires IsE4m3(f) && off < nNope <= kv.Length && scratch.Length == BLOCK && scratch != kv
    modifies kv, scratch
    ensures var end := if nNope - off < BLOCK then nNope else off + BLOCK;
            kv[..] == old(kv[..off]) + QuantBlock(f, old(kv[off..end])) + old(kv[end..])
  {
    var end := if nNope - off < BLOCK then nNope else off + BLOCK;
    var scale := ScaleOfBlock(kv, scratch, off, nNope, end);
    RoundBlock(kv, off, end, scale, f);
  }

  lemma BlockBounded(x: seq<real>, off: nat, end: nat, scale: real)
    requires off < end <= |x| && scale == BlockScale(x[off..end])
    ensures forall i :: off <= i < end ==> Abs(x[i]) <= 448.0 * scale
  {
    var v := x[off..end];
    forall i | off <= i < end
      ensures Abs(x[i]) <= 448.0 * scale
    {
      assert Abs(v[i - off]) <= AMax(v);
    }
  }

  lemma BlockRounded(f: real -> real, x: seq<real>, y: seq<real>, off: nat, end: nat, scale: real)
    requires off < end <= |x| == |y| && scale == BlockScale(x[off..end])
    requires forall i :: 0 <= i < |x| ==> y[i] == if off <= i < end then QuantizedAt(f, x[i], scale) else x[i]
    ensures y == x[..off] + QuantBlock(f, x[off..end]) + x[end..]
  {
    var v, q := x[off..end], QuantBlock(f, x[off..end]);
    forall i | off <= i < end
      ensures y[i] == q[i - off]
    {
      assert v[i - off] == x[i];
    }
  }

  /** Magnitudes padded with zeros have the block's maximum. */
  lemma SameMaximum(v: seq<real>, padded: seq<real>)
    requires |v| <= |padded| && forall t :: 0 <= t < |padded| ==> padded[t] == if t < |v| then Abs(v[t]) else 0.0
    ensures AMax(padded) == AMax(v)
  {
    var m := AMax(v);
    if v != [] {
      var i :| 0 <= i < |v| && Abs(v[i]) == m;
      assert Abs(padded[i]) == m;
    }
    AMaxUnique(padded, m);
  }

  lemma BlockOfRow(f: real -> real, x: seq<real>, off: nat, n: nat)
    requires off < n <= |x|
    ensures var end := if n - off < BLOCK then n else off + BLOCK;
            QuantRow(f, x[off..n]) == QuantBlock(f, x[off..end]) + QuantRow(f, x[end..n])
  {
    var end := if n - off < BLOCK then n else off + BLOCK;
    var y := x[off..n];
    if n - off > BLOCK {
      assert y[..BLOCK] == x[off..end] && y[BLOCK..] == x[end..n];
    } else {
      assert x[end..n] == [] && x[off..end] == y;
    }
  }

  /** After a block is stored, the row is still the cells done followed by the quantised rest. */
  lemma BlockStored(f: real -> real, whole: seq<real>, before: seq<real>, cur: seq<real>, next: seq<real>, off: nat, n: nat)
    requires off < n <= |before| == |cur| && cur[off..] == before[off..]
    requires whole == cur[..off] + QuantRow(f, before[off..n])
    requires var end := if n - off < BLOCK then n else off + BLOCK;
             next == cur[..off] + QuantBlock(f, cur[off..end]) + cur[end..]
    ensures var end := if n - off < BLOCK then n else off + BLOCK;
            next[end..] == before[end..] && whole == next[..end] + QuantRow(f, before[end..n])
  {
    var end := if n - off < BLOCK then n else off + BLOCK;
    BlockOfRow(f, before, off, n);
    SamePart(before, cur, off, end);
    PartReplaced(whole, cur, next, off, end, QuantBlock(f, before[off..end]), QuantRow(f, before[end..n]));
  }

  lemma SamePart(before: seq<real>, cur: seq<real>, off: nat, end: nat)
    requires off <= end <= |before| == |cur| && cur[off..] == before[off..]
    ensures cur[off..end] == before[off..end] && cur[end..] == before[end..]
  {
    assert cur[off..end] == cur[off..][..end - off] && cur[end..] == cur[off..][end - off..];
  }

  lemma PartReplaced(whole: seq<real>, cur: seq<real>, next: seq<real>, off: nat, end: nat, block: seq<real>, rest: seq<real>)
    requires off <= end <= |cur| && |block| == end - off
    requires whole == cur[..off] + (block + rest) && next == cur[..off] + block + cur[end..]
    ensures |next| == |cur| && next[end..] == cur[end..] && whole == next[..end] + rest
  {
    assert next[..end] == cur[..off] + block;
  }

  /** The loop over the blocks of the non-rotary part. */
  method StoreBlocks(kv: array<real>, nNope: nat, ghost f: real -> real)
    requires IsE4m3(f) && nNope <= kv.Length
    modifies kv
    ensures kv[..] == QuantRow(f, old(kv[..nNope])) + old(kv[nNope..])
  {
    var scratch := new real[BLOCK](_ => 0.0);
    ghost var before := kv[..];
    ghost var whole := QuantRow(f, before[..nNope]);
    ghost var done := 0;
    assert before[0..nNope] == before[..nNope] && kv[..0] + whole == whole;
    var off := 0;
    while off < nNope
      invariant done == (if off < nNope then off else nNope)
      invariant kv[done..] == before[done..] && whole == kv[..done] + QuantRow(f, before[done..nNope])
    {
      ghost var cur := kv[..];
      StoreBlock(kv, scratch, off, nNope, f);
      BlockStored(f, whole, before, cur, kv[..], off, nNope);
      off := off + BLOCK;
      done := if off < nNope then off else nNope;
    }
    assert before[nNope..nNope] == [] && QuantRow(f, []) == [];
    assert kv[..] == kv[..nNope] + kv[nNope..];
  }

  lemma ProductNat(a: nat, b: nat)
    ensures a * b >= 0
  {
  }

  /** Row `base..` of the raw cache holds the key/value row in half precision; the rest is as it was. */
  ghost predicate RawStored(was: seq<real>, raw: seq<real>, kv: seq<real>, base: int, half: real -> real) {
    |raw| == |was|
    && forall j :: 0 <= j < |raw| ==> raw[j] == if base <= j < base + |kv| then half(kv[j - base]) else was[j]
  }

  /** `kernel_dsv4_kv_fp8_store_f32`; `half` is the rounding to 16 bits of the raw cache. */
  method KvFp8Store(kv: array<real>, raw: array<real>, headDim: int, nRot: int, rawRow: nat, half: real -> real,
                    ghost f: real -> real)
    requires IsE4m3(f) && kv != raw && kv.Length == (if headDim < 0 then 0 else headDim)
    requires headDim > 0 ==> rawRow * headDim + headDim <= raw.Length
    modifies kv, raw
    ensures headDim <= 0 || nRot < 0 || headDim - nRot < 0 ==> kv[..] == old(kv[..]) && raw[..] == old(raw[..])
    ensures headDim > 0 && 0 <= nRot <= headDim ==>
              && kv[..] == QuantRow(f, old(kv[..headDim - nRot])) + old(kv[headDim - nRot..])
              && RawStored(old(raw[..]), raw[..], kv[..], rawRow * headDim, half)
  {
    var nNope := headDim - nRot;
    if headDim <= 0 || nRot < 0 || nNope < 0 {
      return;
    }
    ProductNat(rawRow, headDim);
    StoreBlocks(kv, nNope, f);
    CopyRaw(kv, raw, rawRow * headDim, half);
  }

  /** The tail of the kernel and its raw stores: the whole row, rounded to half precision. */
  method CopyRaw(kv: array<real>, raw: array<real>, base: nat, half: real -> real)
    requires kv != raw && base + kv.Length <= raw.Length
    modifies raw
    ensures RawStored(old(raw[..]), raw[..], kv[..], base, half)
  {
    for i := 0 to kv.Length
      invariant forall j :: 0 <= j < raw.Length ==> raw[j] == if base <= j < base + i then half(kv[j - base]) else old(raw[j])
    {
      raw[base + i] := half(kv[i]);
    }
  }
}
