/** Quantising a row of activations to blocks of 256 signed bytes with cached sums of sixteen. */
module Q8K {
  import opened Reals

  const QK_K: nat := 256
  const GROUPS: nat := 16

  type i16 = x: int | -0x8000 <= x < 0x8000
  type i32 = x: int | -0x8000_0000 <= x < 0x8000_0000

  datatype Block = Block(d: real, qs: seq<int>, bsums: seq<int>)

  /** Sum of codes `from..from + n`. */
  function Sum(qs: seq<int>, from: nat, n: nat): int
    requires from + n <= |qs|
  {
    if n == 0 then 0 else Sum(qs, from, n - 1) + qs[from + n - 1]
  }

  ghost predicate Codes(qs: seq<int>) {
    |qs| == QK_K && forall i :: 0 <= i < QK_K ==> -128 <= qs[i] <= 127
  }

  /** What the dot products rely on: codes are bytes, and each cached sum is that of its group. */
  ghost predicate Valid(b: Block) {
    Codes(b.qs) && |b.bsums| == GROUPS && forall g :: 0 <= g < GROUPS ==> b.bsums[g] == Sum(b.qs, 16 * g, 16)
  }

  lemma {:induction false} SumInRange(qs: seq<int>, from: nat, n: nat)
    requires from + n <= |qs| && forall i :: 0 <= i < |qs| ==> -128 <= qs[i] <= 127
    ensures -128 * n <= Sum(qs, from, n) <= 127 * n
  {
    if n == 0 {
    } else {
      SumInRange(qs, from, n - 1);
    }
  }

  /** `f32::round`: to the nearest integer, halves away from zero. */
  function Round(x: real): int {
    if x >= 0.0 then (x + 0.5).Floor else -(0.5 - x).Floor
  }

  lemma RoundIsNear(x: real)
    ensures -0.5 <= Round(x) as real - x <= 0.5
  {
  }

  /** Half-way values go away from zero, so the two signs round alike. */
  lemma TiesGoAway(x: real)
    ensures Round(x) as real - x == 0.5 ==> x > 0.0
    ensures x - Round(x) as real == 0.5 ==> x < 0.0
    ensures Round(-x) == -Round(x)
  {
  }

  function Clamp(x: int, lo: int, hi: int): int {
    if x < lo then lo else if x > hi then hi else x
  }

  // ---------------------------------------------------------------- one block

  /** The first of the values of largest magnitude. */
  ghost predicate IsPeak(chunk: seq<real>, p: nat) {
    p < |chunk|
    && (forall i :: 0 <= i < |chunk| ==> Abs(chunk[i]) <= Abs(chunk[p]))
    && (forall i :: 0 <= i < p ==> Abs(chunk[i]) < Abs(chunk[p]))
  }

  ghost predicate AllZero(chunk: seq<real>) {
    forall i :: 0 <= i < |chunk| ==> chunk[i] == 0.0
  }

  /**
   The block of a chunk: the peak has code -127 and the scale is that of the peak; every other value
   has the nearest code, unclamped.
   */
  ghost predicate Quantized(b: Block, chunk: seq<real>) {
    Valid(b) && |chunk| == QK_K
    && (AllZero(chunk) ==> b.d == 0.0 && forall i :: 0 <= i < QK_K ==> b.qs[i] == 0)
    && (!AllZero(chunk) ==> exists p: nat, iscale: real :: IsPeak(chunk, p) && ScaledBy(b, chunk, chunk[p], iscale))
  }

  /** The nearest code, which needs no clamp. */
  ghost predicate IsCode(q: int, iscale: real, value: real) {
    q == Round(iscale * value) && -127 <= q <= 127
  }

  /** The peak is scaled to -127, and `d` undoes the scaling. */
  ghost predicate ScaledBy(b: Block, chunk: seq<real>, max: real, iscale: real)
    requires |b.qs| == |chunk|
  {
    iscale * max == -127.0 && b.d * iscale == 1.0
    && forall i :: 0 <= i < |chunk| ==> IsCode(b.qs[i], iscale, chunk[i])
  }

  method FindPeak(chunk: seq<real>) returns (max: real, amax: real)
    ensures amax == Abs(max)
    ensures amax == 0.0 ==> AllZero(chunk)
    ensures amax != 0.0 ==> exists p: nat :: IsPeak(chunk, p) && chunk[p] == max
  {
    max, amax := 0.0, 0.0;
    ghost var p: nat := 0;
    for i := 0 to |chunk|
      invariant amax == Abs(max)
      invariant amax == 0.0 ==> forall j :: 0 <= j < i ==> chunk[j] == 0.0
      invariant amax != 0.0 ==> p < i && IsPeak(chunk[..i], p) && chunk[p] == max
    {
      var abs := Abs(chunk[i]);
      ghost var front := chunk[..i];
      assert forall j :: 0 <= j < i ==> front[j] == chunk[j];
      assert chunk[..i + 1] == front + [chunk[i]];
      if abs > amax {
        amax := abs;
        max := chunk[i];
        p := i;
      }
    }
    assert chunk[..|chunk|] == chunk;
  }

  /** The code as computed. */
  function Code(iscale: real, value: real): int {
    Clamp(Round(iscale * value), -128, 127)
  }

  /** No value is scaled past 127, so the clamp changes nothing. */
  lemma ClampIdle(max: real, iscale: real, value: real)
    requires max != 0.0 && iscale * max == -127.0 && Abs(value) <= Abs(max)
    ensures IsCode(Code(iscale, value), iscale, value)
  {
    Product(iscale, max, value);
  }

  lemma Product(q: real, max: real, value: real)
    requires q * max == -127.0 && Abs(value) <= Abs(max)
    ensures -127.0 <= q * value <= 127.0
  {
    if q >= 0.0 {
      assert q * value <= q * Abs(max) && q * -Abs(max) <= q * value;
    } else {
      assert q * Abs(max) <= q * value && q * value <= q * -Abs(max);
    }
  }

  method CodesOf(chunk: seq<real>, iscale: real, ghost max: real) returns (qs: seq<int>)
    requires max != 0.0 && iscale * max == -127.0 && forall i :: 0 <= i < |chunk| ==> Abs(chunk[i]) <= Abs(max)
    ensures |qs| == |chunk| && forall i :: 0 <= i < |qs| ==> IsCode(qs[i], iscale, chunk[i])
  {
    qs := [];
    for i := 0 to |chunk|
      invariant |qs| == i && forall j :: 0 <= j < i ==> IsCode(qs[j], iscale, chunk[j])
    {
      ClampIdle(max, iscale, chunk[i]);
      qs := qs + [Code(iscale, chunk[i])];
    }
  }

  method GroupSum(qs: seq<int>, from: nat) returns (sum: i32)
    requires Codes(qs) && from + 16 <= QK_K
    ensures sum == Sum(qs, from, 16)
  {
    sum := 0;
    for i := 0 to 16
      invariant sum == Sum(qs, from, i)
    {
      SumInRange(qs, from, i);
      sum := sum + qs[from + i];
    }
  }

  method GroupSums(qs: seq<int>) returns (bsums: seq<int>)
    requires Codes(qs)
    ensures |bsums| == GROUPS && forall g :: 0 <= g < GROUPS ==> bsums[g] == Sum(qs, 16 * g, 16)
    ensures forall g :: 0 <= g < GROUPS ==> -0x8000 <= bsums[g] < 0x8000
  {
    bsums := [];
    for g := 0 to GROUPS
      invariant |bsums| == g && forall j :: 0 <= j < g ==> bsums[j] == Sum(qs, 16 * j, 16)
      invariant forall j :: 0 <= j < g ==> -0x8000 <= bsums[j] < 0x8000
    {
      var sum := GroupSum(qs, 16 * g);
      SumInRange(qs, 16 * g, 16);
      var narrow: i16 := sum;
      bsums := bsums + [narrow];
    }
  }

  function Zeros(n: nat): (z: seq<int>)
    ensures |z| == n && forall i :: 0 <= i < n ==> z[i] == 0
  {
    seq(n, _ => 0)
  }

  lemma {:induction false} SumOfZeros(from: nat, n: nat)
    requires from + n <= QK_K
    ensures Sum(Zeros(QK_K), from, n) == 0
  {
    if n == 0 {
    } else {
      SumOfZeros(from, n - 1);
    }
  }

  /** The body of the loop of `quantize_row_q8_k_into`. */
  method QuantizeBlock(chunk: seq<real>) returns (b: Block)
    requires |chunk| == QK_K
    ensures Quantized(b, chunk)
  {
    var max, amax := FindPeak(chunk);
    if amax == 0.0 {
      b := Block(0.0, Zeros(QK_K), Zeros(GROUPS));
      forall g | 0 <= g < GROUPS
        ensures Sum(b.qs, 16 * g, 16) == 0
      {
        SumOfZeros(16 * g, 16);
      }
      return;
    }
    var iscale := -127.0 / max;
    InverseScale(max);
    var qs := CodesOf(chunk, iscale, max);
    var bsums := GroupSums(qs);
    b := Block(1.0 / iscale, qs, bsums);
    ghost var p: nat :| IsPeak(chunk, p) && chunk[p] == max;
    assert ScaledBy(b, chunk, chunk[p], iscale);
    assert !AllZero(chunk) by {
      assert chunk[p] != 0.0;
    }
  }

  lemma InverseScale(max: real)
    requires max != 0.0
    ensures -127.0 / max * max == -127.0 && -127.0 / max != 0.0
    ensures 1.0 / (-127.0 / max) * (-127.0 / max) == 1.0
  {
    var q := -127.0 / max;
    assert q * max == -127.0;
    assert q != 0.0;
  }

  /** Chunk `t` of a row. */
  function Chunk(x: seq<real>, t: nat): seq<real>
    requires QK_K * t + QK_K <= |x|
  {
    x[QK_K * t..QK_K * t + QK_K]
  }

  /** `quantize_row_q8_k_into`: refuses rows that are empty, not of whole blocks, or not of the destination's size. */
  method QuantizeRowInto(dst: array<Block>, x: seq<real>) returns (ok: bool)
    modifies dst
    ensures ok <==> |x| > 0 && |x| % QK_K == 0 && dst.Length == |x| / QK_K
    ensures !ok ==> dst[..] == old(dst[..])
    ensures ok ==> forall t :: 0 <= t < dst.Length ==> Quantized(dst[t], Chunk(x, t))
  {
    if |x| == 0 || |x| % QK_K != 0 || dst.Length != |x| / QK_K {
      return false;
    }
    for t := 0 to dst.Length
      invariant forall j :: 0 <= j < t ==> Quantized(dst[j], Chunk(x, j))
    {
      var b := QuantizeBlock(Chunk(x, t));
      dst[t] := b;
    }
    ok := true;
  }

  /** A code times the scale is within half a scale of the value. */
  ghost predicate Near(d: real, q: int, value: real) {
    Abs(d * q as real - value) <= Abs(d) / 2.0
  }

  lemma QuantizedIsNear(b: Block, chunk: seq<real>, i: nat)
    requires Quantized(b, chunk) && i < QK_K
    ensures Near(b.d, b.qs[i], chunk[i])
  {
    if AllZero(chunk) {
      ZeroIsNear(b.d, b.qs[i], chunk[i]);
    } else {
      var p: nat, iscale: real :| IsPeak(chunk, p) && ScaledBy(b, chunk, chunk[p], iscale);
      CodeIsNear(b.d, iscale, chunk[i], b.qs[i]);
    }
  }

  lemma ZeroIsNear(d: real, q: int, value: real)
    requires d == 0.0 && value == 0.0
    ensures Near(d, q, value)
  {
  }

  lemma CodeIsNear(d: real, iscale: real, value: real, q: int)
    requires d * iscale == 1.0 && IsCode(q, iscale, value)
    ensures Near(d, q, value)
  {
    var y := iscale * value;
    RoundIsNear(y);
    Rescale(d, iscale, value, y, q as real);
  }

  lemma Rescale(d: real, iscale: real, value: real, y: real, r: real)
    requires d * iscale == 1.0 && y == iscale * value && -0.5 <= r - y <= 0.5
    ensures Abs(d * r - value) <= Abs(d) / 2.0
  {
    assert d * y == (d * iscale) * value;
    var e := d * (r - y);
    assert d * r - value == e;
    Scaled(d, r - y);
  }

  lemma Scaled(d: real, t: real)
    requires -0.5 <= t <= 0.5
    ensures Abs(d * t) <= Abs(d) / 2.0
  {
    var a, p := Abs(d), d * t;
    HalfBounds(a, t);
    if d < 0.0 {
      Opposite(d, a, t);
      assert p == -(a * t);
    } else {
      assert p == a * t;
    }
    assert Abs(p) <= a / 2.0;
  }

  lemma Opposite(d: real, a: real, t: real)
    requires d == -a
    ensures d * t == -(a * t)
  {
  }

  lemma HalfBounds(d: real, t: real)
    requires -0.5 <= t <= 0.5 && d >= 0.0
    ensures -(d / 2.0) <= d * t <= d / 2.0
  {
    assert d * t <= d * 0.5 && d * -0.5 <= d * t;
  }
}
