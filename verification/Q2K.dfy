/** The fused dot product of a two-bit weight row with quantised activations. */
module Q2K {
  import opened Wrappers
  import opened Utf8
  import opened Q8K
  import opened Reals

  const BLOCK_BYTES: nat := 84

  /** The bits of a half-precision float as a number; its table is left open. */
  type Half = (byte, byte) -> real

  // ---------------------------------------------------------------- what the bytes mean

  predicate IsBlock(b: seq<byte>) { |b| == BLOCK_BYTES }

  /** `>> shift` for the four shifts that occur. */
  function ShiftRight(x: byte, shift: nat): int {
    if shift == 0 then x else if shift == 2 then x / 4 else if shift == 4 then x / 16 else x / 64
  }

  function Low2(x: int): int { x % 4 }

  /** The two-bit code of weight `e`: four weights to a byte, 32 bytes to 128 weights. */
  function WeightCode(b: seq<byte>, e: nat): (q: int)
    requires IsBlock(b) && e < QK_K
    ensures 0 <= q <= 3
  {
    Low2(ShiftRight(b[16 + 32 * (e / 128) + e % 32], 2 * (e % 128 / 32)))
  }

  /** The group's scale is the low half of its byte, the group's minimum the high half. */
  function GroupScale(b: seq<byte>, g: nat): (s: int)
    requires IsBlock(b) && g < GROUPS
    ensures 0 <= s <= 15
  {
    b[g] % 16
  }

  function GroupMin(b: seq<byte>, g: nat): (m: int)
    requires IsBlock(b) && g < GROUPS
    ensures 0 <= m <= 15
  {
    b[g] / 16
  }

  /** One weight, dequantised: scale times code, less the minimum. */
  function Dequant(d: real, dmin: real, scale: int, code: int, min: int): real {
    d * (scale as real * code as real) - dmin * min as real
  }

  function Weight(half: Half, b: seq<byte>, e: nat): real
    requires IsBlock(b) && e < QK_K
  {
    Dequant(half(b[80], b[81]), half(b[82], b[83]), GroupScale(b, e / 16), WeightCode(b, e), GroupMin(b, e / 16))
  }

  /** The plain dot product of the first `n` weights of a block with the dequantised activations. */
  function PlainDot(half: Half, b: seq<byte>, x: Block, n: nat): real
    requires IsBlock(b) && |x.qs| == QK_K && n <= QK_K
  {
    if n == 0 then 0.0
    else PlainDot(half, b, x, n - 1) + Times(Weight(half, b, n - 1), Times(x.d, x.qs[n - 1] as real))
  }

  function BlockAt(row: seq<byte>, t: nat): seq<byte>
    requires BLOCK_BYTES * t + BLOCK_BYTES <= |row|
  {
    row[BLOCK_BYTES * t..BLOCK_BYTES * t + BLOCK_BYTES]
  }

  ghost predicate AllValid(input: seq<Block>) {
    forall t :: 0 <= t < |input| ==> Valid(input[t])
  }

  /** Dequantise every weight of the row and every activation, and add up the products. */
  ghost function PlainRowDot(half: Half, row: seq<byte>, input: seq<Block>, n: nat): real
    requires AllValid(input) && n <= |input| && BLOCK_BYTES * n <= |row|
  {
    if n == 0 then 0.0
    else PlainRowDot(half, row, input, n - 1) + PlainDot(half, BlockAt(row, n - 1), input[n - 1], QK_K)
  }

  // ---------------------------------------------------------------- the fused form on integers

  /** Codes against codes within group `g`. */
  function CodeDot(b: seq<byte>, qs: seq<int>, g: nat, n: nat): int
    requires IsBlock(b) && |qs| == QK_K && g < GROUPS && n <= 16
  {
    if n == 0 then 0 else CodeDot(b, qs, g, n - 1) + WeightCode(b, 16 * g + n - 1) * qs[16 * g + n - 1]
  }

  function ScaledSum(b: seq<byte>, qs: seq<int>, n: nat): int
    requires IsBlock(b) && |qs| == QK_K && n <= GROUPS
  {
    if n == 0 then 0 else ScaledSum(b, qs, n - 1) + GroupScale(b, n - 1) * CodeDot(b, qs, n - 1, 16)
  }

  function MinSum(b: seq<byte>, qs: seq<int>, n: nat): int
    requires IsBlock(b) && |qs| == QK_K && n <= GROUPS
  {
    if n == 0 then 0 else MinSum(b, qs, n - 1) + Sum(qs, 16 * (n - 1), 16) * GroupMin(b, n - 1)
  }

  /** What a block or group adds: a scaled sum of codes less a scaled sum of minimums. */
  function Fused(xd: real, d: real, dmin: real, codes: int, mins: int): real {
    xd * d * codes as real - xd * dmin * mins as real
  }

  /** One more weight of a group. */
  lemma FusedWeight(xd: real, d: real, dmin: real, s: int, m: int, codes: int, sum: int, q: int, v: int, codes': int, sum': int)
    requires codes' == codes + q * v && sum' == sum + v
    ensures Fused(xd, d, dmin, s * codes', sum' * m)
         == Fused(xd, d, dmin, s * codes, sum * m) + Times(Dequant(d, dmin, s, q, m), Times(xd, v as real))
  {
    var a, c, w, t: real := s as real, codes as real, q as real, v as real;
    var f, g, mr, sr := xd * d, xd * dmin, m as real, sum as real;
    assert s * codes' == s * codes + s * (q * v) && sum' * m == sum * m + v * m;
    IntProduct(s, q, v);
    assert (v * m) as real == t * mr;
    FusedSplits(xd, d, dmin, s * codes, sum * m, s * (q * v), v * m);
    assert f * (a * w * t) == (d * (a * w)) * (xd * t);
    assert g * (t * mr) == (dmin * mr) * (xd * t);
    Distributes(d * (a * w), dmin * mr, xd * t);
  }

  lemma FusedNothing(xd: real, d: real, dmin: real, s: int, m: int, codes: int, sum: int)
    requires codes == 0 && sum == 0
    ensures Fused(xd, d, dmin, s * codes, sum * m) == 0.0
  {
    assert s * codes == 0 && sum * m == 0;
  }

  lemma Distributes(a: real, b: real, c: real)
    ensures (a - b) * c == a * c - b * c
  {
  }

  lemma IntProduct(a: int, b: int, c: int)
    ensures (a * (b * c)) as real == a as real * b as real * c as real
  {
    assert (a * (b * c)) as real == a as real * (b * c) as real;
    assert (b * c) as real == b as real * c as real;
  }

  /** Sums of codes and minimums may be split. */
  lemma FusedSplits(xd: real, d: real, dmin: real, c1: int, m1: int, c2: int, m2: int)
    ensures Fused(xd, d, dmin, c1 + c2, m1 + m2) == Fused(xd, d, dmin, c1, m1) + Fused(xd, d, dmin, c2, m2)
  {
    assert (c1 + c2) as real == c1 as real + c2 as real && (m1 + m2) as real == m1 as real + m2 as real;
  }

  /** Within a group the scale and the minimum come out of the sum. */
  lemma {:induction false} GroupFactors(half: Half, b: seq<byte>, x: Block, g: nat, n: nat, d: real, dmin: real, s: int, m: int)
    requires IsBlock(b) && |x.qs| == QK_K && g < GROUPS && n <= 16
    requires d == half(b[80], b[81]) && dmin == half(b[82], b[83]) && s == GroupScale(b, g) && m == GroupMin(b, g)
    ensures PlainDot(half, b, x, 16 * g + n)
         == PlainDot(half, b, x, 16 * g) + Fused(x.d, d, dmin, s * CodeDot(b, x.qs, g, n), Sum(x.qs, 16 * g, n) * m)
  {
    if n == 0 {
      FusedNothing(x.d, d, dmin, s, m, CodeDot(b, x.qs, g, 0), Sum(x.qs, 16 * g, 0));
    } else {
      var e := 16 * g + n - 1;
      GroupFactors(half, b, x, g, n - 1, d, dmin, s, m);
      WeightOfGroup(half, b, e, g, d, dmin, s, m);
      CodeDotStep(b, x.qs, g, n);
      FusedWeight(x.d, d, dmin, s, m, CodeDot(b, x.qs, g, n - 1), Sum(x.qs, 16 * g, n - 1), WeightCode(b, e), x.qs[e],
                  CodeDot(b, x.qs, g, n), Sum(x.qs, 16 * g, n));
    }
  }

  lemma CodeDotStep(b: seq<byte>, qs: seq<int>, g: nat, n: nat)
    requires IsBlock(b) && |qs| == QK_K && g < GROUPS && 0 < n <= 16
    ensures CodeDot(b, qs, g, n) == CodeDot(b, qs, g, n - 1) + WeightCode(b, 16 * g + n - 1) * qs[16 * g + n - 1]
  {
  }

  lemma WeightOfGroup(half: Half, b: seq<byte>, e: nat, g: nat, d: real, dmin: real, s: int, m: int)
    requires IsBlock(b) && g < GROUPS && 16 * g <= e < 16 * g + 16
    requires d == half(b[80], b[81]) && dmin == half(b[82], b[83]) && s == GroupScale(b, g) && m == GroupMin(b, g)
    ensures Weight(half, b, e) == Dequant(d, dmin, s, WeightCode(b, e), m)
  {
    assert e / 16 == g;
  }

  /** The fused form of a block is its plain dot product. */
  lemma {:induction false} BlockFactors(half: Half, b: seq<byte>, x: Block, n: nat, d: real, dmin: real)
    requires IsBlock(b) && |x.qs| == QK_K && n <= GROUPS && d == half(b[80], b[81]) && dmin == half(b[82], b[83])
    ensures PlainDot(half, b, x, 16 * n) == Fused(x.d, d, dmin, ScaledSum(b, x.qs, n), MinSum(b, x.qs, n))
  {
    if n == 0 {
    } else {
      var g := n - 1;
      var s, m, c, t := GroupScale(b, g), GroupMin(b, g), CodeDot(b, x.qs, g, 16), Sum(x.qs, 16 * g, 16);
      BlockFactors(half, b, x, g, d, dmin);
      GroupFactors(half, b, x, g, 16, d, dmin, s, m);
      FusedSplits(x.d, d, dmin, ScaledSum(b, x.qs, g), MinSum(b, x.qs, g), s * c, t * m);
    }
  }

  // ---------------------------------------------------------------- sizes of the accumulators

  lemma {:induction false} CodeDotInRange(b: seq<byte>, qs: seq<int>, g: nat, n: nat)
    requires IsBlock(b) && Codes(qs) && g < GROUPS && n <= 16
    ensures -384 * n <= CodeDot(b, qs, g, n) <= 384 * n
  {
    if n == 0 {
    } else {
      CodeDotInRange(b, qs, g, n - 1);
      SmallCode(WeightCode(b, 16 * g + n - 1), qs[16 * g + n - 1]);
    }
  }

  lemma SmallCode(q: int, v: int)
    requires 0 <= q <= 3 && -128 <= v <= 127
    ensures -384 <= q * v <= 384
  {
  }

  lemma SmallProduct(a: int, b: int, m: int)
    requires 0 <= a <= 15 && 0 <= m && -m <= b <= m
    ensures -15 * m <= a * b <= 15 * m
  {
    assert a * b <= a * m && a * m <= 15 * m;
    assert a * b >= a * -m && a * -m >= 15 * -m;
  }

  lemma {:induction false} ScaledSumInRange(b: seq<byte>, qs: seq<int>, n: nat)
    requires IsBlock(b) && Codes(qs) && n <= GROUPS
    ensures -92160 * n <= ScaledSum(b, qs, n) <= 92160 * n
  {
    if n == 0 {
    } else {
      ScaledSumInRange(b, qs, n - 1);
      CodeDotInRange(b, qs, n - 1, 16);
      SmallProduct(GroupScale(b, n - 1), CodeDot(b, qs, n - 1, 16), 6144);
    }
  }

  lemma {:induction false} MinSumInRange(b: seq<byte>, qs: seq<int>, n: nat)
    requires IsBlock(b) && Codes(qs) && n <= GROUPS
    ensures -30720 * n <= MinSum(b, qs, n) <= 30720 * n
  {
    if n == 0 {
    } else {
      MinSumInRange(b, qs, n - 1);
      SumInRange(qs, 16 * (n - 1), 16);
      SmallProduct(GroupMin(b, n - 1), Sum(qs, 16 * (n - 1), 16), 2048);
    }
  }

  // ---------------------------------------------------------------- the loops

  /** Group `8k + 2j + h` is read from half `h` of chunk `k`, shifted by `2j`. */
  ghost predicate Placed(g: nat, k: nat, j: nat, h: nat) {
    g == 8 * k + 2 * j + h && k < 2 && j < 4 && h < 2
  }

  /** `dot_q2_16`: sixteen weight bytes at one shift against sixteen codes, in 32 bits. */
  method Dot16(q2: seq<byte>, q8: seq<int>, shift: nat,
               ghost b: seq<byte>, ghost qs: seq<int>, ghost g: nat, ghost k: nat, ghost j: nat, ghost h: nat)
    returns (sum: i32)
    requires |q2| == 16 && |q8| == 16 && IsBlock(b) && Codes(qs) && g < GROUPS && Placed(g, k, j, h) && shift == 2 * j
    requires q2 == b[16 + 32 * k + 16 * h..32 + 32 * k + 16 * h] && q8 == qs[16 * g..16 * g + 16]
    ensures sum == CodeDot(b, qs, g, 16)
  {
    sum := 0;
    for i := 0 to 16
      invariant sum == CodeDot(b, qs, g, i)
    {
      CodeAt(b, g, k, j, h, i);
      CodeDotInRange(b, qs, g, i + 1);
      sum := sum + Low2(ShiftRight(q2[i], shift)) * q8[i];
    }
  }

  /** Where the code of weight `16 * g + i` stands. */
  lemma CodeAt(b: seq<byte>, g: nat, k: nat, j: nat, h: nat, i: nat)
    requires IsBlock(b) && g < GROUPS && Placed(g, k, j, h) && i < 16
    ensures WeightCode(b, 16 * g + i) == Low2(ShiftRight(b[16 + 32 * k + 16 * h + i], 2 * j))
  {
    var e := 16 * g + i;
    assert e / 128 == k && e % 128 / 32 == j && e % 32 == 16 * h + i;
  }

  /** The sum of the minimums, from the cached group sums. */
  method MinTotal(b: seq<byte>, x: Block) returns (summs: i32)
    requires IsBlock(b) && Valid(x)
    ensures summs == MinSum(b, x.qs, GROUPS)
  {
    summs := 0;
    for j := 0 to 16
      invariant summs == MinSum(b, x.qs, j)
    {
      MinSumInRange(b, x.qs, j + 1);
      summs := summs + x.bsums[j] * (b[j] / 16);
    }
  }

  /** One group of sixteen weights added to the running sum. */
  method AddGroup(b: seq<byte>, x: Block, is_: nat, chunk: seq<byte>, q8Off: nat, shift: nat, before: i32,
                  ghost k: nat, ghost j: nat, ghost h: nat)
    returns (isum: i32)
    requires IsBlock(b) && Valid(x) && is_ < GROUPS && before == ScaledSum(b, x.qs, is_)
    requires Placed(is_, k, j, h) && shift == 2 * j && q8Off == 16 * is_
    requires chunk == b[16 + 32 * k + 16 * h..32 + 32 * k + 16 * h]
    ensures isum == ScaledSum(b, x.qs, is_ + 1)
  {
    var scale := b[is_] % 16;
    var dot := Dot16(chunk, x.qs[q8Off..q8Off + 16], shift, b, x.qs, is_, k, j, h);
    ScaledSumInRange(b, x.qs, is_ + 1);
    isum := before + scale * dot;
  }

  /** The body of the inner loop: the two groups of one shift. */
  method AddPair(b: seq<byte>, x: Block, start: nat, chunk: seq<byte>, q8Off: nat, shift: nat, before: i32, ghost k: nat, ghost j: nat)
    returns (isum: i32)
    requires IsBlock(b) && Valid(x) && start + 1 < GROUPS && before == ScaledSum(b, x.qs, start)
    requires Placed(start, k, j, 0) && shift == 2 * j && q8Off == 16 * start && chunk == b[16 + 32 * k..48 + 32 * k]
    ensures isum == ScaledSum(b, x.qs, start + 2)
  {
    assert chunk[..16] == b[16 + 32 * k..32 + 32 * k] && chunk[16..32] == b[32 + 32 * k..48 + 32 * k];
    isum := AddGroup(b, x, start, chunk[..16], q8Off, shift, before, k, j, 0);
    isum := AddGroup(b, x, start + 1, chunk[16..32], q8Off + 16, shift, isum, k, j, 1);
  }

  /** The nested loops: two halves of 128 weights, four shifts each, two groups each. */
  method ScaledTotal(b: seq<byte>, x: Block) returns (isum: i32)
    requires IsBlock(b) && Valid(x)
    ensures isum == ScaledSum(b, x.qs, GROUPS)
  {
    isum := 0;
    var is_: nat, q8Off: nat := 0, 0;
    for k := 0 to QK_K / 128
      invariant is_ == 8 * k && q8Off == 128 * k && isum == ScaledSum(b, x.qs, is_)
    {
      var chunk := b[16 + 32 * k..48 + 32 * k];
      var shift: nat := 0;
      for j := 0 to 4
        invariant is_ == 8 * k + 2 * j && q8Off == 16 * is_ && shift == 2 * j
        invariant isum == ScaledSum(b, x.qs, is_)
      {
        isum := AddPair(b, x, is_, chunk, q8Off, shift, isum, k, j);
        is_ := is_ + 2;
        shift := shift + 2;
        q8Off := q8Off + 32;
      }
    }
  }

  /**
   `dot_q2_k_row_from_accessor`, from the row on: it fails when the row is too short, and otherwise
   is the plain dot product of the dequantised row and activations. All integers stay in 32 bits.
   */
  method DotRow(half: Half, row: seq<byte>, input: seq<Block>) returns (o: Option<real>)
    requires AllValid(input)
    ensures o.Some? <==> BLOCK_BYTES * |input| <= |row|
    ensures o.Some? ==> o.value == PlainRowDot(half, row, input, |input|)
  {
    var sum := 0.0;
    for t := 0 to |input|
      invariant BLOCK_BYTES * t <= |row| && sum == PlainRowDot(half, row, input, t)
    {
      if t * BLOCK_BYTES + BLOCK_BYTES > |row| {
        return None;
      }
      var term := DotBlock(half, BlockAt(row, t), input[t]);
      sum := sum + term;
    }
    o := Some(sum);
  }

  method DotBlock(half: Half, b: seq<byte>, x: Block) returns (term: real)
    requires IsBlock(b) && Valid(x)
    ensures term == PlainDot(half, b, x, QK_K)
  {
    var d := half(b[80], b[81]);
    var dmin := half(b[82], b[83]);
    var summs := MinTotal(b, x);
    var isum := ScaledTotal(b, x);
    BlockFactors(half, b, x, GROUPS, d, dmin);
    term := Fused(x.d, d, dmin, isum, summs);
  }

  /** Row `r` of a tensor stored row after row, if it is all there. */
  function RowAt(data: seq<byte>, rowBytes: nat, r: nat): (o: Option<seq<byte>>)
    ensures o.Some? <==> r * rowBytes + rowBytes <= |data|
    ensures o.Some? ==> |o.value| == rowBytes && o.value == data[r * rowBytes..r * rowBytes + rowBytes]
  {
    var start := r * rowBytes;
    if start + rowBytes <= |data| then Some(data[start..start + rowBytes]) else None
  }

  /** The dot product of a quantised tensor row with any row of reals, quantised first. */
  method QuantizeAndDot(half: Half, data: seq<byte>, rowBytes: nat, r: nat, x: seq<real>) returns (o: Option<real>)
    requires |x| > 0 && |x| % QK_K == 0 && rowBytes == |x| / QK_K * BLOCK_BYTES
    ensures o.Some? <==> RowAt(data, rowBytes, r).Some?
    ensures o.Some? ==> exists input: seq<Block> ::
              |input| == |x| / QK_K && (forall t :: 0 <= t < |input| ==> Quantized(input[t], Chunk(x, t)))
              && AllValid(input) && o.value == PlainRowDot(half, RowAt(data, rowBytes, r).value, input, |input|)
  {
    var dst := new Block[|x| / QK_K](_ => Block(0.0, [], []));
    var ok := QuantizeRowInto(dst, x);
    var input := dst[..];
    assert forall t :: 0 <= t < |input| ==> Quantized(input[t], Chunk(x, t));
    var row := RowAt(data, rowBytes, r);
    if row.None? {
      return None;
    }
    o := DotRow(half, row.value, input);
  }
}
