/** The two weight formats byte by byte: what a row dot product adds up, with the numbers of the formats. */
module WeightFormats {
  import opened Reals
  import opened Utf8
  import K = Q8K
  import Two = Q2K
  import Eight = Q80

  type Half = (byte, byte) -> real

  // ---------------------------------------------------------------- Q8_0

  /** Weight `k` of a block of 34 bytes, a half-precision scale before 32 signed bytes, times `x`. */
  ghost predicate EightBitTerm(half: Half, b: seq<byte>, k: nat, x: real, r: real) {
    && |b| == 34 && k < 32
    && var code: int := b[2 + k];
       r == Times(Times(half(b[0], b[1]), (if code < 128 then code else code - 256) as real), x)
  }

  ghost predicate EightBitTerms(half: Half, b: seq<byte>, xs: seq<real>, f: nat -> real) {
    forall k: nat :: k < |xs| ==> EightBitTerm(half, b, k, xs[k], f(k))
  }

  lemma {:induction false} EightBitSum(ws: real, b: seq<byte>, chunk: seq<real>, n: nat, f: nat -> real)
    requires |b| == 34 && n <= |chunk| <= 32
    requires forall k: nat :: k < n ==> f(k) == Times(Times(ws, Eight.W(b, k) as real), chunk[k])
    ensures Times(ws, Eight.ExactDot(b, chunk, n)) == SumTo(n, f)
  {
    if n == 0 {
    } else {
      EightBitSum(ws, b, chunk, n - 1, f);
      OneTermMore(ws, Eight.ExactDot(b, chunk, n - 1), Eight.W(b, n - 1) as real, chunk[n - 1], Eight.ExactDot(b, chunk, n));
    }
  }

  lemma OneTermMore(ws: real, dot: real, w: real, x: real, dot': real)
    requires dot' == dot + w * x
    ensures Times(ws, dot) + Times(Times(ws, w), x) == Times(ws, dot')
  {
    assert ws * (w * x) == ws * w * x;
    assert ws * (dot + w * x) == ws * dot + ws * (w * x);
  }

  lemma EightBitBlock(half: Half, b: seq<byte>, chunk: seq<real>, f: nat -> real)
    requires |b| == 34 && |chunk| <= 32 && EightBitTerms(half, b, chunk, f)
    ensures Eight.ExactTerm(half(b[0], b[1]), b, chunk) == SumTo(|chunk|, f)
  {
    forall k: nat | k < |chunk|
      ensures f(k) == Times(Times(half(b[0], b[1]), Eight.W(b, k) as real), chunk[k])
    {
      assert EightBitTerm(half, b, k, chunk[k], f(k));
    }
    EightBitSum(half(b[0], b[1]), b, chunk, |chunk|, f);
  }

  /** Block `t` of a row and of the activations adds `s`: the sum over its weights of weight times activation. */
  ghost predicate EightBitBlockAdds(half: Half, row: seq<byte>, x: seq<real>, t: nat, f: nat -> real, s: real) {
    && 34 * t + 34 <= |row| && 32 * t < |x|
    && var xs := x[32 * t..if |x| - 32 * t < 32 then |x| else 32 * t + 32];
       EightBitTerms(half, row[34 * t..34 * t + 34], xs, f) && s == SumTo(|xs|, f)
  }

  lemma EightBitAdds(half: Half, row: seq<byte>, x: seq<real>, t: nat, f: nat -> real, s: real)
    requires t < Eight.Blocks(|x|) && EightBitBlockAdds(half, row, x, t, f, s)
    ensures s == EightBitPart(half, row, x, t)
  {
    Eight.TakenFits(|x|, t);
    EightBitBlock(half, Eight.WeightBlock(row, t), Eight.Chunk(x, t), f);
  }

  lemma {:induction false} EightBitTotal(half: Half, row: seq<byte>, x: seq<real>, n: nat, s: nat -> real)
    requires n <= Eight.Blocks(|x|) && Eight.BLOCK_BYTES * n <= |row|
    requires forall t: nat :: t < n ==> s(t) == EightBitPart(half, row, x, t)
    ensures Eight.ExactRow(half, row, x, n) == SumTo(n, s)
  {
    if n == 0 {
    } else {
      EightBitTotal(half, row, x, n - 1, s);
    }
  }

  function EightBitPart(half: Half, row: seq<byte>, x: seq<real>, t: nat): real
    requires t < Eight.Blocks(|x|) && Eight.BLOCK_BYTES * t + Eight.BLOCK_BYTES <= |row|
  {
    var b := Eight.WeightBlock(row, t);
    Eight.ExactTerm(half(b[0], b[1]), b, Eight.Chunk(x, t))
  }

  /** The exact dot product of a row adds up all blocks of 32 activations, the last one perhaps short. */
  lemma EightBitRow(half: Half, row: seq<byte>, x: seq<real>, n: nat, f: nat -> nat -> real, s: nat -> real)
    requires n <= (|x| + 31) / 32 && forall t: nat :: t < n ==> EightBitBlockAdds(half, row, x, t, f(t), s(t))
    requires 34 * n <= |row|
    ensures Eight.ExactRow(half, row, x, n) == SumTo(n, s)
  {
    forall t: nat | t < n
      ensures s(t) == EightBitPart(half, row, x, t)
    {
      EightBitAdds(half, row, x, t, f(t), s(t));
    }
    EightBitTotal(half, row, x, n, s);
  }

  /** The size of a block's codes is the sum of their magnitudes. */
  lemma {:induction false} CodeSizeIs(b: seq<byte>, n: nat, f: nat -> real)
    requires |b| == 34 && n <= 32
    requires forall k: nat :: k < n ==> f(k) == if b[2 + k] < 128 then b[2 + k] as real else 256.0 - b[2 + k] as real
    ensures Eight.CodeSize(b, n) as real == SumTo(n, f)
  {
    if n == 0 {
    } else {
      CodeSizeIs(b, n - 1, f);
    }
  }

  // ---------------------------------------------------------------- Q2_K

  /** Two bits of a byte, counted in pairs from the lowest. */
  function Crumb(x: byte, k: nat): (c: int)
    requires k < 4
  {
    if k == 0 then x % 4 else if k == 1 then x / 4 % 4 else if k == 2 then x / 16 % 4 else x / 64
  }

  /** Four codes packed into a byte come out in their places. */
  lemma CrumbsUnpack(c0: nat, c1: nat, c2: nat, c3: nat, x: byte)
    requires c0 < 4 && c1 < 4 && c2 < 4 && c3 < 4 && x == c0 + 4 * c1 + 16 * c2 + 64 * c3
    ensures Crumb(x, 0) == c0 && Crumb(x, 1) == c1 && Crumb(x, 2) == c2 && Crumb(x, 3) == c3
  {
  }

  /**
   Weight `j` of a block of 84 bytes for 256 weights, times `x`. Sixteen bytes hold a scale (low half) and a
   minimum (high half) for 16 weights each; 64 bytes hold the codes, four to a byte, the lowest two bits for
   the first 32 weights of each 128; two half-precision factors end the block.
   */
  ghost predicate TwoBitTerm(half: Half, b: seq<byte>, j: nat, x: real, r: real) {
    && |b| == 84 && j < 256
    && var group, code := b[j / 16], Crumb(b[16 + 32 * (j / 128) + j % 32], j % 128 / 32);
       r == Times(half(b[80], b[81]) * ((group % 16) as real * code as real) - half(b[82], b[83]) * (group / 16) as real, x)
  }

  ghost predicate TwoBitTerms(half: Half, b: seq<byte>, x: K.Block, f: nat -> real) {
    |x.qs| == 256 && forall j: nat :: j < 256 ==> TwoBitTerm(half, b, j, Times(x.d, x.qs[j] as real), f(j))
  }

  lemma CodeIs(b: seq<byte>, j: nat)
    requires |b| == 84 && j < 256
    ensures Two.WeightCode(b, j) == Crumb(b[16 + 32 * (j / 128) + j % 32], j % 128 / 32)
  {
  }

  lemma TwoBitWeight(half: Half, b: seq<byte>, j: nat, x: real, r: real)
    requires TwoBitTerm(half, b, j, x, r)
    ensures r == Times(Two.Weight(half, b, j), x)
  {
    CodeIs(b, j);
  }

  lemma {:induction false} TwoBitSum(half: Half, b: seq<byte>, x: K.Block, n: nat, f: nat -> real)
    requires |b| == 84 && |x.qs| == 256 && n <= 256
    requires forall j: nat :: j < n ==> f(j) == Times(Two.Weight(half, b, j), Times(x.d, x.qs[j] as real))
    ensures Two.PlainDot(half, b, x, n) == SumTo(n, f)
  {
    if n == 0 {
    } else {
      TwoBitSum(half, b, x, n - 1, f);
    }
  }

  lemma TwoBitBlock(half: Half, b: seq<byte>, x: K.Block, n: nat, f: nat -> real)
    requires |b| == 84 && n == 256 && TwoBitTerms(half, b, x, f)
    ensures Two.PlainDot(half, b, x, n) == SumTo(n, f)
  {
    forall j: nat | j < n
      ensures f(j) == Times(Two.Weight(half, b, j), Times(x.d, x.qs[j] as real))
    {
      TwoBitWeight(half, b, j, Times(x.d, x.qs[j] as real), f(j));
    }
    TwoBitSum(half, b, x, n, f);
  }

  /** Block `t` of a row adds `s`: the sum over its 256 weights of weight times activation. */
  ghost predicate TwoBitBlockAdds(half: Half, row: seq<byte>, x: K.Block, t: nat, f: nat -> real, s: real) {
    84 * t + 84 <= |row| && TwoBitTerms(half, row[84 * t..84 * t + 84], x, f) && s == SumTo(256, f)
  }

  lemma TwoBitAdds(half: Half, row: seq<byte>, x: K.Block, t: nat, f: nat -> real, s: real)
    requires TwoBitBlockAdds(half, row, x, t, f, s)
    ensures |x.qs| == 256 && s == Two.PlainDot(half, Two.BlockAt(row, t), x, K.QK_K)
  {
    TwoBitBlock(half, Two.BlockAt(row, t), x, K.QK_K, f);
  }

  lemma {:induction false} TwoBitTotal(half: Half, row: seq<byte>, input: seq<K.Block>, n: nat, s: nat -> real)
    requires Two.AllValid(input) && n <= |input| && Two.BLOCK_BYTES * n <= |row|
    requires forall t: nat :: t < n ==> s(t) == Two.PlainDot(half, Two.BlockAt(row, t), input[t], K.QK_K)
    ensures Two.PlainRowDot(half, row, input, n) == SumTo(n, s)
  {
    if n == 0 {
    } else {
      TwoBitTotal(half, row, input, n - 1, s);
    }
  }

  /** The plain dot product of a row adds up all its blocks. */
  lemma TwoBitRow(half: Half, row: seq<byte>, input: seq<K.Block>, n: nat, f: nat -> nat -> real, s: nat -> real)
    requires Two.AllValid(input) && n <= |input| && 84 * n <= |row|
    requires forall t: nat :: t < n ==> TwoBitBlockAdds(half, row, input[t], t, f(t), s(t))
    ensures Two.PlainRowDot(half, row, input, n) == SumTo(n, s)
  {
    forall t: nat | t < n
      ensures s(t) == Two.PlainDot(half, Two.BlockAt(row, t), input[t], K.QK_K)
    {
      TwoBitAdds(half, row, input[t], t, f(t), s(t));
    }
    TwoBitTotal(half, row, input, n, s);
  }
}
