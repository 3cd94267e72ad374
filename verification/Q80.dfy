/** Q8_0: activations quantised in blocks of 32, and how far the quantised dot product can be off. */
module Q80 {
  import opened Wrappers
  import opened Utf8
  import opened Q8K
  import opened Reals

  const BLOCK: nat := 32
  const BLOCK_BYTES: nat := 34

  /** Codes and scales of a row, block after block; the last block is padded with zeros. */
  datatype QuantRow = QuantRow(q: seq<int>, scale: seq<real>, blocks: nat, inDim: nat)

  /** The bits of a half-precision float as a number; its table is left open. */
  type Half = (byte, byte) -> real

  function Blocks(n: nat): nat { (n + BLOCK - 1) / BLOCK }

  /** How many entries of block `t` are in the row. */
  function Taken(n: nat, t: nat): (k: nat)
    ensures k <= BLOCK
  {
    var left := if n >= BLOCK * t then n - BLOCK * t else 0;
    if left < BLOCK then left else BLOCK
  }

  lemma TakenFits(n: nat, t: nat)
    requires t < Blocks(n)
    ensures BLOCK * t + Taken(n, t) <= n && Taken(n, t) > 0
  {
  }

  function Chunk(x: seq<real>, t: nat): (c: seq<real>)
    requires t < Blocks(|x|)
    ensures |c| == Taken(|x|, t)
  {
    TakenFits(|x|, t);
    x[BLOCK * t..BLOCK * t + Taken(|x|, t)]
  }

  function CodesAt(q: seq<int>, t: nat): (c: seq<int>)
    requires BLOCK * t + BLOCK <= |q|
    ensures |c| == BLOCK
  {
    q[BLOCK * t..BLOCK * t + BLOCK]
  }

  // ---------------------------------------------------------------- quantising

  /** One block: nearest codes without clamping, and the scale that undoes the scaling of the peak. */
  ghost predicate BlockOf(codes: seq<int>, scale: real, chunk: seq<real>) {
    |codes| == BLOCK && |chunk| <= BLOCK
    && (forall i :: |chunk| <= i < BLOCK ==> codes[i] == 0)
    && (AllZero(chunk) ==> scale == 0.0 && forall i :: 0 <= i < BLOCK ==> codes[i] == 0)
    && (!AllZero(chunk) ==> exists p: nat, iscale: real :: IsPeak(chunk, p) && Scales(codes, scale, chunk, chunk[p], iscale))
  }

  ghost predicate Scales(codes: seq<int>, scale: real, chunk: seq<real>, max: real, iscale: real)
    requires |chunk| <= |codes|
  {
    iscale * max == -127.0 && scale * iscale == 1.0
    && forall i :: 0 <= i < |chunk| ==> IsCode(codes[i], iscale, chunk[i])
  }

  ghost predicate QuantOf(r: QuantRow, x: seq<real>) {
    r.inDim == |x| && r.blocks == Blocks(|x|) && |r.q| == BLOCK * r.blocks && |r.scale| == r.blocks
    && forall t :: 0 <= t < r.blocks ==> BlockOf(CodesAt(r.q, t), r.scale[t], Chunk(x, t))
  }

  /** The body of the loop over the blocks: thirty-two codes and a scale. */
  method QuantizeBlock(chunk: seq<real>) returns (codes: seq<int>, scale: real)
    requires |chunk| <= BLOCK
    ensures BlockOf(codes, scale, chunk)
  {
    var vmax, amax := FindPeak(chunk);
    if amax == 0.0 {
      return Q8K.Zeros(BLOCK), 0.0;
    }
    var iscale := -127.0 / vmax;
    InverseScale(vmax);
    scale := 1.0 / iscale;
    var found := CodesOf(chunk, iscale, vmax);
    codes := found + Q8K.Zeros(BLOCK - |chunk|);
    ghost var p: nat :| IsPeak(chunk, p) && chunk[p] == vmax;
    assert chunk[p] != 0.0;
    assert Scales(codes, scale, chunk, chunk[p], iscale);
  }

  ghost predicate QuantizedTo(q: seq<int>, scale: seq<real>, x: seq<real>, t: nat) {
    t <= Blocks(|x|) && |q| == BLOCK * t && |scale| == t
    && forall j :: 0 <= j < t ==> BlockOf(CodesAt(q, j), scale[j], Chunk(x, j))
  }

  lemma OneBlockMore(q: seq<int>, scale: seq<real>, x: seq<real>, t: nat, codes: seq<int>, s: real)
    requires QuantizedTo(q, scale, x, t) && t < Blocks(|x|) && BlockOf(codes, s, Chunk(x, t))
    ensures QuantizedTo(q + codes, scale + [s], x, t + 1)
  {
    forall j | 0 <= j < t + 1
      ensures BlockOf(CodesAt(q + codes, j), (scale + [s])[j], Chunk(x, j))
    {
      assert CodesAt(q + codes, j) == if j < t then CodesAt(q, j) else codes;
    }
  }

  /** `quantize_activation_q8_0` */
  method Quantize(x: seq<real>) returns (o: Option<QuantRow>)
    ensures o.Some? <==> x != []
    ensures o.Some? ==> QuantOf(o.value, x)
  {
    if x == [] {
      return None;
    }
    var blocks := Blocks(|x|);
    var q, scale := [], [];
    for t := 0 to blocks
      invariant QuantizedTo(q, scale, x, t)
    {
      var codes, s := QuantizeBlock(Chunk(x, t));
      OneBlockMore(q, scale, x, t, codes, s);
      q := q + codes;
      scale := scale + [s];
    }
    o := Some(QuantRow(q, scale, blocks, |x|));
  }

  // ---------------------------------------------------------------- dot products

  function SignedByte(b: byte): int { if b < 128 then b else b - 256 }

  function WeightBlock(row: seq<byte>, t: nat): (b: seq<byte>)
    requires BLOCK_BYTES * t + BLOCK_BYTES <= |row|
    ensures |b| == BLOCK_BYTES
  {
    row[BLOCK_BYTES * t..BLOCK_BYTES * t + BLOCK_BYTES]
  }

  function W(b: seq<byte>, i: nat): (w: int)
    requires |b| == BLOCK_BYTES && i < BLOCK
    ensures -128 <= w <= 127
  {
    SignedByte(b[2 + i])
  }

  /** Weight codes against activation codes. */
  function CodeDot(b: seq<byte>, codes: seq<int>, n: nat): int
    requires |b| == BLOCK_BYTES && |codes| == BLOCK && n <= BLOCK
  {
    if n == 0 then 0 else CodeDot(b, codes, n - 1) + W(b, n - 1) * codes[n - 1]
  }

  /** Weight codes against the activations themselves. */
  function ExactDot(b: seq<byte>, chunk: seq<real>, n: nat): real
    requires |b| == BLOCK_BYTES && n <= |chunk| <= BLOCK
  {
    if n == 0 then 0.0 else ExactDot(b, chunk, n - 1) + W(b, n - 1) as real * chunk[n - 1]
  }

  function Size(w: int): int { if w < 0 then -w else w }

  /** The sum of the magnitudes of the weight codes. */
  function CodeSize(b: seq<byte>, n: nat): (s: int)
    requires |b| == BLOCK_BYTES && n <= BLOCK
    ensures s >= 0
  {
    if n == 0 then 0 else CodeSize(b, n - 1) + Size(W(b, n - 1))
  }

  function MaxAbs(chunk: seq<real>): (m: real)
    ensures m >= 0.0
  {
    if chunk == [] then 0.0
    else
      var rest := MaxAbs(chunk[..|chunk| - 1]);
      if Abs(chunk[|chunk| - 1]) > rest then Abs(chunk[|chunk| - 1]) else rest
  }

  /** The bound for one block: weight scale times peak over 254 times the size of the codes. */
  function BlockBound(ws: real, b: seq<byte>, chunk: seq<real>): real
    requires |b| == BLOCK_BYTES && |chunk| <= BLOCK
  {
    Times(Abs(ws), Times(MaxAbs(chunk) / 254.0, CodeSize(b, |chunk|) as real))
  }

  function ExactTerm(ws: real, b: seq<byte>, chunk: seq<real>): real
    requires |b| == BLOCK_BYTES && |chunk| <= BLOCK
  {
    Times(ws, ExactDot(b, chunk, |chunk|))
  }

  /** The row dot product with unquantised activations, block by block as stored. */
  function ExactRow(half: Half, row: seq<byte>, x: seq<real>, n: nat): real
    requires n <= Blocks(|x|) && BLOCK_BYTES * n <= |row|
  {
    if n == 0 then 0.0
    else
      var b := WeightBlock(row, n - 1);
      ExactRow(half, row, x, n - 1) + ExactTerm(half(b[0], b[1]), b, Chunk(x, n - 1))
  }

  /** The sum of the bounds over the first `n` blocks. */
  function ErrorBound(half: Half, row: seq<byte>, x: seq<real>, n: nat): (e: real)
    requires n <= Blocks(|x|) && BLOCK_BYTES * n <= |row|
  {
    if n == 0 then 0.0
    else
      var b := WeightBlock(row, n - 1);
      ErrorBound(half, row, x, n - 1) + BlockBound(half(b[0], b[1]), b, Chunk(x, n - 1))
  }

  ghost predicate Close(a: real, b: real, e: real) { Abs(a - b) <= e }

  // ---------------------------------------------------------------- the error of one block

  lemma {:induction false} PeakIsMaxAbs(chunk: seq<real>)
    ensures forall i :: 0 <= i < |chunk| ==> Abs(chunk[i]) <= MaxAbs(chunk)
    ensures MaxAbs(chunk) == 0.0 || exists i :: 0 <= i < |chunk| && Abs(chunk[i]) == MaxAbs(chunk)
    decreases |chunk|
  {
    if chunk == [] {
    } else {
      var n := |chunk| - 1;
      var front := chunk[..n];
      PeakIsMaxAbs(front);
      forall i | 0 <= i < |chunk|
        ensures Abs(chunk[i]) <= MaxAbs(chunk)
      {
        if i < n {
          assert front[i] == chunk[i];
        }
      }
      if MaxAbs(chunk) == Abs(chunk[n]) {
      } else if MaxAbs(front) != 0.0 {
        var i :| 0 <= i < n && Abs(front[i]) == MaxAbs(front);
        assert Abs(chunk[i]) == MaxAbs(chunk);
      }
    }
  }

  /** The scale is the peak over 127. */
  lemma ScaleIsPeak(codes: seq<int>, scale: real, chunk: seq<real>)
    requires BlockOf(codes, scale, chunk)
    ensures Abs(scale) == MaxAbs(chunk) / 127.0
  {
    if AllZero(chunk) {
      ZeroPeak(chunk);
    } else {
      var p: nat, iscale: real :| IsPeak(chunk, p) && Scales(codes, scale, chunk, chunk[p], iscale);
      PeakUnique(chunk, p);
      ScaleOfPeak(codes, scale, chunk, chunk[p], iscale);
    }
  }

  lemma ZeroPeak(chunk: seq<real>)
    requires AllZero(chunk)
    ensures MaxAbs(chunk) == 0.0
  {
    PeakIsMaxAbs(chunk);
  }

  lemma PeakUnique(chunk: seq<real>, p: nat)
    requires IsPeak(chunk, p)
    ensures Abs(chunk[p]) == MaxAbs(chunk)
  {
    PeakIsMaxAbs(chunk);
    if MaxAbs(chunk) != 0.0 {
      var i :| 0 <= i < |chunk| && Abs(chunk[i]) == MaxAbs(chunk);
      assert Abs(chunk[i]) <= Abs(chunk[p]);
    }
  }

  lemma ScaleOfPeak(codes: seq<int>, scale: real, chunk: seq<real>, max: real, iscale: real)
    requires |chunk| <= |codes| && Scales(codes, scale, chunk, max, iscale)
    ensures Abs(scale) == Abs(max) / 127.0
  {
    assert (scale * iscale) * max == scale * (iscale * max);
    assert max == scale * -127.0;
  }

  ghost predicate AllNear(codes: seq<int>, scale: real, chunk: seq<real>) {
    |chunk| <= |codes| && forall i :: 0 <= i < |chunk| ==> Near(scale, codes[i], chunk[i])
  }

  lemma CodesAreNear(codes: seq<int>, scale: real, chunk: seq<real>)
    requires BlockOf(codes, scale, chunk)
    ensures AllNear(codes, scale, chunk)
  {
    forall i | 0 <= i < |chunk|
      ensures Near(scale, codes[i], chunk[i])
    {
      if AllZero(chunk) {
        ZeroIsNear(scale, codes[i], chunk[i]);
      } else {
        var p: nat, iscale: real :| IsPeak(chunk, p) && Scales(codes, scale, chunk, chunk[p], iscale);
        CodeIsNear(scale, iscale, chunk[i], codes[i]);
      }
    }
  }

  /** One product is off by at most half a scale times the size of the weight code. */
  lemma ProductIsNear(scale: real, w: int, q: int, x: real, h: real)
    requires Near(scale, q, x) && h == Abs(scale) / 2.0
    ensures Close(Times(scale, (w * q) as real), w as real * x, Times(h, Size(w) as real))
  {
    var e := scale * q as real - x;
    assert (w * q) as real == w as real * q as real;
    assert scale * (w as real * q as real) - w as real * x == w as real * e;
    AbsProduct(w as real, e, h);
    assert Abs(w as real) == Size(w) as real;
  }

  lemma AbsProduct(w: real, e: real, h: real)
    requires Abs(e) <= h
    ensures Abs(w * e) <= h * Abs(w)
  {
    if w >= 0.0 {
      assert w * e <= w * h && w * -h <= w * e;
    } else {
      assert w * h <= w * e && w * e <= w * -h;
    }
  }

  lemma {:induction false} BlockError(b: seq<byte>, codes: seq<int>, scale: real, chunk: seq<real>, n: nat, h: real)
    requires |b| == BLOCK_BYTES && |codes| == BLOCK && n <= |chunk| <= BLOCK && AllNear(codes, scale, chunk)
    requires h == Abs(scale) / 2.0
    ensures Close(Times(scale, CodeDot(b, codes, n) as real), ExactDot(b, chunk, n), Times(h, CodeSize(b, n) as real))
  {
    if n == 0 {
      NothingIsClose(scale, h);
    } else {
      BlockError(b, codes, scale, chunk, n - 1, h);
      Unfolded(b, codes, chunk, n);
      ErrorStep(scale, h, W(b, n - 1), codes[n - 1], chunk[n - 1], CodeDot(b, codes, n - 1), CodeDot(b, codes, n),
                ExactDot(b, chunk, n - 1), ExactDot(b, chunk, n), CodeSize(b, n - 1), CodeSize(b, n));
    }
  }

  lemma ErrorStep(scale: real, h: real, w: int, q: int, x: real, c: int, c': int, e: real, e': real, s: int, s': int)
    requires Near(scale, q, x) && h == Abs(scale) / 2.0
    requires c' == c + w * q && e' == e + w as real * x && s' == s + Size(w)
    requires Close(Times(scale, c as real), e, Times(h, s as real))
    ensures Close(Times(scale, c' as real), e', Times(h, s' as real))
  {
    ProductIsNear(scale, w, q, x, h);
    OneMore(scale, c, w * q, c', e, w as real * x, e', h, s, Size(w), s');
  }

  lemma Unfolded(b: seq<byte>, codes: seq<int>, chunk: seq<real>, n: nat)
    requires |b| == BLOCK_BYTES && |codes| == BLOCK && 0 < n <= |chunk| <= BLOCK
    ensures CodeDot(b, codes, n) == CodeDot(b, codes, n - 1) + W(b, n - 1) * codes[n - 1]
    ensures ExactDot(b, chunk, n) == ExactDot(b, chunk, n - 1) + W(b, n - 1) as real * chunk[n - 1]
    ensures CodeSize(b, n) == CodeSize(b, n - 1) + Size(W(b, n - 1))
  {
  }

  lemma NothingIsClose(scale: real, h: real)
    ensures Close(Times(scale, 0.0), 0.0, Times(h, 0.0))
  {
  }

  lemma OneMore(scale: real, c: int, p: int, c': int, x: real, y: real, x': real, h: real, s: int, t: int, s': int)
    requires c' == c + p && x' == x + y && s' == s + t
    requires Close(Times(scale, c as real), x, Times(h, s as real)) && Close(Times(scale, p as real), y, Times(h, t as real))
    ensures Close(Times(scale, c' as real), x', Times(h, s' as real))
  {
    TimesPlus(scale, c as real, p as real, c' as real);
    TimesPlus(h, s as real, t as real, s' as real);
    AddErrors(Times(scale, c as real), x, Times(h, s as real), Times(scale, p as real), y, Times(h, t as real));
  }

  lemma TimesPlus(f: real, a: real, b: real, c: real)
    requires c == a + b
    ensures Times(f, c) == Times(f, a) + Times(f, b)
  {
  }

  lemma AddErrors(acc: real, exact: real, bound: real, term: real, exactTerm: real, more: real)
    requires Close(acc, exact, bound) && Close(term, exactTerm, more)
    ensures Close(acc + term, exact + exactTerm, bound + more)
  {
  }

  /** The whole block, with its weight scale. */
  lemma ScaledBlockError(b: seq<byte>, ws: real, codes: seq<int>, scale: real, chunk: seq<real>, c: real)
    requires |b| == BLOCK_BYTES && BlockOf(codes, scale, chunk) && c == CodeDot(b, codes, |chunk|) as real
    ensures Close(Times(ws, Times(scale, c)), ExactTerm(ws, b, chunk), BlockBound(ws, b, chunk))
  {
    CodesAreNear(codes, scale, chunk);
    ScaleIsPeak(codes, scale, chunk);
    var h := Abs(scale) / 2.0;
    assert h == MaxAbs(chunk) / 254.0;
    BlockError(b, codes, scale, chunk, |chunk|, h);
    ScaleError(ws, Times(scale, c), ExactDot(b, chunk, |chunk|), Times(h, CodeSize(b, |chunk|) as real));
  }

  lemma ScaleError(ws: real, a: real, x: real, e: real)
    requires Close(a, x, e)
    ensures Close(Times(ws, a), Times(ws, x), Times(Abs(ws), e))
  {
    AbsProduct(ws, a - x, e);
    assert ws * (a - x) == ws * a - ws * x;
  }

  // ---------------------------------------------------------------- the loop over the blocks

  lemma {:induction false} CodeDotInRange(b: seq<byte>, codes: seq<int>, n: nat)
    requires |b| == BLOCK_BYTES && |codes| == BLOCK && n <= BLOCK && forall i :: 0 <= i < n ==> -128 <= codes[i] <= 127
    ensures -16384 * n <= CodeDot(b, codes, n) <= 16384 * n
  {
    if n == 0 {
    } else {
      CodeDotInRange(b, codes, n - 1);
      ByteProduct(W(b, n - 1), codes[n - 1]);
    }
  }

  lemma ByteProduct(w: int, q: int)
    requires -128 <= w <= 127 && -128 <= q <= 127
    ensures -16384 <= w * q <= 16384
  {
    AbsProduct(w as real, q as real, 128.0);
    assert (w * q) as real == w as real * q as real;
  }

  lemma BlockCodesAreBytes(codes: seq<int>, scale: real, chunk: seq<real>)
    requires BlockOf(codes, scale, chunk)
    ensures forall i :: 0 <= i < BLOCK ==> -128 <= codes[i] <= 127
  {
    if !AllZero(chunk) {
      var p: nat, iscale: real :| IsPeak(chunk, p) && Scales(codes, scale, chunk, chunk[p], iscale);
      forall i | 0 <= i < BLOCK
        ensures -128 <= codes[i] <= 127
      {
        if i < |chunk| {
          assert IsCode(codes[i], iscale, chunk[i]);
        }
      }
    }
  }

  /** The integer sum of one block, in 32 bits. */
  method BlockSum(b: seq<byte>, codes: seq<int>, take: nat) returns (sum: i32)
    requires |b| == BLOCK_BYTES && |codes| == BLOCK && take <= BLOCK && forall i :: 0 <= i < BLOCK ==> -128 <= codes[i] <= 127
    ensures sum == CodeDot(b, codes, take)
  {
    sum := 0;
    for i := 0 to take
      invariant sum == CodeDot(b, codes, i)
    {
      CodeDotInRange(b, codes, i + 1);
      sum := sum + SignedByte(b[2 + i]) * codes[i];
    }
  }

  /** The body of the loop: one block's term, left out when either scale is zero. */
  method BlockTerm(half: Half, b: seq<byte>, codes: seq<int>, scale: real, ghost chunk: seq<real>, take: nat) returns (term: real)
    requires |b| == BLOCK_BYTES && BlockOf(codes, scale, chunk) && take == |chunk|
    ensures Close(term, ExactTerm(half(b[0], b[1]), b, chunk), BlockBound(half(b[0], b[1]), b, chunk))
  {
    var ws := half(b[0], b[1]);
    if ws == 0.0 || scale == 0.0 {
      ghost var none := CodeDot(b, codes, take) as real;
      ScaledBlockError(b, ws, codes, scale, chunk, none);
      ZeroTerm(ws, scale, none);
      return 0.0;
    }
    BlockCodesAreBytes(codes, scale, chunk);
    var sum := BlockSum(b, codes, take);
    var c := sum as real;
    ScaledBlockError(b, ws, codes, scale, chunk, c);
    TermGroups(ws, scale, c);
    term := ws * scale * c;
  }

  lemma ZeroTerm(ws: real, scale: real, c: real)
    requires ws == 0.0 || scale == 0.0
    ensures Times(ws, Times(scale, c)) == 0.0
  {
  }

  lemma TermGroups(ws: real, scale: real, c: real)
    ensures ws * scale * c == Times(ws, Times(scale, c))
  {
  }

  lemma RowStep(half: Half, row: seq<byte>, x: seq<real>, t: nat, b: seq<byte>, acc: real, term: real)
    requires t < Blocks(|x|) && BLOCK_BYTES * t + BLOCK_BYTES <= |row| && b == WeightBlock(row, t)
    requires Close(acc, ExactRow(half, row, x, t), ErrorBound(half, row, x, t))
    requires Close(term, ExactTerm(half(b[0], b[1]), b, Chunk(x, t)), BlockBound(half(b[0], b[1]), b, Chunk(x, t)))
    ensures Close(acc + term, ExactRow(half, row, x, t + 1), ErrorBound(half, row, x, t + 1))
  {
  }

  /**
   `dot_q8_0_tensor_row`, from the row on: it fails when the row is too short, and otherwise differs
   from the exact dot product by at most the bound.
   */
  method DotRow(half: Half, row: seq<byte>, quant: QuantRow, ghost x: seq<real>) returns (o: Option<real>)
    requires QuantOf(quant, x)
    ensures o.Some? <==> BLOCK_BYTES * quant.blocks <= |row|
    ensures o.Some? ==> Close(o.value, ExactRow(half, row, x, quant.blocks), ErrorBound(half, row, x, quant.blocks))
  {
    var acc := 0.0;
    for t := 0 to quant.blocks
      invariant BLOCK_BYTES * t <= |row|
      invariant Close(acc, ExactRow(half, row, x, t), ErrorBound(half, row, x, t))
    {
      if t * BLOCK_BYTES + BLOCK_BYTES > |row| {
        return None;
      }
      acc := AddBlock(half, row, quant, t, acc, x);
    }
    o := Some(acc);
  }

  /** One turn of the row loop: block `t` of the weights against block `t` of the codes. */
  method AddBlock(half: Half, row: seq<byte>, quant: QuantRow, t: nat, before: real, ghost x: seq<real>) returns (acc: real)
    requires QuantOf(quant, x) && t < quant.blocks && BLOCK_BYTES * t + BLOCK_BYTES <= |row|
    requires Close(before, ExactRow(half, row, x, t), ErrorBound(half, row, x, t))
    ensures Close(acc, ExactRow(half, row, x, t + 1), ErrorBound(half, row, x, t + 1))
  {
    var b := WeightBlock(row, t);
    var take := Taken(quant.inDim, t);
    var term := BlockTerm(half, b, CodesAt(quant.q, t), quant.scale[t], Chunk(x, t), take);
    RowStep(half, row, x, t, b, before, term);
    acc := before + term;
  }

  /** The exact row dot product, as computed for activations that are not quantised. */
  method ExactDotRow(half: Half, row: seq<byte>, x: seq<real>) returns (o: Option<real>)
    ensures o.Some? <==> BLOCK_BYTES * Blocks(|x|) <= |row|
    ensures o.Some? ==> o.value == ExactRow(half, row, x, Blocks(|x|))
  {
    if BLOCK_BYTES * Blocks(|x|) > |row| {
      return None;
    }
    var acc := 0.0;
    for t := 0 to Blocks(|x|)
      invariant acc == ExactRow(half, row, x, t)
    {
      var b := WeightBlock(row, t);
      acc := ExactBlock(half(b[0], b[1]), b, Chunk(x, t), acc);
    }
    o := Some(acc);
  }

  method ExactBlock(ws: real, b: seq<byte>, chunk: seq<real>, before: real) returns (acc: real)
    requires |b| == BLOCK_BYTES && |chunk| <= BLOCK
    ensures acc == before + ExactTerm(ws, b, chunk)
  {
    acc := before;
    assert Times(ws, 0.0) == 0.0;
    for i := 0 to |chunk|
      invariant acc == before + Times(ws, ExactDot(b, chunk, i))
    {
      OneProductMore(ws, ExactDot(b, chunk, i), W(b, i) as real, chunk[i], ExactDot(b, chunk, i + 1));
      acc := acc + ws * SignedByte(b[2 + i]) as real * chunk[i];
    }
  }

  lemma OneProductMore(ws: real, dot: real, w: real, x: real, dot': real)
    requires dot' == dot + w * x
    ensures Times(ws, dot) + ws * w * x == Times(ws, dot')
  {
    assert ws * (w * x) == ws * w * x;
    assert ws * (dot + w * x) == ws * dot + ws * (w * x);
  }
}
