/**
 Sinkhorn scaling of the 4x4 stream mixer, and what it means for the residual streams: the columns of
 the mixer end below one, so no output stream outgrows the input streams.
 */
module Sinkhorn {
  import opened Wrappers
  import opened HyperConnection
  import opened Reals

  const CELLS: nat := 16
  const SPLIT_DIM: nat := 24

  type Matrix = c: seq<real> | |c| == CELLS witness seq(CELLS, _ => 0.0)

  /** The row and the column of a cell. */
  function Row(i: nat): (r: nat)
    requires i < CELLS
    ensures r < N_HC && 4 * r <= i < 4 * r + 4
  {
    if i < 4 then 0 else if i < 8 then 1 else if i < 12 then 2 else 3
  }

  function Col(i: nat): (r: nat)
    requires i < CELLS
    ensures r < N_HC && i == r + 4 * Row(i)
  {
    i - 4 * Row(i)
  }

  /** Row `dst` of the matrix. */
  function RowSum(c: Matrix, dst: nat): real
    requires dst < N_HC
  {
    c[4 * dst] + c[4 * dst + 1] + c[4 * dst + 2] + c[4 * dst + 3]
  }

  /** Column `src`. */
  function ColSum(c: Matrix, src: nat): real
    requires src < N_HC
  {
    c[src] + c[src + 4] + c[src + 8] + c[src + 12]
  }

  ghost predicate Positive(c: Matrix) {
    forall i :: 0 <= i < CELLS ==> c[i] > 0.0
  }

  ghost predicate ColumnsBelowOne(c: Matrix) {
    forall src :: 0 <= src < N_HC ==> ColSum(c, src) < 1.0
  }

  /** One over a sum; zero only where no caller looks. */
  function Inv(s: real): real {
    if s == 0.0 then 0.0 else 1.0 / s
  }

  // ---------------------------------------------------------------- one scaling of rows, one of columns

  function RowCell(c: Matrix, eps: real, i: nat): real
    requires i < CELLS
  {
    Times(c[i], Inv(RowSum(c, Row(i)) + eps))
  }

  function ColCell(c: Matrix, eps: real, i: nat): real
    requires i < CELLS
  {
    Times(c[i], Inv(ColSum(c, Col(i)) + eps))
  }

  function RowsScaled(c: Matrix, eps: real): Matrix {
    seq(CELLS, i requires 0 <= i < CELLS => RowCell(c, eps, i))
  }

  function ColsScaled(c: Matrix, eps: real): Matrix {
    seq(CELLS, i requires 0 <= i < CELLS => ColCell(c, eps, i))
  }

  function Step(c: Matrix, eps: real): Matrix {
    ColsScaled(RowsScaled(c, eps), eps)
  }

  /** The iterations after the first column scaling. */
  function Iterated(c: Matrix, eps: real, k: nat): Matrix {
    if k == 0 then c else Step(Iterated(c, eps, k - 1), eps)
  }

  lemma InvPositive(s: real)
    requires s > 0.0
    ensures Inv(s) > 0.0 && s * Inv(s) == 1.0
  {
  }

  lemma TimesPositive(a: real, b: real)
    requires a > 0.0 && b > 0.0
    ensures Times(a, b) > 0.0
  {
  }

  lemma SumsPositive(c: Matrix, i: nat)
    requires Positive(c) && i < N_HC
    ensures RowSum(c, i) > 0.0 && ColSum(c, i) > 0.0
  {
  }

  lemma ScaledPositive(x: real, s: real)
    requires x > 0.0 && s > 0.0
    ensures Times(x, Inv(s)) > 0.0
  {
    InvPositive(s);
    TimesPositive(x, Inv(s));
  }

  lemma RowsStayPositive(c: Matrix, eps: real)
    requires Positive(c) && eps > 0.0
    ensures Positive(RowsScaled(c, eps))
  {
    forall i | 0 <= i < CELLS
      ensures RowCell(c, eps, i) > 0.0
    {
      SumsPositive(c, Row(i));
      ScaledPositive(c[i], RowSum(c, Row(i)) + eps);
    }
  }

  lemma ColsStayPositive(c: Matrix, eps: real)
    requires Positive(c) && eps > 0.0
    ensures Positive(ColsScaled(c, eps))
  {
    forall i | 0 <= i < CELLS
      ensures ColCell(c, eps, i) > 0.0
    {
      SumsPositive(c, Col(i));
      ScaledPositive(c[i], ColSum(c, Col(i)) + eps);
    }
  }

  /** Four cells over their sum plus something positive add up to less than one. */
  lemma ScaledBelowOne(a: real, b: real, c: real, d: real, eps: real, v: real)
    requires a > 0.0 && b > 0.0 && c > 0.0 && d > 0.0 && eps > 0.0 && v == Inv(a + b + c + d + eps)
    ensures Times(a, v) + Times(b, v) + Times(c, v) + Times(d, v) < 1.0
  {
    var s := a + b + c + d;
    InvPositive(s + eps);
    TimesPositive(eps, v);
    assert a * v + b * v + c * v + d * v == s * v;
    assert (s + eps) * v == s * v + eps * v;
  }

  lemma ColumnEndsBelowOne(c: Matrix, eps: real, src: nat)
    requires Positive(c) && eps > 0.0 && src < N_HC
    ensures ColCell(c, eps, src) + ColCell(c, eps, src + 4) + ColCell(c, eps, src + 8) + ColCell(c, eps, src + 12) < 1.0
  {
    assert Col(src) == src && Col(src + 4) == src && Col(src + 8) == src && Col(src + 12) == src;
    ScaledBelowOne(c[src], c[src + 4], c[src + 8], c[src + 12], eps, Inv(ColSum(c, src) + eps));
  }

  /** After the columns are scaled, every column sum is below one. */
  lemma ColumnsEndBelowOne(c: Matrix, eps: real)
    requires Positive(c) && eps > 0.0
    ensures ColumnsBelowOne(ColsScaled(c, eps))
  {
    forall src | 0 <= src < N_HC
      ensures ColSum(ColsScaled(c, eps), src) < 1.0
    {
      ColumnEndsBelowOne(c, eps, src);
    }
  }

  /** For every number of iterations: strictly positive, with column sums below one. */
  lemma {:induction false} IteratedIsBelowOne(c: Matrix, eps: real, k: nat)
    requires Positive(c) && ColumnsBelowOne(c) && eps > 0.0
    ensures Positive(Iterated(c, eps, k)) && ColumnsBelowOne(Iterated(c, eps, k))
  {
    if k == 0 {
    } else {
      IteratedIsBelowOne(c, eps, k - 1);
      StepIsBelowOne(Iterated(c, eps, k - 1), eps);
    }
  }

  lemma StepIsBelowOne(c: Matrix, eps: real)
    requires Positive(c) && eps > 0.0
    ensures Positive(Step(c, eps)) && ColumnsBelowOne(Step(c, eps))
  {
    RowsStayPositive(c, eps);
    ColsStayPositive(RowsScaled(c, eps), eps);
    ColumnsEndBelowOne(RowsScaled(c, eps), eps);
  }

  // ---------------------------------------------------------------- the start: a softmax of every row

  function Max2(a: real, b: real): real { if b > a then b else a }

  function RowMax(c: Matrix, dst: nat): real
    requires dst < N_HC
  {
    Max2(Max2(Max2(c[4 * dst], c[4 * dst + 1]), c[4 * dst + 2]), c[4 * dst + 3])
  }

  function Exponentials(exp: real -> real, c: Matrix): Matrix {
    seq(CELLS, i requires 0 <= i < CELLS => exp(c[i] - RowMax(c, Row(i))))
  }

  function Softened(c: Matrix, eps: real): Matrix {
    seq(CELLS, i requires 0 <= i < CELLS => Times(c[i], Inv(Max2(RowSum(c, Row(i)), eps))) + eps)
  }

  /** The cells before any exponential. */
  function Affine(mix: seq<real>, scale: seq<real>, base: seq<real>): Matrix
    requires |mix| >= SPLIT_DIM && |base| >= SPLIT_DIM && |scale| >= 3
  {
    seq(CELLS, i requires 0 <= i < CELLS => Times(mix[8 + i], scale[2]) + base[8 + i])
  }

  function Started(exp: real -> real, mix: seq<real>, scale: seq<real>, base: seq<real>, eps: real): Matrix
    requires |mix| >= SPLIT_DIM && |base| >= SPLIT_DIM && |scale| >= 3
  {
    Softened(Exponentials(exp, Affine(mix, scale, base)), eps)
  }

  lemma StartIsPositive(exp: real -> real, c: Matrix, eps: real)
    requires (forall x :: exp(x) > 0.0) && eps > 0.0
    ensures Positive(Softened(Exponentials(exp, c), eps))
  {
    var e := Exponentials(exp, c);
    forall i | 0 <= i < CELLS
      ensures Softened(e, eps)[i] > 0.0
    {
      var s := Max2(RowSum(e, Row(i)), eps);
      InvPositive(s);
      assert e[i] > 0.0;
      TimesPositive(e[i], Inv(s));
    }
  }

  /** `1..iters` */
  function Rounds(iters: nat): nat { if iters == 0 then 0 else iters - 1 }

  /** The mixer: softmax rows, a column scaling, then `iters - 1` times rows and columns. */
  function Mixer(exp: real -> real, mix: seq<real>, scale: seq<real>, base: seq<real>, iters: nat, eps: real): Matrix
    requires |mix| >= SPLIT_DIM && |base| >= SPLIT_DIM && |scale| >= 3
  {
    Iterated(ColsScaled(Started(exp, mix, scale, base, eps), eps), eps, Rounds(iters))
  }

  /** For every iteration count and every mixer row. */
  lemma MixerIsBelowOne(exp: real -> real, mix: seq<real>, scale: seq<real>, base: seq<real>, iters: nat, eps: real)
    requires |mix| >= SPLIT_DIM && |base| >= SPLIT_DIM && |scale| >= 3 && (forall x :: exp(x) > 0.0) && eps > 0.0
    ensures var c := Mixer(exp, mix, scale, base, iters, eps); Positive(c) && ColumnsBelowOne(c)
  {
    StartIsPositive(exp, Affine(mix, scale, base), eps);
    var c := Started(exp, mix, scale, base, eps);
    ColsStayPositive(c, eps);
    ColumnsEndBelowOne(c, eps);
    IteratedIsBelowOne(ColsScaled(c, eps), eps, Rounds(iters));
  }

  // ---------------------------------------------------------------- the loops, in place

  /** Row `dst` scaled by the inverse of its sum plus `eps`. */
  method ScaleRow(c: array<real>, dst: nat, eps: real)
    requires c.Length == CELLS && dst < N_HC && RowSum(c[..], dst) + eps != 0.0
    modifies c
    ensures forall i :: 0 <= i < CELLS ==>
              c[i] == if Row(i) == dst then Times(old(c[i]), Inv(old(RowSum(c[..], dst)) + eps)) else old(c[i])
  {
    var sum := 0.0;
    var src := 0;
    while src < N_HC
      invariant src <= N_HC && c[..] == old(c[..])
      invariant sum == (if src > 0 then c[4 * dst] else 0.0) + (if src > 1 then c[4 * dst + 1] else 0.0)
                     + (if src > 2 then c[4 * dst + 2] else 0.0) + (if src > 3 then c[4 * dst + 3] else 0.0)
    {
      sum := sum + c[src + dst * N_HC];
      src := src + 1;
    }
    assert sum == RowSum(c[..], dst);
    var inv := 1.0 / (sum + eps);
    for src := 0 to N_HC
      invariant forall i :: 0 <= i < CELLS ==>
                  c[i] == if 4 * dst <= i < 4 * dst + src then Times(old(c[i]), inv) else old(c[i])
    {
      c[src + dst * N_HC] := Times(c[src + dst * N_HC], inv);
    }
  }

  /** Column `src` scaled likewise. */
  method ScaleCol(c: array<real>, src: nat, eps: real)
    requires c.Length == CELLS && src < N_HC && ColSum(c[..], src) + eps != 0.0
    modifies c
    ensures forall i :: 0 <= i < CELLS ==>
              c[i] == if Col(i) == src then Times(old(c[i]), Inv(old(ColSum(c[..], src)) + eps)) else old(c[i])
  {
    var sum := 0.0;
    var dst := 0;
    while dst < N_HC
      invariant dst <= N_HC && c[..] == old(c[..])
      invariant sum == (if dst > 0 then c[src] else 0.0) + (if dst > 1 then c[src + 4] else 0.0)
                     + (if dst > 2 then c[src + 8] else 0.0) + (if dst > 3 then c[src + 12] else 0.0)
    {
      sum := sum + c[src + dst * N_HC];
      dst := dst + 1;
    }
    assert sum == ColSum(c[..], src);
    var inv := 1.0 / (sum + eps);
    for dst := 0 to N_HC
      invariant forall i :: 0 <= i < CELLS ==>
                  c[i] == if Col(i) == src && Row(i) < dst then Times(old(c[i]), inv) else old(c[i])
    {
      c[src + dst * N_HC] := Times(c[src + dst * N_HC], inv);
    }
  }

  /** Some rows scaled, the others as they were. */
  ghost predicate RowsDone(c: seq<real>, start: Matrix, eps: real, dst: nat) {
    |c| == CELLS && forall i :: 0 <= i < CELLS ==> c[i] == if Row(i) < dst then RowCell(start, eps, i) else start[i]
  }

  ghost predicate ColsDone(c: seq<real>, start: Matrix, eps: real, src: nat) {
    |c| == CELLS && forall i :: 0 <= i < CELLS ==> c[i] == if Col(i) < src then ColCell(start, eps, i) else start[i]
  }

  lemma RowUntouched(c: Matrix, start: Matrix, eps: real, dst: nat)
    requires RowsDone(c, start, eps, dst) && Positive(start) && dst < N_HC
    ensures RowSum(c, dst) == RowSum(start, dst) && RowSum(start, dst) > 0.0
  {
    assert c[4 * dst] == start[4 * dst] && c[4 * dst + 1] == start[4 * dst + 1];
    assert c[4 * dst + 2] == start[4 * dst + 2] && c[4 * dst + 3] == start[4 * dst + 3];
  }

  lemma ColUntouched(c: Matrix, start: Matrix, eps: real, src: nat)
    requires ColsDone(c, start, eps, src) && Positive(start) && src < N_HC
    ensures ColSum(c, src) == ColSum(start, src) && ColSum(start, src) > 0.0
  {
    assert Col(src) == src && Col(src + 4) == src && Col(src + 8) == src && Col(src + 12) == src;
  }

  method ScaleRows(c: array<real>, eps: real)
    requires c.Length == CELLS && Positive(c[..]) && eps > 0.0
    modifies c
    ensures c[..] == RowsScaled(old(c[..]), eps)
  {
    ghost var start := c[..];
    for dst := 0 to N_HC
      invariant RowsDone(c[..], start, eps, dst)
    {
      RowUntouched(c[..], start, eps, dst);
      ghost var before := c[..];
      ScaleRow(c, dst, eps);
      assert forall i :: 0 <= i < CELLS ==> c[..][i] == c[i];
    }
  }

  method ScaleCols(c: array<real>, eps: real)
    requires c.Length == CELLS && Positive(c[..]) && eps > 0.0
    modifies c
    ensures c[..] == ColsScaled(old(c[..]), eps)
  {
    ghost var start := c[..];
    for src := 0 to N_HC
      invariant ColsDone(c[..], start, eps, src)
    {
      ColUntouched(c[..], start, eps, src);
      ScaleCol(c, src, eps);
      assert forall i :: 0 <= i < CELLS ==> c[..][i] == c[i];
    }
  }

  /** The body of the iteration loop: rows, then columns. */
  method ScaleBoth(c: array<real>, eps: real, ghost now: Matrix)
    requires c.Length == CELLS && c[..] == now && Positive(now) && eps > 0.0
    modifies c
    ensures c[..] == Step(now, eps)
  {
    RowsStayPositive(now, eps);
    ScaleRows(c, eps);
    ScaleCols(c, eps);
  }

  lemma StepAgain(c: Matrix, eps: real, k: nat, now: Matrix)
    requires now == Iterated(c, eps, k)
    ensures Step(now, eps) == Iterated(c, eps, k + 1)
  {
  }

  /** The loop, once the columns have been scaled. */
  method Repeat(c: array<real>, rounds: nat, eps: real, ghost first: Matrix)
    requires c.Length == CELLS && c[..] == first && Positive(first) && ColumnsBelowOne(first) && eps > 0.0
    modifies c
    ensures c[..] == Iterated(first, eps, rounds)
  {
    for k := 0 to rounds
      invariant c[..] == Iterated(first, eps, k)
    {
      RepeatOnce(c, eps, first, k);
    }
  }

  method RepeatOnce(c: array<real>, eps: real, ghost first: Matrix, ghost k: nat)
    requires c.Length == CELLS && c[..] == Iterated(first, eps, k) && Positive(first) && ColumnsBelowOne(first) && eps > 0.0
    modifies c
    ensures c[..] == Iterated(first, eps, k + 1)
  {
    ghost var now := Iterated(first, eps, k);
    IteratedIsBelowOne(first, eps, k);
    ScaleBoth(c, eps, now);
    StepAgain(first, eps, k, now);
  }

  ghost predicate RowIs(c: seq<real>, dst: nat, row: Matrix, rest: seq<real>) {
    |c| == |rest| == CELLS && forall i :: 0 <= i < CELLS ==> c[i] == if Row(i) == dst then row[i] else rest[i]
  }

  /** What the stages of the start are, cell by cell. */
  ghost predicate IsAffine(mix: seq<real>, scale: seq<real>, base: seq<real>, a: Matrix)
    requires |mix| >= SPLIT_DIM && |base| >= SPLIT_DIM && |scale| >= 3
  {
    forall i :: 0 <= i < CELLS ==> a[i] == Times(mix[8 + i], scale[2]) + base[8 + i]
  }

  ghost predicate AreMaxima(a: Matrix, m: seq<real>) {
    |m| == N_HC && forall r :: 0 <= r < N_HC ==> m[r] == RowMax(a, r)
  }

  ghost predicate AreExponentials(exp: real -> real, a: Matrix, m: seq<real>, e: Matrix) {
    |m| == N_HC && forall i :: 0 <= i < CELLS ==> e[i] == exp(a[i] - m[Row(i)])
  }

  ghost predicate AreSoftened(e: Matrix, s: Matrix, eps: real) {
    forall i :: 0 <= i < CELLS ==> s[i] == Times(e[i], Inv(Max2(RowSum(e, Row(i)), eps))) + eps
  }

  /** Cells of row `dst` before any exponential, and their maximum. */
  method FillRow(c: array<real>, mix: seq<real>, scale: seq<real>, base: seq<real>, dst: nat, ghost a: Matrix) returns (rowMax: real)
    requires c.Length == CELLS && |mix| >= SPLIT_DIM && |base| >= SPLIT_DIM && |scale| >= 3 && dst < N_HC
    requires IsAffine(mix, scale, base, a)
    modifies c
    ensures RowIs(c[..], dst, a, old(c[..])) && rowMax == RowMax(a, dst)
  {
    rowMax := Times(mix[8 + 4 * dst], scale[2]) + base[8 + 4 * dst];
    c[4 * dst] := rowMax;
    var src := 1;
    while src < N_HC
      invariant 1 <= src <= N_HC
      invariant forall i :: 0 <= i < CELLS ==> c[i] == if 4 * dst <= i < 4 * dst + src then a[i] else old(c[i])
      invariant rowMax == if src == 1 then a[4 * dst]
                          else if src == 2 then Max2(a[4 * dst], a[4 * dst + 1])
                          else if src == 3 then Max2(Max2(a[4 * dst], a[4 * dst + 1]), a[4 * dst + 2])
                          else RowMax(a, dst)
    {
      var idx := src + dst * N_HC;
      var v := Times(mix[8 + idx], scale[2]) + base[8 + idx];
      c[idx] := v;
      if v > rowMax {
        rowMax := v;
      }
      src := src + 1;
    }
  }

  ghost predicate RowExp(exp: real -> real, c: seq<real>, dst: nat, start: seq<real>, rowMax: real) {
    |c| == |start| == CELLS
    && forall i :: 0 <= i < CELLS ==> c[i] == if Row(i) == dst then exp(start[i] - rowMax) else start[i]
  }

  ghost predicate RowSoft(c: seq<real>, dst: nat, start: seq<real>, rowSum: real, eps: real) {
    |c| == |start| == CELLS
    && forall i :: 0 <= i < CELLS ==> c[i] == if Row(i) == dst then Times(start[i], Inv(Max2(rowSum, eps))) + eps else start[i]
  }

  /** The exponentials of row `dst` and their sum. */
  method ExpRow(exp: real -> real, c: array<real>, dst: nat, rowMax: real) returns (rowSum: real)
    requires c.Length == CELLS && dst < N_HC
    modifies c
    ensures RowExp(exp, c[..], dst, old(c[..]), rowMax)
    ensures rowSum == RowSum(c[..], dst)
  {
    ghost var start := c[..];
    rowSum := 0.0;
    var src := 0;
    while src < N_HC
      invariant src <= N_HC
      invariant forall i :: 0 <= i < CELLS ==> c[i] == if 4 * dst <= i < 4 * dst + src then exp(start[i] - rowMax) else start[i]
      invariant rowSum == (if src > 0 then c[4 * dst] else 0.0) + (if src > 1 then c[4 * dst + 1] else 0.0)
                        + (if src > 2 then c[4 * dst + 2] else 0.0) + (if src > 3 then c[4 * dst + 3] else 0.0)
    {
      var idx := src + dst * N_HC;
      var v := exp(c[idx] - rowMax);
      c[idx] := v;
      rowSum := rowSum + v;
      src := src + 1;
    }
  }

  /** Row `dst` divided by its sum, and lifted by `eps`. */
  method SoftenRow(c: array<real>, dst: nat, rowSum: real, eps: real)
    requires c.Length == CELLS && dst < N_HC && Max2(rowSum, eps) != 0.0
    modifies c
    ensures RowSoft(c[..], dst, old(c[..]), rowSum, eps)
  {
    var inv := 1.0 / Max2(rowSum, eps);
    for src := 0 to N_HC
      invariant forall i :: 0 <= i < CELLS ==>
                  c[i] == if 4 * dst <= i < 4 * dst + src then Times(old(c[i]), inv) + eps else old(c[i])
    {
      var idx := src + dst * N_HC;
      c[idx] := Times(c[idx], inv) + eps;
    }
  }

  ghost predicate StartDone(c: seq<real>, s: Matrix, dst: nat) {
    |c| == CELLS && forall i :: 0 <= i < CELLS && Row(i) < dst ==> c[i] == s[i]
  }

  lemma StartRow(before: seq<real>, middle: seq<real>, after: seq<real>, e: Matrix, s: Matrix, eps: real, dst: nat, rowSum: real)
    requires StartDone(before, s, dst) && dst < N_HC && AreSoftened(e, s, eps) && rowSum == RowSum(e, dst)
    requires RowIs(middle, dst, e, before) && RowSoft(after, dst, middle, rowSum, eps)
    ensures StartDone(after, s, dst + 1)
  {
    forall i | 0 <= i < CELLS && Row(i) < dst + 1
      ensures after[i] == s[i]
    {
      assert middle[i] == if Row(i) == dst then e[i] else before[i];
    }
  }

  lemma ExpStage(exp: real -> real, before: seq<real>, filled: seq<real>, middle: seq<real>,
                 a: Matrix, m: seq<real>, e: Matrix, dst: nat, rowMax: real)
    requires dst < N_HC && RowIs(filled, dst, a, before) && AreExponentials(exp, a, m, e) && rowMax == m[dst]
    requires RowExp(exp, middle, dst, filled, rowMax)
    ensures RowIs(middle, dst, e, before)
  {
    forall i | 0 <= i < CELLS
      ensures middle[i] == if Row(i) == dst then e[i] else before[i]
    {
      assert filled[i] == if Row(i) == dst then a[i] else before[i];
    }
  }

  lemma RowSumOf(c: Matrix, dst: nat, row: Matrix, rest: seq<real>)
    requires dst < N_HC && RowIs(c, dst, row, rest)
    ensures RowSum(c, dst) == RowSum(row, dst)
  {
    assert c[4 * dst] == row[4 * dst] && c[4 * dst + 1] == row[4 * dst + 1];
    assert c[4 * dst + 2] == row[4 * dst + 2] && c[4 * dst + 3] == row[4 * dst + 3];
  }

  /** The body of the first loop: a softmax of row `dst`, lifted by `eps`. */
  method StartOneRow(exp: real -> real, c: array<real>, mix: seq<real>, scale: seq<real>, base: seq<real>, eps: real, dst: nat,
                     ghost a: Matrix, ghost m: seq<real>, ghost e: Matrix, ghost s: Matrix)
    requires c.Length == CELLS && |mix| >= SPLIT_DIM && |base| >= SPLIT_DIM && |scale| >= 3 && eps > 0.0 && dst < N_HC
    requires IsAffine(mix, scale, base, a) && AreMaxima(a, m) && AreExponentials(exp, a, m, e) && AreSoftened(e, s, eps)
    requires StartDone(c[..], s, dst)
    modifies c
    ensures StartDone(c[..], s, dst + 1)
  {
    ghost var before := c[..];
    var rowMax := FillRow(c, mix, scale, base, dst, a);
    ghost var filled := c[..];
    var rowSum := ExpRow(exp, c, dst, rowMax);
    ghost var middle := c[..];
    ExpStage(exp, before, filled, middle, a, m, e, dst, rowMax);
    RowSumOf(middle, dst, e, before);
    SoftenRow(c, dst, rowSum, eps);
    StartRow(before, middle, c[..], e, s, eps, dst, rowSum);
  }

  /** The first loop. */
  method Start(exp: real -> real, c: array<real>, mix: seq<real>, scale: seq<real>, base: seq<real>, eps: real)
    requires c.Length == CELLS && |mix| >= SPLIT_DIM && |base| >= SPLIT_DIM && |scale| >= 3 && eps > 0.0
    modifies c
    ensures c[..] == Started(exp, mix, scale, base, eps)
  {
    ghost var a, m, e, s := Stages(exp, mix, scale, base, eps);
    for dst := 0 to N_HC
      invariant StartDone(c[..], s, dst)
    {
      StartOneRow(exp, c, mix, scale, base, eps, dst, a, m, e, s);
    }
  }

  lemma Stages(exp: real -> real, mix: seq<real>, scale: seq<real>, base: seq<real>, eps: real)
    returns (a: Matrix, m: seq<real>, e: Matrix, s: Matrix)
    requires |mix| >= SPLIT_DIM && |base| >= SPLIT_DIM && |scale| >= 3
    ensures IsAffine(mix, scale, base, a) && AreMaxima(a, m) && AreExponentials(exp, a, m, e) && AreSoftened(e, s, eps)
    ensures s == Started(exp, mix, scale, base, eps)
  {
    a := Affine(mix, scale, base);
    m := Maxima(a);
    e := Exponentials(exp, a);
    s := Softened(e, eps);
    AffineIs(mix, scale, base);
    ExponentialsAre(exp, a, m);
    SoftenedAre(e, eps);
  }

  lemma AffineIs(mix: seq<real>, scale: seq<real>, base: seq<real>)
    requires |mix| >= SPLIT_DIM && |base| >= SPLIT_DIM && |scale| >= 3
    ensures IsAffine(mix, scale, base, Affine(mix, scale, base))
  {
  }

  lemma Maxima(a: Matrix) returns (m: seq<real>)
    ensures AreMaxima(a, m)
  {
    m := [RowMax(a, 0), RowMax(a, 1), RowMax(a, 2), RowMax(a, 3)];
  }

  lemma ExponentialsAre(exp: real -> real, a: Matrix, m: seq<real>)
    requires AreMaxima(a, m)
    ensures AreExponentials(exp, a, m, Exponentials(exp, a))
  {
    forall i | 0 <= i < CELLS
      ensures Exponentials(exp, a)[i] == exp(a[i] - m[Row(i)])
    {
      MaximumAt(a, m, Row(i));
    }
  }

  lemma MaximumAt(a: Matrix, m: seq<real>, dst: nat)
    requires AreMaxima(a, m) && dst < N_HC
    ensures m[dst] == RowMax(a, dst)
  {
  }

  lemma SoftenedAre(e: Matrix, eps: real)
    ensures AreSoftened(e, Softened(e, eps), eps)
  {
  }

  // ---------------------------------------------------------------- the whole split

  /** `sigmoid_stable` */
  function Sigmoid(exp: real -> real, x: real): real {
    if x >= 0.0 then Inv(1.0 + exp(-x)) else Times(exp(x), Inv(1.0 + exp(x)))
  }

  /** Input gate `i` and output gate `i`. */
  function PreGate(exp: real -> real, mix: seq<real>, scale: seq<real>, base: seq<real>, eps: real, i: nat): real
    requires |mix| >= SPLIT_DIM && |base| >= SPLIT_DIM && |scale| >= 3 && i < N_HC
  {
    Sigmoid(exp, Times(mix[i], scale[0]) + base[i]) + eps
  }

  function PostGate(exp: real -> real, mix: seq<real>, scale: seq<real>, base: seq<real>, i: nat): real
    requires |mix| >= SPLIT_DIM && |base| >= SPLIT_DIM && |scale| >= 3 && i < N_HC
  {
    2.0 * Inv(1.0 + exp(-(Times(mix[4 + i], scale[1]) + base[4 + i])))
  }

  lemma PostGatePositive(exp: real -> real, mix: seq<real>, scale: seq<real>, base: seq<real>, i: nat)
    requires |mix| >= SPLIT_DIM && |base| >= SPLIT_DIM && |scale| >= 3 && i < N_HC && forall x :: exp(x) > 0.0
    ensures PostGate(exp, mix, scale, base, i) > 0.0
  {
    InvPositive(1.0 + exp(-(Times(mix[4 + i], scale[1]) + base[4 + i])));
  }

  predicate SplitFits(mix: seq<real>, scale: seq<real>, base: seq<real>) {
    |mix| >= SPLIT_DIM && |base| >= SPLIT_DIM && |scale| >= 3
  }

  /** `hc_split_sinkhorn_one` for four streams: input gates, output gates, then the mixer. */
  method Split(exp: real -> real, mix: seq<real>, scale: seq<real>, base: seq<real>, iters: nat, eps: real)
    returns (o: Option<seq<real>>)
    requires (forall x :: exp(x) > 0.0) && eps > 0.0
    ensures o.Some? <==> SplitFits(mix, scale, base)
    ensures o.Some? ==> |o.value| == SPLIT_DIM && o.value[8..] == Mixer(exp, mix, scale, base, iters, eps)
    ensures o.Some? ==> forall i :: 0 <= i < N_HC ==>
              o.value[i] == PreGate(exp, mix, scale, base, eps, i) && o.value[4 + i] == PostGate(exp, mix, scale, base, i)
  {
    if |scale| < 3 || |base| < SPLIT_DIM || |mix| < SPLIT_DIM {
      return None;
    }
    var pre, post := [], [];
    for i := 0 to N_HC
      invariant |pre| == i && forall j :: 0 <= j < i ==> pre[j] == PreGate(exp, mix, scale, base, eps, j)
    {
      pre := pre + [Sigmoid(exp, Times(mix[i], scale[0]) + base[i]) + eps];
    }
    for i := 0 to N_HC
      invariant |post| == i && forall j :: 0 <= j < i ==> post[j] == PostGate(exp, mix, scale, base, j)
    {
      var z := Times(mix[N_HC + i], scale[1]) + base[N_HC + i];
      post := post + [2.0 * Inv(1.0 + exp(-z))];
    }
    var c := Mix(exp, mix, scale, base, iters, eps);
    o := Some(pre + post + c);
  }

  method Mix(exp: real -> real, mix: seq<real>, scale: seq<real>, base: seq<real>, iters: nat, eps: real) returns (m: seq<real>)
    requires (forall x :: exp(x) > 0.0) && eps > 0.0 && SplitFits(mix, scale, base)
    ensures m == Mixer(exp, mix, scale, base, iters, eps)
  {
    var c := new real[CELLS](_ => 0.0);
    Start(exp, c, mix, scale, base, eps);
    StartIsPositive(exp, Affine(mix, scale, base), eps);
    ColsStayPositive(c[..], eps);
    ColumnsEndBelowOne(c[..], eps);
    ScaleCols(c, eps);
    Repeat(c, Rounds(iters), eps, c[..]);
    m := c[..];
  }

  // ---------------------------------------------------------------- what it means for the streams

  /** The residual part of an output entry. */
  function ResidualPart(comb: seq<real>, residual: seq<real>, n: nat, dst: nat, d: nat): real
    requires |comb| == CELLS && |residual| == N_HC * n && dst < N_HC && d < n
  {
    Times(comb[dst], residual[d]) + Times(comb[dst + 4], residual[n + d])
    + Times(comb[dst + 8], residual[2 * n + d]) + Times(comb[dst + 12], residual[3 * n + d])
  }

  lemma NonNegative(a: real, b: real)
    requires a >= 0.0 && b >= 0.0
    ensures a * b >= 0.0
  {
  }

  lemma WeightedBelow(w: real, x: real, m: real)
    requires w >= 0.0 && Abs(x) <= m
    ensures Abs(Times(w, x)) <= Times(w, m)
  {
    NonNegative(w, m - x);
    NonNegative(w, m + x);
    assert w * (m - x) == w * m - w * x && w * (m + x) == w * m + w * x;
  }

  lemma WeightsBelow(w0: real, w1: real, w2: real, w3: real, m: real)
    requires w0 + w1 + w2 + w3 <= 1.0 && m >= 0.0
    ensures Times(w0, m) + Times(w1, m) + Times(w2, m) + Times(w3, m) <= m
  {
    var w := w0 + w1 + w2 + w3;
    NonNegative(1.0 - w, m);
    assert (1.0 - w) * m == m - w * m;
    assert w * m == w0 * m + w1 * m + w2 * m + w3 * m;
  }

  lemma FourBelow(w0: real, w1: real, w2: real, w3: real, x0: real, x1: real, x2: real, x3: real, m: real)
    requires w0 > 0.0 && w1 > 0.0 && w2 > 0.0 && w3 > 0.0 && w0 + w1 + w2 + w3 < 1.0 && m >= 0.0
    requires Abs(x0) <= m && Abs(x1) <= m && Abs(x2) <= m && Abs(x3) <= m
    ensures Abs(Times(w0, x0) + Times(w1, x1) + Times(w2, x2) + Times(w3, x3)) <= m
  {
    WeightedBelow(w0, x0, m);
    WeightedBelow(w1, x1, m);
    WeightedBelow(w2, x2, m);
    WeightedBelow(w3, x3, m);
    WeightsBelow(w0, w1, w2, w3, m);
  }

  /**
   The columns of the split are the weights of one output stream in `hc_post_one`: its residual part
   never exceeds the largest of the input streams at that entry.
   */
  lemma ResidualNeverGrows(comb: Matrix, residual: seq<real>, n: nat, dst: nat, d: nat, m: real)
    requires Positive(comb) && ColumnsBelowOne(comb) && |residual| == N_HC * n && dst < N_HC && d < n
    requires m >= 0.0 && Abs(residual[d]) <= m && Abs(residual[n + d]) <= m
    requires Abs(residual[2 * n + d]) <= m && Abs(residual[3 * n + d]) <= m
    ensures Abs(ResidualPart(comb, residual, n, dst, d)) <= m
  {
    assert ColSum(comb, dst) < 1.0;
    FourBelow(comb[dst], comb[dst + 4], comb[dst + 8], comb[dst + 12],
              residual[d], residual[n + d], residual[2 * n + d], residual[3 * n + d], m);
  }

  /** The output of a block with a split's mixer: gated block output plus a bounded residual part. */
  lemma PostIsBounded(exp: real -> real, mix: seq<real>, scale: seq<real>, base: seq<real>, iters: nat, eps: real,
                      blockOut: seq<real>, residual: seq<real>, post: seq<real>, dst: nat, d: nat, m: real)
    requires SplitFits(mix, scale, base) && (forall x :: exp(x) > 0.0) && eps > 0.0
    requires PostFits(blockOut, residual, post, Mixer(exp, mix, scale, base, iters, eps)) && dst < N_HC && d < |blockOut|
    requires m >= 0.0 && forall i :: 0 <= i < |residual| ==> Abs(residual[i]) <= m
    ensures var n, out := |blockOut|, HcPost(blockOut, residual, post, Mixer(exp, mix, scale, base, iters, eps));
            out.Some? && dst * n + d < |residual| && Abs(out.value[dst * n + d] - blockOut[d] * post[dst]) <= m
  {
    var n, comb := |blockOut|, Mixer(exp, mix, scale, base, iters, eps);
    MixerIsBelowOne(exp, mix, scale, base, iters, eps);
    EntryIsBounded(comb, blockOut, residual, post, dst, d, m);
  }

  lemma EntryIsBounded(comb: Matrix, blockOut: seq<real>, residual: seq<real>, post: seq<real>, dst: nat, d: nat, m: real)
    requires Positive(comb) && ColumnsBelowOne(comb) && PostFits(blockOut, residual, post, comb) && dst < N_HC && d < |blockOut|
    requires m >= 0.0 && forall i :: 0 <= i < |residual| ==> Abs(residual[i]) <= m
    ensures dst * |blockOut| + d < |residual|
    ensures Abs(HcPost(blockOut, residual, post, comb).value[dst * |blockOut| + d] - blockOut[d] * post[dst]) <= m
  {
    var n := |blockOut|;
    StreamIndex(n, dst, d);
    var at := dst * n + d;
    ResidualNeverGrows(comb, residual, n, dst, d, m);
    var out := HcPost(blockOut, residual, post, comb).value;
    assert out[at] == PostCell(blockOut, residual, post, comb, at);
    EntrySplits(blockOut, residual, post, comb, n, dst, d);
  }

  lemma EntrySplits(blockOut: seq<real>, residual: seq<real>, post: seq<real>, comb: Matrix, n: nat, dst: nat, d: nat)
    requires |blockOut| == n && |residual| == N_HC * n && |post| == N_HC && dst < N_HC && d < n
    ensures PostEntry(blockOut, residual, post, comb, n, dst, d) == blockOut[d] * post[dst] + ResidualPart(comb, residual, n, dst, d)
  {
  }
}
