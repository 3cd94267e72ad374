/** Why the network sorts: thresholds, and rows of bits. */
module BitonicSorts {
  // Cutting the order at any pivot turns the cells into bits, the rounds commute with the cut, and the
  // network sorts every row of bits.

  import opened Bits
  import opened BitonicNetwork

  ghost predicate TotalPreorder<T(!new)>(before: (T, T) -> bool) {
    && (forall x, y :: before(x, y) || before(y, x))
    && (forall x, y, z :: before(x, y) && before(y, z) ==> before(x, z))
  }

  /** `swap` leaves the greater entry first where `up`, last otherwise; ties may go either way. */
  ghost predicate Honours<T(!new)>(swap: Swap<T>, before: (T, T) -> bool) {
    forall x, y, up :: if swap(x, y, up) == up then before(y, x) else before(x, y)
  }

  ghost predicate Descending<T(!new)>(s: seq<T>, before: (T, T) -> bool) {
    forall i, j :: 0 <= i < j < |s| ==> before(s[i], s[j])
  }

  // ---------------------------------------------------------------- cutting at a pivot

  predicate BitSwap(x: bool, y: bool, up: bool) {
    if up then !x && y else x && !y
  }

  ghost function Cut<T>(s: seq<T>, before: (T, T) -> bool, pivot: T): (b: seq<bool>)
    ensures |b| == |s|
  {
    seq(|s|, i requires 0 <= i < |s| => before(s[i], pivot))
  }

  lemma RoundCommutesWithCut<T(!new)>(s: seq<T>, k: nat, q: nat, swap: Swap<T>, before: (T, T) -> bool, pivot: T)
    requires TotalPreorder(before) && Honours(swap, before)
    ensures Cut(Round(s, k, Pow2(q), swap), before, pivot) == Round(Cut(s, before, pivot), k, Pow2(q), BitSwap)
  {
    var b := Cut(s, before, pivot);
    forall i: nat | i < |s|
      ensures before(Cell(s, k, Pow2(q), swap, i), pivot) == Cell(b, k, Pow2(q), BitSwap, i)
    {
      PartnersAreMutual(i, q);
    }
  }

  lemma {:induction false} StridesCommuteWithCut<T(!new)>(s: seq<T>, k: nat, q: nat, swap: Swap<T>, before: (T, T) -> bool, pivot: T)
    requires TotalPreorder(before) && Honours(swap, before)
    ensures Cut(Strides(s, k, q, swap), before, pivot) == Strides(Cut(s, before, pivot), k, q, BitSwap)
    decreases q
  {
    RoundCommutesWithCut(s, k, q, swap, before, pivot);
    if q == 0 {
    } else {
      StridesCommuteWithCut(Round(s, k, Pow2(q), swap), k, q - 1, swap, before, pivot);
    }
  }

  lemma {:induction false} NetworkCommutesWithCut<T(!new)>(s: seq<T>, p: nat, swap: Swap<T>, before: (T, T) -> bool, pivot: T)
    requires TotalPreorder(before) && Honours(swap, before)
    ensures Cut(Network(s, p, swap), before, pivot) == Network(Cut(s, before, pivot), p, BitSwap)
  {
    if p == 0 {
    } else {
      NetworkCommutesWithCut(s, p - 1, swap, before, pivot);
      StridesCommuteWithCut(Network(s, p - 1, swap), Pow2(p), p - 1, swap, before, pivot);
    }
  }

  // ---------------------------------------------------------------- rows of bits

  /** Cells `lo..hi` all hold `v`. */
  ghost predicate Constant(b: seq<bool>, lo: nat, hi: nat, v: bool) {
    hi <= |b| && forall i :: lo <= i < hi ==> b[i] == v
  }

  /** Cells `lo..hi` read v...v !v...!v v...v, with the inner run at `x..y`. */
  ghost predicate Humped(b: seq<bool>, lo: nat, x: nat, y: nat, hi: nat, v: bool) {
    lo <= x <= y <= hi && Constant(b, lo, x, v) && Constant(b, x, y, !v) && Constant(b, y, hi, v)
  }

  ghost predicate Bitonic(b: seq<bool>, lo: nat, hi: nat) {
    exists x, y, v :: Humped(b, lo, x, y, hi, v)
  }

  /** Cells `lo..hi` are sorted: set bits first when `up`, last otherwise. */
  ghost predicate SortedBits(b: seq<bool>, lo: nat, hi: nat, up: bool) {
    hi <= |b| && forall i, j :: lo <= i <= j < hi ==> if b[i] == up then true else b[j] != up
  }

  ghost predicate Direction(lo: nat, hi: nat, p: nat, up: bool) {
    forall i: nat :: lo <= i < hi ==> Clear(i, p) == up
  }

  /** `r` is `b` with cells `i` and `i + m` compared, for the `2 * m` cells from `lo`. */
  ghost predicate HalfCleaned(b: seq<bool>, r: seq<bool>, lo: nat, m: nat, up: bool) {
    |r| == |b| && lo + 2 * m <= |b|
    && (forall i {:trigger r[i]} :: lo <= i < lo + m ==> r[i] == if up then b[i] || b[i + m] else b[i] && b[i + m])
    && (forall i {:trigger r[i]} :: lo + m <= i < lo + 2 * m ==> r[i] == if up then b[i] && b[i - m] else b[i] || b[i - m])
  }

  ghost predicate Met(b: seq<bool>, r: seq<bool>, i: nat, m: nat, up: bool)
    requires i + m < |b| == |r|
  {
    r[i] == (if up then b[i] || b[i + m] else b[i] && b[i + m])
    && r[i + m] == (if up then b[i] && b[i + m] else b[i] || b[i + m])
  }

  lemma PairMeets(b: seq<bool>, lo: nat, p: nat, q: nat, up: bool, i: nat)
    requires Aligned(lo, q + 1) && lo + 2 * Pow2(q) <= |b| && Direction(lo, lo + 2 * Pow2(q), p, up)
    requires lo <= i < lo + Pow2(q)
    ensures Met(b, Round(b, Pow2(p), Pow2(q), BitSwap), i, Pow2(q), up)
  {
    BlockPairs(lo, q, i);
    AndTestsDigit(i, p);
    assert Clear(i, p) == up;
  }

  lemma AllMet(b: seq<bool>, r: seq<bool>, lo: nat, m: nat, up: bool)
    requires |r| == |b| && lo + 2 * m <= |b|
    requires forall i :: lo <= i < lo + m ==> Met(b, r, i, m, up)
    ensures HalfCleaned(b, r, lo, m, up)
  {
    forall i {:trigger r[i]} | lo <= i < lo + m
      ensures r[i] == if up then b[i] || b[i + m] else b[i] && b[i + m]
    {
      assert Met(b, r, i, m, up);
    }
    forall i {:trigger r[i]} | lo + m <= i < lo + 2 * m
      ensures r[i] == if up then b[i] && b[i - m] else b[i] || b[i - m]
    {
      assert Met(b, r, i - m, m, up);
    }
  }

  lemma RoundHalfCleans(b: seq<bool>, lo: nat, p: nat, q: nat, up: bool)
    requires Aligned(lo, q + 1) && lo + 2 * Pow2(q) <= |b| && Direction(lo, lo + 2 * Pow2(q), p, up)
    ensures HalfCleaned(b, Round(b, Pow2(p), Pow2(q), BitSwap), lo, Pow2(q), up)
  {
    var r := Round(b, Pow2(p), Pow2(q), BitSwap);
    forall i | lo <= i < lo + Pow2(q)
      ensures Met(b, r, i, Pow2(q), up)
    {
      PairMeets(b, lo, p, q, up, i);
    }
    AllMet(b, r, lo, Pow2(q), up);
  }

  lemma {:induction false} ConstantStays(b: seq<bool>, lo: nat, p: nat, q: nat, up: bool, v: bool)
    requires Aligned(lo, q + 1) && Constant(b, lo, lo + 2 * Pow2(q), v) && Direction(lo, lo + 2 * Pow2(q), p, up)
    ensures Constant(Strides(b, Pow2(p), q, BitSwap), lo, lo + 2 * Pow2(q), v)
    decreases q
  {
    var m, r := Pow2(q), Round(b, Pow2(p), Pow2(q), BitSwap);
    RoundHalfCleans(b, lo, p, q, up);
    if q == 0 {
    } else {
      HalvesAligned(lo, q);
      ConstantStays(r, lo, p, q - 1, up, v);
      ConstantStays(r, lo + m, p, q - 1, up, v);
    }
  }

  /** After the half-cleaner one half is constant, the other bitonic, and they are in order. */
  lemma HalfCleanedSplits(b: seq<bool>, r: seq<bool>, lo: nat, m: nat, up: bool)
    requires HalfCleaned(b, r, lo, m, up) && Bitonic(b, lo, lo + 2 * m)
    ensures || (Constant(r, lo, lo + m, up) && Bitonic(r, lo + m, lo + 2 * m))
            || (Bitonic(r, lo, lo + m) && Constant(r, lo + m, lo + 2 * m, !up))
  {
    var x: nat, y: nat, v: bool :| Humped(b, lo, x, y, lo + 2 * m, v);
    if v == up {
      var x', y', v' := HumpGoesLast(b, r, lo, x, y, m, up);
    } else {
      var x', y', v' := HumpGoesFirst(b, r, lo, x, y, m, up);
    }
  }

  lemma HumpGoesLast(b: seq<bool>, r: seq<bool>, lo: nat, x: nat, y: nat, m: nat, up: bool)
    returns (x': nat, y': nat, v': bool)
    requires HalfCleaned(b, r, lo, m, up) && Humped(b, lo, x, y, lo + 2 * m, up)
    ensures (Constant(r, lo, lo + m, up) && Humped(r, lo + m, x', y', lo + 2 * m, v'))
            || (Humped(r, lo, x', y', lo + m, v') && Constant(r, lo + m, lo + 2 * m, !up))
  {
    if y <= lo + m {
      x', y', v' := x + m, y + m, up;
    } else if x >= lo + m {
      x', y', v' := x, y, up;
    } else if y - m <= x {
      x', y', v' := y, x + m, !up;
    } else {
      x', y', v' := x, y - m, up;
    }
  }

  lemma HumpGoesFirst(b: seq<bool>, r: seq<bool>, lo: nat, x: nat, y: nat, m: nat, up: bool)
    returns (x': nat, y': nat, v': bool)
    requires HalfCleaned(b, r, lo, m, up) && Humped(b, lo, x, y, lo + 2 * m, !up)
    ensures (Constant(r, lo, lo + m, up) && Humped(r, lo + m, x', y', lo + 2 * m, v'))
            || (Humped(r, lo, x', y', lo + m, v') && Constant(r, lo + m, lo + 2 * m, !up))
  {
    if y <= lo + m {
      x', y', v' := x, y, !up;
    } else if x >= lo + m {
      x', y', v' := x - m, y - m, !up;
    } else if y - m <= x {
      x', y', v' := y - m, x, up;
    } else {
      x', y', v' := x + m, y, !up;
    }
  }

  /** The inner loop sorts every bitonic block. */
  lemma {:induction false} StridesSortBitonic(b: seq<bool>, lo: nat, p: nat, q: nat, up: bool)
    requires Aligned(lo, q + 1) && Direction(lo, lo + 2 * Pow2(q), p, up)
    requires lo + 2 * Pow2(q) <= |b| && Bitonic(b, lo, lo + 2 * Pow2(q))
    ensures SortedBits(Strides(b, Pow2(p), q, BitSwap), lo, lo + 2 * Pow2(q), up)
    decreases q
  {
    var m, r := Pow2(q), Round(b, Pow2(p), Pow2(q), BitSwap);
    RoundHalfCleans(b, lo, p, q, up);
    HalfCleanedSplits(b, r, lo, m, up);
    HalvesAligned(lo, q);
    if q == 0 {
    } else {
      if Constant(r, lo, lo + m, up) && Bitonic(r, lo + m, lo + 2 * m) {
        StridesSortBitonic(r, lo + m, p, q - 1, up);
        FirstHalfStays(r, lo, p, q - 1, m, up);
      } else {
        StridesSortBitonic(r, lo, p, q - 1, up);
        SecondHalfStays(r, lo, p, q - 1, m, up);
      }
    }
  }

  /** One half is constant, the other gets sorted: the block is sorted. */
  lemma FirstHalfStays(r: seq<bool>, lo: nat, p: nat, q: nat, m: nat, up: bool)
    requires m == 2 * Pow2(q) && Aligned(lo, q + 1) && Direction(lo, lo + 2 * m, p, up) && Constant(r, lo, lo + m, up)
    requires SortedBits(Strides(r, Pow2(p), q, BitSwap), lo + m, lo + 2 * m, up)
    ensures SortedBits(Strides(r, Pow2(p), q, BitSwap), lo, lo + 2 * m, up)
  {
    ConstantStays(r, lo, p, q, up, up);
    JoinSorted(Strides(r, Pow2(p), q, BitSwap), lo, lo + m, lo + 2 * m, up);
  }

  lemma SecondHalfStays(r: seq<bool>, lo: nat, p: nat, q: nat, m: nat, up: bool)
    requires m == 2 * Pow2(q) && Aligned(lo + m, q + 1) && Direction(lo, lo + 2 * m, p, up) && Constant(r, lo + m, lo + 2 * m, !up)
    requires SortedBits(Strides(r, Pow2(p), q, BitSwap), lo, lo + m, up)
    ensures SortedBits(Strides(r, Pow2(p), q, BitSwap), lo, lo + 2 * m, up)
  {
    ConstantStays(r, lo + m, p, q, up, !up);
    JoinSorted(Strides(r, Pow2(p), q, BitSwap), lo, lo + m, lo + 2 * m, up);
  }

  lemma JoinSorted(s: seq<bool>, lo: nat, mid: nat, hi: nat, up: bool)
    requires lo <= mid <= hi
    requires || (Constant(s, lo, mid, up) && SortedBits(s, mid, hi, up))
             || (SortedBits(s, lo, mid, up) && Constant(s, mid, hi, !up))
    ensures SortedBits(s, lo, hi, up)
  {
  }

  lemma BlockDirection(lo: nat, p: nat)
    requires Aligned(lo, p)
    ensures Direction(lo, lo + Pow2(p), p, Clear(lo, p))
  {
    forall i: nat | lo <= i < lo + Pow2(p)
      ensures Clear(i, p) == Clear(lo, p)
    {
      DigitAboveBlock(p, lo, i - lo);
    }
  }

  /** After stage `p` every aligned block of width `2^p` is sorted, upwards or downwards by turns. */
  lemma {:induction false} NetworkSortsBlocks(b: seq<bool>, p: nat, lo: nat)
    requires Aligned(lo, p) && lo + Pow2(p) <= |b|
    ensures SortedBits(Network(b, p, BitSwap), lo, lo + Pow2(p), Clear(lo, p))
    decreases p
  {
    if p == 0 {
    } else {
      var m, b' := Pow2(p - 1), Network(b, p - 1, BitSwap);
      HalvesAligned(lo, p - 1);
      NetworkSortsBlocks(b, p - 1, lo);
      NetworkSortsBlocks(b, p - 1, lo + m);
      UpThenDownIsBitonic(b', lo, lo + m, lo + 2 * m);
      BlockDirection(lo, p);
      StridesSortBitonic(b', lo, p, p - 1, Clear(lo, p));
    }
  }

  /** The first cell from `lo` on that differs from `v`. */
  ghost function RunEnd(b: seq<bool>, lo: nat, hi: nat, v: bool): (x: nat)
    requires lo <= hi <= |b|
    ensures lo <= x <= hi && Constant(b, lo, x, v) && (x < hi ==> b[x] != v)
    decreases hi - lo
  {
    if lo == hi || b[lo] != v then lo else RunEnd(b, lo + 1, hi, v)
  }

  lemma UpThenDownIsBitonic(b: seq<bool>, lo: nat, mid: nat, hi: nat)
    requires lo <= mid <= hi && SortedBits(b, lo, mid, true) && SortedBits(b, mid, hi, false)
    ensures Bitonic(b, lo, hi)
  {
    assert Humped(b, lo, RunEnd(b, lo, mid, true), RunEnd(b, mid, hi, false), hi, true);
  }

  // ---------------------------------------------------------------- the sorting theorem

  lemma AtEveryPivot<T(!new)>(r: seq<T>, before: (T, T) -> bool, i: nat, j: nat)
    requires i < j < |r| && TotalPreorder(before) && SortedBits(Cut(r, before, r[j]), 0, |r|, true)
    ensures before(r[i], r[j])
  {
    var b := Cut(r, before, r[j]);
    assert b[j] && b[i];
  }

  /** For every power-of-two width, every row and every total preorder, the network sorts. */
  lemma NetworkSorts<T(!new)>(s: seq<T>, e: nat, swap: Swap<T>, before: (T, T) -> bool)
    requires |s| == Pow2(e) && TotalPreorder(before) && Honours(swap, before)
    ensures Descending(Network(s, StageCount(|s|), swap), before)
  {
    StageCountOfPow2(e);
    var r := Network(s, e, swap);
    forall i, j | 0 <= i < j < |s|
      ensures before(r[i], r[j])
    {
      NetworkCommutesWithCut(s, e, swap, before, r[j]);
      ZeroAligned(e);
      NetworkSortsBlocks(Cut(s, before, r[j]), e, 0);
      AtEveryPivot(r, before, i, j);
    }
  }
}
