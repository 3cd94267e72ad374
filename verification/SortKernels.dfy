/** The three GPU kernels built on the bitonic network. */
module SortKernels {
  import opened Bits
  import opened BitonicNetwork
  import opened BitonicSorts

  /** The consecutive numbers i00, i00 + 1, ... of one thread group. */
  function Iota(i00: nat, n: nat): (s: seq<nat>)
    ensures |s| == n
  {
    seq(n, i requires 0 <= i < n => i00 + i)
  }

  // ---------------------------------------------------------------- descending score argsort

  /** The argsort kernel's exchange test; an index past the row is padding. */
  predicate ArgsortSwap(score: seq<real>, x: nat, y: nat, up: bool) {
    if up then x >= |score| || (y < |score| && score[x] < score[y])
    else y >= |score| || (x < |score| && score[x] > score[y])
  }

  /** Real indices by descending score, padding after them. */
  predicate ArgsortBefore(score: seq<real>, x: nat, y: nat) {
    y >= |score| || (x < |score| && score[x] >= score[y])
  }

  function ArgsortOrder(score: seq<real>, i00: nat, n: nat): (order: seq<nat>)
    ensures |order| == n
  {
    Network(Iota(i00, n), StageCount(n), (x, y, up) => ArgsortSwap(score, x, y, up))
  }

  /** One thread group of `kernel_argsort_f32_i32_desc`: block `ib` of the row, `ntg` threads. */
  method ArgsortBlock(score: seq<real>, ib: nat, ntg: nat, topK: nat, dst: array<nat>)
    modifies dst
    ensures forall d :: 0 <= d < dst.Length ==>
      dst[d] == if ib * topK <= d < ib * topK + topK && d - ib * topK < ntg
                then ArgsortOrder(score, ib * ntg, ntg)[d - ib * topK] else old(dst[d])
  {
    var i00 := ib * ntg;
    var shmem := new nat[ntg](col => i00 + col);
    assert shmem[..] == Iota(i00, ntg);
    RunNetwork(shmem, (x, y, up) => ArgsortSwap(score, x, y, up));
    CopyBlock(shmem[..], ib * topK, topK, dst);
  }

  /** The threads below `topK` write their entries, as far as the row goes. */
  method CopyBlock(order: seq<nat>, i0: nat, topK: nat, dst: array<nat>)
    modifies dst
    ensures forall d :: 0 <= d < dst.Length ==>
      dst[d] == if i0 <= d < i0 + topK && d - i0 < |order| then order[d - i0] else old(dst[d])
  {
    for col := 0 to |order|
      invariant forall d :: 0 <= d < dst.Length ==>
        dst[d] == if i0 <= d < i0 + topK && d - i0 < col then order[d - i0] else old(dst[d])
    {
      if i0 + col < dst.Length && col < topK {
        dst[i0 + col] := order[col];
      }
    }
  }

  /**
   For every power-of-two thread count and every row, the block leaves a permutation of its
   indices: real ones first, by descending score, and padding last.
   */
  lemma ArgsortOrderIsSorted(score: seq<real>, i00: nat, e: nat)
    ensures var order := ArgsortOrder(score, i00, Pow2(e));
            && multiset(order) == multiset(Iota(i00, Pow2(e)))
            && forall i, j :: 0 <= i < j < |order| && order[j] < |score| ==>
                 order[i] < |score| && score[order[i]] >= score[order[j]]
  {
    var swap := (x, y, up) => ArgsortSwap(score, x, y, up);
    var before := (x, y) => ArgsortBefore(score, x, y);
    NetworkPermutes(Iota(i00, Pow2(e)), StageCount(Pow2(e)), swap);
    NetworkSorts(Iota(i00, Pow2(e)), e, swap, before);
  }

  /** Indices with equal scores are not exchanged: a block of them keeps its order. */
  lemma EqualScoresStay(score: seq<real>, i00: nat, n: nat)
    requires i00 + n <= |score| && forall i :: i00 <= i < i00 + n ==> score[i] == score[i00]
    ensures forall i :: 0 <= i < n ==> ArgsortOrder(score, i00, n)[i] == i00 + i
  {
    NetworkKeeps(Iota(i00, n), StageCount(n), (x, y, up) => ArgsortSwap(score, x, y, up));
  }

  // ---------------------------------------------------------------- ascending row-id sort

  predicate RowSwap(x: int, y: int, up: bool) {
    (up && x > y) || (!up && x < y)
  }

  function SortedRow(row: seq<int>): (r: seq<int>)
    ensures |r| == |row|
  {
    Network(row, StageCount(|row|), RowSwap)
  }

  ghost predicate Ascending(row: seq<int>) {
    forall i, j :: 0 <= i < j < |row| ==> row[i] <= row[j]
  }

  /** `kernel_dsv4_sort_i32_rows_asc` on one token's row of `top_k` ids; `dst` may be `src`. */
  method SortRowAsc(src: array<int>, dst: array<int>)
    requires dst.Length == src.Length
    modifies dst
    ensures dst[..] == SortedRow(old(src[..]))
  {
    var tmp := new int[src.Length](tid requires 0 <= tid < src.Length reads src => src[tid]);
    assert tmp[..] == src[..];
    RunNetwork(tmp, RowSwap);
    forall tid | 0 <= tid < tmp.Length {
      dst[tid] := tmp[tid];
    }
    assert dst[..] == tmp[..];
  }

  ghost predicate IsPow2(n: nat) {
    exists e :: n == Pow2(e)
  }

  lemma RowSortPermutes(row: seq<int>)
    ensures multiset(SortedRow(row)) == multiset(row)
  {
    NetworkPermutes(row, StageCount(|row|), RowSwap);
  }

  lemma RowSortSorts(row: seq<int>)
    requires IsPow2(|row|)
    ensures Ascending(SortedRow(row))
  {
    var e :| |row| == Pow2(e);
    NetworkSorts(row, e, RowSwap, (x, y) => x <= y);
  }

  // ------------------------------------------------ the row sort needs a power of two

  /** The smallest id last, every other id equal: the row a network of odd width gets wrong. */
  function Witness(n: nat): (row: seq<int>)
    ensures |row| == n
  {
    seq(n, i => if i == n - 1 then 0 else 1)
  }

  ghost predicate OnesBelow(s: seq<int>, edge: nat) {
    edge <= |s| && forall i :: 0 <= i < edge ==> s[i] == 1
  }

  lemma {:induction false} StridesKeepOnes(s: seq<int>, k: nat, q: nat, e: nat)
    requires q < e && OnesBelow(s, Pow2(e))
    ensures OnesBelow(Strides(s, k, q, RowSwap), Pow2(e))
    decreases q
  {
    var r := Round(s, k, Pow2(q), RowSwap);
    forall i | 0 <= i < Pow2(e)
      ensures r[i] == 1
    {
      PartnerInRange(i, q, e);
    }
    if q == 0 {
    } else {
      StridesKeepOnes(r, k, q - 1, e);
    }
  }

  lemma {:induction false} NetworkKeepsOnes(s: seq<int>, p: nat, e: nat)
    requires p <= e && OnesBelow(s, Pow2(e))
    ensures OnesBelow(Network(s, p, RowSwap), Pow2(e))
  {
    if p == 0 {
    } else {
      NetworkKeepsOnes(s, p - 1, e);
      StridesKeepOnes(Network(s, p - 1, RowSwap), Pow2(p), p - 1, e);
    }
  }

  lemma {:induction false} StageCountFits(n: nat)
    requires n > 0
    ensures Pow2(StageCount(n)) <= n
  {
    if n < 2 {
    } else {
      StageCountFits(n / 2);
    }
  }

  lemma WitnessStaysUnsorted(n: nat)
    requires n > 0 && !IsPow2(n)
    ensures !Ascending(SortedRow(Witness(n)))
  {
    var e, row := StageCount(n), Witness(n);
    StageCountFits(n);
    assert Pow2(e) < n;
    NetworkKeepsOnes(row, e, e);
    RowSortPermutes(row);
    assert row[n - 1] == 0;
    assert 0 in multiset(SortedRow(row));
    var z :| 0 <= z < n && SortedRow(row)[z] == 0;
    assert SortedRow(row)[0] == 1;
  }

  /** The row sort is right on every row of `n` ids exactly when `n` is a power of two (or zero). */
  lemma RowSortExact(n: nat)
    ensures (forall row: seq<int> :: |row| == n ==> Ascending(SortedRow(row))) <==> n == 0 || IsPow2(n)
  {
    if n == 0 || IsPow2(n) {
      forall row: seq<int> | |row| == n
        ensures Ascending(SortedRow(row))
      {
        if n > 0 {
          RowSortSorts(row);
        }
      }
    } else {
      WitnessStaysUnsorted(n);
    }
  }
}
