/** The in-place Hadamard butterfly, for any power-of-two width. */
module Hadamard {
  import opened Bits
  import opened BitonicNetwork

  type Vec = seq<real>

  /** Entry `i` of the Hadamard transform of cells `lo..lo + 2^e`. */
  function HadAt(x: Vec, lo: nat, e: nat, i: nat): real
    requires lo + Pow2(e) <= |x| && i < Pow2(e)
    decreases e
  {
    if e == 0 then x[lo]
    else
      var m := Pow2(e - 1);
      if i < m then HadAt(x, lo, e - 1, i) + HadAt(x, lo + m, e - 1, i)
      else HadAt(x, lo, e - 1, i - m) - HadAt(x, lo + m, e - 1, i - m)
  }

  /** The Hadamard transform of width `2^e`. */
  function Had(x: Vec, e: nat): (r: Vec)
    requires |x| == Pow2(e)
    ensures |r| == |x|
  {
    seq(|x|, i requires 0 <= i < |x| => HadAt(x, 0, e, i))
  }

  // ---------------------------------------------------------------- the kernel's rounds

  /** Cell `i` after the round at stride `j`. */
  function ButterflyCell(s: Vec, j: nat, i: nat): real
    requires i < |s|
  {
    var o := Xor(i, j);
    if o >= |s| then s[i] else if o > i then s[i] + s[o] else s[o] - s[i]
  }

  function ButterflyRound(s: Vec, j: nat): (r: Vec)
    ensures |r| == |s|
  {
    seq(|s|, i requires 0 <= i < |s| => ButterflyCell(s, j, i))
  }

  ghost predicate MidButterfly(s: Vec, cur: Vec, j: nat, waiting: set<nat>) {
    |cur| == |s|
    && forall i: nat :: i < |s| ==> cur[i] == if Owner(i, j) in waiting then s[i] else ButterflyCell(s, j, i)
  }

  /** The kernel's base index: `tid & ~(2*stride - 1)` plus `tid & (stride - 1)`. */
  function Base(tid: nat, stride: nat): int
    requires stride > 0
  {
    tid - And(tid, 2 * stride - 1) + And(tid, stride - 1)
  }

  lemma {:induction false} BaseOfClear(tid: nat, q: nat)
    requires Clear(tid, q)
    ensures And(tid, 2 * Pow2(q) - 1) == And(tid, Pow2(q) - 1)
    decreases q
  {
    if q == 0 {
      AndZero(tid);
      AndZero(tid / 2);
    } else {
      BaseOfClear(tid / 2, q - 1);
      var w := Pow2(q - 1);
      assert (2 * Pow2(q) - 1) / 2 == 2 * w - 1 && (Pow2(q) - 1) / 2 == w - 1;
    }
  }

  /** What thread `tid` does in one round: nothing, or one butterfly. */
  function Turn(s: Vec, j: nat, tid: nat): (r: Vec)
    requires tid < |s|
    ensures |r| == |s|
  {
    if And(tid, j) == 0 && tid + j < |s| then
      s[tid := s[tid] + s[tid + j]][tid + j := s[tid] - s[tid + j]]
    else s
  }

  /** The turn on its own two cells, and on every other cell. */
  lemma TurnAt(cur: Vec, q: nat, tid: nat, i: nat)
    requires tid < |cur| && i < |cur|
    ensures var j := Pow2(q);
            Turn(cur, j, tid)[i] ==
            if Owner(i, j) != tid || Xor(i, j) >= |cur| then cur[i]
            else if i == tid then cur[i] + cur[Xor(i, j)] else cur[Xor(i, j)] - cur[i]
  {
    AndTestsDigit(tid, q);
    XorFlipsDigit(tid, q);
    XorFlipsDigit(i, q);
    PartnersAreMutual(i, q);
    PartnersAreMutual(tid, q);
  }

  lemma TurnAdvances(s: Vec, cur: Vec, q: nat, waiting: set<nat>, tid: nat)
    requires MidButterfly(s, cur, Pow2(q), waiting) && tid in waiting && tid < |s|
    ensures MidButterfly(s, Turn(cur, Pow2(q), tid), Pow2(q), waiting - {tid})
  {
    var j := Pow2(q);
    var next := Turn(cur, j, tid);
    forall i: nat | i < |s|
      ensures next[i] == if Owner(i, j) in waiting - {tid} then s[i] else ButterflyCell(s, j, i)
    {
      TurnAt(cur, q, tid, i);
      PartnersAreMutual(i, q);
      SameOwner(i, q);
    }
  }

  lemma SameOwner(i: nat, q: nat)
    ensures Owner(Xor(i, Pow2(q)), Pow2(q)) == Owner(i, Pow2(q))
  {
    PartnersAreMutual(i, q);
  }

  /** One thread's turn in a round. */
  method RunThread(vals: array<real>, stride: nat, tid: nat, ghost q: nat)
    requires stride == Pow2(q) && tid < vals.Length && Xor(tid, stride) < vals.Length
    modifies vals
    ensures vals[..] == Turn(old(vals[..]), stride, tid)
  {
    AndTestsDigit(tid, q);
    XorFlipsDigit(tid, q);
    if And(tid, stride) == 0 {
      BaseOfClear(tid, q);
      var base := Base(tid, stride);
      var a, b := vals[base], vals[base + stride];
      vals[base] := a + b;
      vals[base + stride] := a - b;
    }
  }

  /** One round, its threads in any order. */
  method RunButterflyRound(vals: array<real>, stride: nat, ghost q: nat)
    requires stride == Pow2(q)
    requires forall i: nat :: i < vals.Length ==> Xor(i, stride) < vals.Length
    modifies vals
    ensures vals[..] == ButterflyRound(old(vals[..]), stride)
  {
    ghost var s := vals[..];
    var waiting := Threads(vals.Length);
    while waiting != {}
      invariant waiting <= Threads(vals.Length) && MidButterfly(s, vals[..], stride, waiting)
      decreases |waiting|
    {
      var tid :| tid in waiting;
      TurnAdvances(s, vals[..], q, waiting, tid);
      RunThread(vals, stride, tid, q);
      waiting := waiting - {tid};
    }
  }

  lemma {:induction false} Pow2Grows(q: nat, e: nat)
    requires q < e
    ensures Pow2(q) < Pow2(e)
  {
    if q + 1 == e {
    } else {
      Pow2Grows(q, e - 1);
    }
  }

  lemma CellInBlock(h: Vec, q: nat, lo: nat, i: nat)
    requires Aligned(lo, q + 1) && lo + 2 * Pow2(q) <= |h| && i < Pow2(q)
    ensures var m, r := Pow2(q), ButterflyRound(h, Pow2(q));
            r[lo + i] == h[lo + i] + h[lo + i + m] && r[lo + i + m] == h[lo + i] - h[lo + i + m]
  {
    BlockPairs(lo, q, lo + i);
  }

  /** Cell `lo + i` of `h` is entry `i` of the transform of block `lo` of `s`. */
  predicate BlockDone(s: Vec, h: Vec, lo: nat, q: nat, i: nat)
    requires lo + Pow2(q) <= |s| == |h| && i < Pow2(q)
  {
    h[lo + i] == HadAt(s, lo, q, i)
  }

  /** Every aligned block of width `2^q` is transformed. */
  ghost predicate AllDone(s: Vec, h: Vec, q: nat) {
    |h| == |s|
    && forall lo: nat, i: nat :: Aligned(lo, q) && lo + Pow2(q) <= |s| && i < Pow2(q) ==> BlockDone(s, h, lo, q, i)
  }

  lemma HadOfHalves(s: Vec, h: Vec, q: nat, lo: nat, lo': nat, i: nat)
    requires Aligned(lo, q + 1) && lo' == lo + Pow2(q) && lo' + Pow2(q) <= |s| == |h| && i < Pow2(q)
    requires BlockDone(s, h, lo, q, i) && BlockDone(s, h, lo', q, i)
    ensures var r := ButterflyRound(h, Pow2(q));
            BlockDone(s, r, lo, q + 1, i) && BlockDone(s, r, lo, q + 1, i + Pow2(q))
  {
    CellInBlock(h, q, lo, i);
  }

  /** A round at stride `2^q` joins transformed blocks into blocks of twice the width. */
  lemma RoundDoubles(s: Vec, h: Vec, q: nat)
    requires AllDone(s, h, q)
    ensures AllDone(s, ButterflyRound(h, Pow2(q)), q + 1)
  {
    var r, q' := ButterflyRound(h, Pow2(q)), q + 1;
    forall lo: nat, i: nat | Aligned(lo, q') && lo + Pow2(q') <= |s| && i < Pow2(q')
      ensures BlockDone(s, r, lo, q', i)
    {
      HalvesAligned(lo, q);
      HadOfHalves(s, h, q, lo, lo + Pow2(q), if i < Pow2(q) then i else i - Pow2(q));
    }
  }

  /** The whole butterfly computes the Hadamard transform, whatever the thread order. */
  method Butterfly(vals: array<real>, ghost e: nat)
    requires vals.Length == Pow2(e)
    modifies vals
    ensures vals[..] == Had(old(vals[..]), e)
  {
    ghost var s := vals[..];
    var stride := 1;
    ghost var q := 0;
    while stride < vals.Length
      invariant q <= e && stride == Pow2(q) && AllDone(s, vals[..], q)
      decreases vals.Length - stride
    {
      forall i: nat | i < vals.Length
        ensures Xor(i, stride) < vals.Length
      {
        PartnerInRange(i, q, e);
      }
      RoundDoubles(s, vals[..], q);
      RunButterflyRound(vals, stride, q);
      stride := stride * 2;
      q := q + 1;
    }
    if q < e {
      Pow2Grows(q, e);
    }
    ZeroAligned(e);
    forall i: nat | i < vals.Length
      ensures vals[i] == HadAt(s, 0, e, i)
    {
      assert BlockDone(s, vals[..], 0, e, i);
    }
  }

  // ---------------------------------------------------------------- what the transform is

  /** Cell `p + i` of `u` is the sum (or difference) of its counterparts in `v` and `w`. */
  predicate Combined(u: Vec, p: nat, v: Vec, q: nat, w: Vec, r: nat, plus: bool, i: nat)
    requires p + i < |u| && q + i < |v| && r + i < |w|
  {
    u[p + i] == if plus then v[q + i] + w[r + i] else v[q + i] - w[r + i]
  }

  /** The transform is linear. */
  lemma {:induction false} HadLinear(u: Vec, p: nat, v: Vec, q: nat, w: Vec, r: nat, plus: bool, e: nat, i: nat)
    requires p + Pow2(e) <= |u| && q + Pow2(e) <= |v| && r + Pow2(e) <= |w| && i < Pow2(e)
    requires forall k: nat :: k < Pow2(e) ==> Combined(u, p, v, q, w, r, plus, k)
    ensures HadAt(u, p, e, i) == if plus then HadAt(v, q, e, i) + HadAt(w, r, e, i) else HadAt(v, q, e, i) - HadAt(w, r, e, i)
    decreases e
  {
    if e == 0 {
      assert Combined(u, p, v, q, w, r, plus, 0);
    } else {
      var m := Pow2(e - 1);
      var l := if i < m then i else i - m;
      var p', q', r' := p + m, q + m, r + m;
      forall k: nat | k < m
        ensures Combined(u, p', v, q', w, r', plus, k)
      {
        assert Combined(u, p, v, q, w, r, plus, m + k);
      }
      HadLinear(u, p, v, q, w, r, plus, e - 1, l);
      HadLinear(u, p', v, q', w, r', plus, e - 1, l);
    }
  }

  /** Cell `p + i` of `h` is entry `i` of the transform of the cells of `x` from `lo` on. */
  predicate HoldsAt(h: Vec, p: nat, x: Vec, lo: nat, e: nat, i: nat)
    requires p + i < |h| && lo + Pow2(e) <= |x| && i < Pow2(e)
  {
    h[p + i] == HadAt(x, lo, e, i)
  }

  /** A transform is the sum and the difference of the transforms of its halves. */
  lemma HalvesCombine(h: Vec, p: nat, p': nat, x: Vec, lo: nat, lo': nat, e: nat, a: Vec, b: Vec, k: nat)
    requires p' == p + Pow2(e) && p' + Pow2(e) <= |h| && lo' == lo + Pow2(e) && lo' + Pow2(e) <= |x|
    requires |a| == |b| == Pow2(e) && k < Pow2(e)
    requires HoldsAt(h, p, x, lo, e + 1, k) && HoldsAt(h, p, x, lo, e + 1, Pow2(e) + k)
    requires HoldsAt(a, 0, x, lo, e, k) && HoldsAt(b, 0, x, lo', e, k)
    ensures Combined(h, p, a, 0, b, 0, true, k) && Combined(h, p', a, 0, b, 0, false, k)
  {
  }

  /** Transforming a transform gives the width times the input, entry by entry. */
  lemma {:induction false} HadOfHad(h: Vec, p: nat, x: Vec, lo: nat, e: nat, i: nat)
    requires p + Pow2(e) <= |h| && lo + Pow2(e) <= |x| && i < Pow2(e)
    requires forall k: nat :: k < Pow2(e) ==> HoldsAt(h, p, x, lo, e, k)
    ensures HadAt(h, p, e, i) == Doubled(x[lo + i], e)
    decreases 2 * e
  {
    if e == 0 {
      assert HoldsAt(h, p, x, lo, e, 0);
    } else {
      var m := Pow2(e - 1);
      var p', lo' := p + m, lo + m;
      var a := seq(m, k requires 0 <= k < m => HadAt(x, lo, e - 1, k));
      var b := seq(m, k requires 0 <= k < m => HadAt(x, lo', e - 1, k));
      var e' := e - 1;
      assert forall k: nat :: k < m ==> HoldsAt(a, 0, x, lo, e', k);
      assert forall k: nat :: k < m ==> HoldsAt(b, 0, x, lo', e', k);
      forall k: nat | k < m
        ensures Combined(h, p, a, 0, b, 0, true, k) && Combined(h, p', a, 0, b, 0, false, k)
      {
        HalvesCombine(h, p, p', x, lo, lo', e - 1, a, b, k);
      }
      HadOfHadHalves(h, p, p', x, lo, lo', e - 1, a, b, if i < m then i else i - m);
    }
  }

  lemma HadOfHadHalves(h: Vec, p: nat, p': nat, x: Vec, lo: nat, lo': nat, e: nat, a: Vec, b: Vec, l: nat)
    requires p' == p + Pow2(e) && p' + Pow2(e) <= |h| && lo' == lo + Pow2(e) && lo' + Pow2(e) <= |x|
    requires |a| == |b| == Pow2(e) && l < Pow2(e)
    requires forall k: nat :: k < Pow2(e) ==> HoldsAt(a, 0, x, lo, e, k)
    requires forall k: nat :: k < Pow2(e) ==> HoldsAt(b, 0, x, lo', e, k)
    requires forall k: nat :: k < Pow2(e) ==> Combined(h, p, a, 0, b, 0, true, k)
    requires forall k: nat :: k < Pow2(e) ==> Combined(h, p', a, 0, b, 0, false, k)
    ensures HadAt(h, p, e, l) == Doubled(x[lo + l], e) + Doubled(x[lo' + l], e)
    ensures HadAt(h, p', e, l) == Doubled(x[lo + l], e) - Doubled(x[lo' + l], e)
    decreases 2 * e + 1
  {
    HadOfHad(a, 0, x, lo, e, l);
    HadOfHad(b, 0, x, lo', e, l);
    HadLinear(h, p, a, 0, b, 0, true, e, l);
    HadLinear(h, p', a, 0, b, 0, false, e, l);
  }

  /** `x` doubled `e` times. */
  function Doubled(x: real, e: nat): real {
    if e == 0 then x else Doubled(x, e - 1) + Doubled(x, e - 1)
  }

  lemma {:induction false} DoubledIsProduct(x: real, e: nat)
    ensures Doubled(x, e) == (Pow2(e) as real) * x
  {
    if e == 0 {
    } else {
      DoubledIsProduct(x, e - 1);
    }
  }

  lemma HadTwiceDoubles(x: Vec, h: Vec, e: nat, i: nat)
    requires |x| == Pow2(e) && h == Had(x, e) && i < |x|
    ensures HadAt(h, 0, e, i) == Doubled(x[i], e)
  {
    assert forall k: nat :: k < Pow2(e) ==> HoldsAt(h, 0, x, 0, e, k);
    HadOfHad(h, 0, x, 0, e, i);
    assert x[0 + i] == x[i];
  }

  /** Applied twice, the transform gives the width times the input. */
  lemma HadTwice(x: Vec, h: Vec, e: nat, i: nat)
    requires |x| == Pow2(e) && h == Had(x, e) && i < |x|
    ensures Had(h, e)[i] == (Pow2(e) as real) * x[i]
  {
    HadTwiceDoubles(x, h, e, i);
    DoubledIsProduct(x[i], e);
    assert Had(h, e)[i] == HadAt(h, 0, e, i);
  }

  // ------------------------------------------------ as a signed sum

  /** An odd number of places hold a one in both `i` and `k`. */
  predicate MeetOddly(i: nat, k: nat)
    decreases i
  {
    i != 0 && (i % 2 == 1 && k % 2 == 1) != MeetOddly(i / 2, k / 2)
  }

  /** `x` with the sign of entry (i, k) of the Hadamard matrix. */
  function Signed(i: nat, k: nat, x: real): real {
    if MeetOddly(i, k) then -x else x
  }

  /** Sum of Signed(i, k, x[lo + k]) over `n` inputs, `k` counted from `from`. */
  function SignedSum(x: Vec, lo: nat, n: nat, i: nat, from: nat): real
    requires lo + n <= |x|
  {
    if n == 0 then 0.0 else SignedSum(x, lo, n - 1, i, from) + Signed(i, from + n - 1, x[lo + n - 1])
  }

  /** Digits at and above place `e` of one factor do not meet a number below `2^e`. */
  lemma {:induction false} MeetAcrossPlace(i: nat, k: nat, e: nat)
    requires i < Pow2(e) && k < Pow2(e)
    ensures MeetOddly(i, Pow2(e) + k) == MeetOddly(i, k) && MeetOddly(i + Pow2(e), k) == MeetOddly(i, k)
    ensures MeetOddly(i + Pow2(e), Pow2(e) + k) != MeetOddly(i, k)
    decreases e
  {
    if e == 0 {
    } else {
      var w := Pow2(e - 1);
      assert (i + 2 * w) / 2 == i / 2 + w && (k + 2 * w) / 2 == k / 2 + w;
      MeetAcrossPlace(i / 2, k / 2, e - 1);
    }
  }

  lemma {:induction false} SumSplits(x: Vec, lo: nat, n: nat, k: nat, i: nat, from: nat)
    requires lo + n + k <= |x|
    ensures SignedSum(x, lo, n + k, i, from) == SignedSum(x, lo, n, i, from) + SignedSum(x, lo + n, k, i, from + n)
    decreases k
  {
    if k == 0 {
    } else {
      SumSplits(x, lo, n, k - 1, i, from);
    }
  }

  lemma {:induction false} SumAcrossPlace(x: Vec, lo: nat, n: nat, i: nat, e: nat)
    requires i < Pow2(e) && n <= Pow2(e) && lo + n <= |x|
    ensures SignedSum(x, lo, n, i, Pow2(e)) == SignedSum(x, lo, n, i, 0)
    ensures SignedSum(x, lo, n, i + Pow2(e), 0) == SignedSum(x, lo, n, i, 0)
    ensures SignedSum(x, lo, n, i + Pow2(e), Pow2(e)) == -SignedSum(x, lo, n, i, 0)
  {
    if n == 0 {
    } else {
      MeetAcrossPlace(i, n - 1, e);
      SumAcrossPlace(x, lo, n - 1, i, e);
    }
  }

  lemma SumOfHalves(x: Vec, lo: nat, lo': nat, e: nat, i: nat)
    requires lo' == lo + Pow2(e) && lo' + Pow2(e) <= |x| && i < Pow2(e)
    ensures SignedSum(x, lo, Pow2(e + 1), i, 0) == SignedSum(x, lo, Pow2(e), i, 0) + SignedSum(x, lo', Pow2(e), i, 0)
    ensures SignedSum(x, lo, Pow2(e + 1), i + Pow2(e), 0) == SignedSum(x, lo, Pow2(e), i, 0) - SignedSum(x, lo', Pow2(e), i, 0)
  {
    var m := Pow2(e);
    SumSplits(x, lo, m, m, i, 0);
    SumSplits(x, lo, m, m, i + m, 0);
    SumAcrossPlace(x, lo, m, i, e);
    SumAcrossPlace(x, lo', m, i, e);
    assert Pow2(e + 1) == m + m;
  }

  /** Entry `i` of the transform is the sum of the inputs with the signs of row `i`. */
  lemma {:induction false} HadIsSignedSum(x: Vec, lo: nat, e: nat, i: nat)
    requires lo + Pow2(e) <= |x| && i < Pow2(e)
    ensures HadAt(x, lo, e, i) == SignedSum(x, lo, Pow2(e), i, 0)
    decreases e, 0
  {
    if e == 0 {
      assert SignedSum(x, lo, 1, 0, 0) == SignedSum(x, lo, 0, 0, 0) + Signed(0, 0, x[lo]);
    } else {
      if i < Pow2(e - 1) {
        SumsOfHalves(x, lo, lo + Pow2(e - 1), e - 1, i);
      } else {
        SumsOfHalves(x, lo, lo + Pow2(e - 1), e - 1, i - Pow2(e - 1));
      }
    }
  }

  lemma SumsOfHalves(x: Vec, lo: nat, lo': nat, e: nat, l: nat)
    requires lo' == lo + Pow2(e) && lo' + Pow2(e) <= |x| && l < Pow2(e)
    ensures HadAt(x, lo, e + 1, l) == SignedSum(x, lo, Pow2(e + 1), l, 0)
    ensures HadAt(x, lo, e + 1, l + Pow2(e)) == SignedSum(x, lo, Pow2(e + 1), l + Pow2(e), 0)
    decreases e, 1
  {
    HadIsSignedSum(x, lo, e, l);
    HadIsSignedSum(x, lo', e, l);
    SumOfHalves(x, lo, lo', e, l);
    HadOfSums(x, lo, lo', e, l, SignedSum(x, lo, Pow2(e), l, 0), SignedSum(x, lo', Pow2(e), l, 0));
  }

  lemma HadOfSums(x: Vec, lo: nat, lo': nat, e: nat, l: nat, a: real, b: real)
    requires lo' == lo + Pow2(e) && lo' + Pow2(e) <= |x| && l < Pow2(e)
    requires HadAt(x, lo, e, l) == a && HadAt(x, lo', e, l) == b
    ensures HadAt(x, lo, e + 1, l) == a + b && HadAt(x, lo, e + 1, l + Pow2(e)) == a - b
  {
  }
}
