/** The parallel merge of two descending index runs. */
module MergePath {
  // Each thread of `kernel_argsort_merge_f32_i32_desc` finds its slice of the output by a binary search and
  // merges it alone; together the slices are the sequential stable merge, cut at `top_k`.

  import opened BitonicNetwork

  function Score(score: seq<real>, x: nat): real
  {
    if x < |score| then score[x] else 0.0
  }

  /** The kernel's choice: the left front wins ties. */
  predicate TakeLeft(score: seq<real>, x: nat, y: nat) {
    Score(score, x) >= Score(score, y)
  }

  ghost predicate Run(score: seq<real>, r: seq<nat>) {
    forall a, b :: 0 <= a <= b < |r| ==> Score(score, r[a]) >= Score(score, r[b])
  }

  /** The sequential stable merge from fronts `i` and `j` on. */
  function MergeFrom(score: seq<real>, a: seq<nat>, b: seq<nat>, i: nat, j: nat): (r: seq<nat>)
    requires i <= |a| && j <= |b|
    ensures |r| == |a| - i + |b| - j
    decreases |a| - i + |b| - j
  {
    if i == |a| then b[j..]
    else if j == |b| then a[i..]
    else if TakeLeft(score, a[i], b[j]) then [a[i]] + MergeFrom(score, a, b, i + 1, j)
    else [b[j]] + MergeFrom(score, a, b, i, j + 1)
  }

  function Merge(score: seq<real>, a: seq<nat>, b: seq<nat>): (r: seq<nat>)
    ensures |r| == |a| + |b|
  {
    MergeFrom(score, a, b, 0, 0)
  }

  lemma StepLeft(score: seq<real>, a: seq<nat>, b: seq<nat>, i: nat, j: nat)
    requires i < |a| && j <= |b| && (j < |b| ==> TakeLeft(score, a[i], b[j]))
    ensures MergeFrom(score, a, b, i, j) == [a[i]] + MergeFrom(score, a, b, i + 1, j)
  {
    assert a[i..] == [a[i]] + a[i + 1..];
  }

  lemma StepRight(score: seq<real>, a: seq<nat>, b: seq<nat>, i: nat, j: nat)
    requires i <= |a| && j < |b| && (i < |a| ==> !TakeLeft(score, a[i], b[j]))
    ensures MergeFrom(score, a, b, i, j) == [b[j]] + MergeFrom(score, a, b, i, j + 1)
  {
    assert b[j..] == [b[j]] + b[j + 1..];
  }

  // ---------------------------------------------------------------- what the merge is

  lemma {:induction false} MergePermutes(score: seq<real>, a: seq<nat>, b: seq<nat>, i: nat, j: nat)
    requires i <= |a| && j <= |b|
    ensures multiset(MergeFrom(score, a, b, i, j)) == multiset(a[i..]) + multiset(b[j..])
    decreases |a| - i + |b| - j
  {
    if i < |a| && (j == |b| || TakeLeft(score, a[i], b[j])) {
      StepLeft(score, a, b, i, j);
      MergePermutes(score, a, b, i + 1, j);
      PutBack(a, i, MergeFrom(score, a, b, i + 1, j), b[j..]);
    } else if j < |b| {
      StepRight(score, a, b, i, j);
      MergePermutes(score, a, b, i, j + 1);
      PutBack(b, j, MergeFrom(score, a, b, i, j + 1), a[i..]);
    } else {
      assert a[i..] == [] && b[j..] == [];
    }
  }

  lemma PutBack(a: seq<nat>, i: nat, rest: seq<nat>, other: seq<nat>)
    requires i < |a| && multiset(rest) == multiset(a[i + 1..]) + multiset(other)
    ensures multiset([a[i]] + rest) == multiset(a[i..]) + multiset(other)
  {
    assert a[i..] == [a[i]] + a[i + 1..];
  }

  /** Everything still to be merged scores at most `v`. */
  ghost predicate Under(score: seq<real>, r: seq<nat>, v: real) {
    forall x :: 0 <= x < |r| ==> Score(score, r[x]) <= v
  }

  lemma {:induction false} MergeUnder(score: seq<real>, a: seq<nat>, b: seq<nat>, i: nat, j: nat, v: real)
    requires i <= |a| && j <= |b| && Under(score, a[i..], v) && Under(score, b[j..], v)
    ensures Under(score, MergeFrom(score, a, b, i, j), v)
    decreases |a| - i + |b| - j
  {
    if i >= |a| || j >= |b| {
    } else {
      assert a[i..][0] == a[i] && b[j..][0] == b[j];
      if TakeLeft(score, a[i], b[j]) {
        assert a[i + 1..] == a[i..][1..];
        MergeUnder(score, a, b, i + 1, j, v);
      } else {
        assert b[j + 1..] == b[j..][1..];
        MergeUnder(score, a, b, i, j + 1, v);
      }
    }
  }

  lemma {:induction false} MergeIsRun(score: seq<real>, a: seq<nat>, b: seq<nat>, i: nat, j: nat)
    requires i <= |a| && j <= |b| && Run(score, a) && Run(score, b)
    ensures Run(score, MergeFrom(score, a, b, i, j))
    decreases |a| - i + |b| - j
  {
    if i >= |a| || j >= |b| {
    } else {
      if TakeLeft(score, a[i], b[j]) {
        MergeIsRun(score, a, b, i + 1, j);
        MergeUnder(score, a, b, i + 1, j, Score(score, a[i]));
      } else {
        MergeIsRun(score, a, b, i, j + 1);
        MergeUnder(score, a, b, i, j + 1, Score(score, b[j]));
      }
    }
  }

  // ---------------------------------------------------------------- where every entry goes

  /** How many entries of the run score more than `v`. */
  function Above(score: seq<real>, r: seq<nat>, v: real): (n: nat)
    ensures n <= |r|
  {
    if r == [] then 0 else (if Score(score, r[0]) > v then 1 else 0) + Above(score, r[1..], v)
  }

  /** How many entries of the run score `v` or more. */
  function AtLeast(score: seq<real>, r: seq<nat>, v: real): (n: nat)
    ensures n <= |r|
  {
    if r == [] then 0 else (if Score(score, r[0]) >= v then 1 else 0) + AtLeast(score, r[1..], v)
  }

  /** The place of entry `i` of the left run: behind the right entries that score more. */
  function LeftPlace(score: seq<real>, a: seq<nat>, b: seq<nat>, i: nat): nat
    requires i < |a|
  {
    i + Above(score, b, Score(score, a[i]))
  }

  /** The place of entry `j` of the right run: behind the left entries that score as much or more. */
  function RightPlace(score: seq<real>, a: seq<nat>, b: seq<nat>, j: nat): nat
    requires j < |b|
  {
    j + AtLeast(score, a, Score(score, b[j]))
  }

  lemma {:induction false} NoneAbove(score: seq<real>, r: seq<nat>, v: real)
    requires Run(score, r) && (r != [] ==> Score(score, r[0]) <= v)
    ensures Above(score, r, v) == 0
  {
    if r == [] {
    } else {
      assert forall k :: 0 <= k < |r[1..]| ==> r[1..][k] == r[k + 1];
      NoneAbove(score, r[1..], v);
    }
  }

  lemma {:induction false} NoneAtLeast(score: seq<real>, r: seq<nat>, v: real)
    requires Run(score, r) && (r != [] ==> Score(score, r[0]) < v)
    ensures AtLeast(score, r, v) == 0
  {
    if r == [] {
    } else {
      assert forall k :: 0 <= k < |r[1..]| ==> r[1..][k] == r[k + 1];
      NoneAtLeast(score, r[1..], v);
    }
  }

  lemma SuffixIsRun(score: seq<real>, r: seq<nat>, i: nat)
    requires Run(score, r) && i <= |r|
    ensures Run(score, r[i..])
  {
  }

  /** Every left entry goes to its place, in what is merged from the fronts on. */
  lemma {:induction false} LeftGoes(score: seq<real>, a: seq<nat>, b: seq<nat>, i: nat, j: nat, x: nat)
    requires Run(score, a) && Run(score, b) && i <= x < |a| && j <= |b|
    ensures var k := x - i + Above(score, b[j..], Score(score, a[x]));
            k < |a| - i + |b| - j && MergeFrom(score, a, b, i, j)[k] == a[x]
    decreases |a| - i + |b| - j
  {
    var v := Score(score, a[x]);
    if j == |b| {
    } else if TakeLeft(score, a[i], b[j]) {
      if x == i {
        SuffixIsRun(score, b, j);
        NoneAbove(score, b[j..], v);
      } else {
        LeftGoes(score, a, b, i + 1, j, x);
      }
    } else {
      LeftGoes(score, a, b, i, j + 1, x);
      assert b[j..][1..] == b[j + 1..];
      assert Score(score, a[i]) >= v;
    }
  }

  lemma OneMoreAtLeast(score: seq<real>, r: seq<nat>, i: nat, v: real)
    requires i < |r| && Score(score, r[i]) >= v
    ensures AtLeast(score, r[i..], v) == 1 + AtLeast(score, r[i + 1..], v)
  {
    assert r[i..][1..] == r[i + 1..];
  }

  lemma {:induction false} RightGoes(score: seq<real>, a: seq<nat>, b: seq<nat>, i: nat, j: nat, y: nat)
    requires Run(score, a) && Run(score, b) && i <= |a| && j <= y < |b|
    ensures var k := y - j + AtLeast(score, a[i..], Score(score, b[y]));
            k < |a| - i + |b| - j && MergeFrom(score, a, b, i, j)[k] == b[y]
    decreases |a| - i + |b| - j
  {
    var v := Score(score, b[y]);
    if i == |a| {
    } else if TakeLeft(score, a[i], b[j]) {
      RightGoes(score, a, b, i + 1, j, y);
      assert Score(score, b[j]) >= v;
      OneMoreAtLeast(score, a, i, v);
    } else {
      if y == j {
        SuffixIsRun(score, a, i);
        NoneAtLeast(score, a[i..], v);
      } else {
        RightGoes(score, a, b, i, j + 1, y);
      }
    }
  }

  /** Both runs stand at their places of `m`, as far as `m` goes. */
  ghost predicate Placed(score: seq<real>, a: seq<nat>, b: seq<nat>, m: seq<nat>) {
    && (forall i :: 0 <= i < |a| && LeftPlace(score, a, b, i) < |m| ==> m[LeftPlace(score, a, b, i)] == a[i])
    && (forall j :: 0 <= j < |b| && RightPlace(score, a, b, j) < |m| ==> m[RightPlace(score, a, b, j)] == b[j])
  }

  /** The merge is stable: each entry stands at the place its score gives it, ties left run first. */
  lemma MergeIsStable(score: seq<real>, a: seq<nat>, b: seq<nat>)
    requires Run(score, a) && Run(score, b)
    ensures Placed(score, a, b, Merge(score, a, b))
  {
    assert a[0..] == a && b[0..] == b;
    forall i | 0 <= i < |a|
      ensures LeftPlace(score, a, b, i) < |a| + |b| && Merge(score, a, b)[LeftPlace(score, a, b, i)] == a[i]
    {
      LeftGoes(score, a, b, 0, 0, i);
    }
    forall j | 0 <= j < |b|
      ensures RightPlace(score, a, b, j) < |a| + |b| && Merge(score, a, b)[RightPlace(score, a, b, j)] == b[j]
    {
      RightGoes(score, a, b, 0, 0, j);
    }
  }

  lemma {:induction false} CountsGrow(score: seq<real>, r: seq<nat>, v: real, w: real)
    requires v >= w
    ensures Above(score, r, v) <= Above(score, r, w) && AtLeast(score, r, v) <= AtLeast(score, r, w)
  {
    if r == [] {
    } else {
      CountsGrow(score, r[1..], v, w);
    }
  }

  /** Two entries of one run keep their order. */
  lemma RunsKeepOrder(score: seq<real>, a: seq<nat>, b: seq<nat>, i: nat, k: nat)
    requires Run(score, a) && Run(score, b) && i < k
    ensures k < |a| ==> LeftPlace(score, a, b, i) < LeftPlace(score, a, b, k)
    ensures k < |b| ==> RightPlace(score, a, b, i) < RightPlace(score, a, b, k)
  {
    if k < |a| {
      CountsGrow(score, b, Score(score, a[i]), Score(score, a[k]));
    }
    if k < |b| {
      CountsGrow(score, a, Score(score, b[i]), Score(score, b[k]));
    }
  }

  ghost predicate Apart(a: seq<nat>, b: seq<nat>) {
    forall x :: x in a ==> x !in b
  }

  /** A right entry stands before a left one only if it scores more. */
  lemma {:induction false} RightGoesFirst(score: seq<real>, a: seq<nat>, b: seq<nat>, i: nat, j: nat, p: nat, q: nat)
    requires Run(score, a) && Run(score, b) && Apart(a, b) && i <= |a| && j <= |b| && p < q < |a| - i + |b| - j
    requires MergeFrom(score, a, b, i, j)[p] in b && MergeFrom(score, a, b, i, j)[q] in a
    ensures Score(score, MergeFrom(score, a, b, i, j)[p]) > Score(score, MergeFrom(score, a, b, i, j)[q])
    decreases |a| - i + |b| - j
  {
    var m := MergeFrom(score, a, b, i, j);
    if i == |a| {
      Suffix(b, j);
    } else if j == |b| {
      Suffix(a, i);
    } else if TakeLeft(score, a[i], b[j]) {
      RightGoesFirst(score, a, b, i + 1, j, p - 1, q - 1);
    } else if p > 0 {
      RightGoesFirst(score, a, b, i, j + 1, p - 1, q - 1);
    } else {
      MergePermutes(score, a, b, i, j);
      LeftOnly(a, b, m, i, j, q);
    }
  }

  lemma Suffix(r: seq<nat>, i: nat)
    requires i <= |r|
    ensures forall x :: x in r[i..] ==> x in r
  {
  }

  lemma LeftOnly(a: seq<nat>, b: seq<nat>, m: seq<nat>, i: nat, j: nat, q: nat)
    requires i <= |a| && j <= |b| && Apart(a, b) && multiset(m) == multiset(a[i..]) + multiset(b[j..])
    requires q < |m| && m[q] in a
    ensures exists k :: i <= k < |a| && a[k] == m[q]
  {
    Suffix(b, j);
    assert m[q] in multiset(m);
    assert m[q] in a[i..];
    var k :| 0 <= k < |a[i..]| && a[i..][k] == m[q];
    assert a[i + k] == m[q];
  }

  // ---------------------------------------------------------------- cuts

  /** Fronts `(i, j)` lie on the path the sequential merge takes. */
  ghost predicate OnPath(score: seq<real>, a: seq<nat>, b: seq<nat>, i: nat, j: nat) {
    && i <= |a| && j <= |b|
    && (i > 0 && j < |b| ==> TakeLeft(score, a[i - 1], b[j]))
    && (j > 0 && i < |a| ==> !TakeLeft(score, a[i], b[j - 1]))
  }

  /** Each cut but the first has one before it, a single step earlier. */
  lemma CutBefore(score: seq<real>, a: seq<nat>, b: seq<nat>, i: nat, j: nat)
    requires Run(score, a) && Run(score, b) && OnPath(score, a, b, i, j) && i + j > 0
    ensures if i > 0 && (j == 0 || !TakeLeft(score, a[i - 1], b[j - 1])) then OnPath(score, a, b, i - 1, j)
            else j > 0 && OnPath(score, a, b, i, j - 1)
  {
  }

  /** From a cut on the path, the merge of what is left is the rest of the whole merge. */
  lemma {:induction false} CutSplitsMerge(score: seq<real>, a: seq<nat>, b: seq<nat>, i: nat, j: nat)
    requires Run(score, a) && Run(score, b) && OnPath(score, a, b, i, j)
    ensures Merge(score, a, b)[i + j..] == MergeFrom(score, a, b, i, j)
    decreases i + j
  {
    var m := Merge(score, a, b);
    if i + j == 0 {
    } else {
      CutBefore(score, a, b, i, j);
      if i > 0 && (j == 0 || !TakeLeft(score, a[i - 1], b[j - 1])) {
        CutSplitsMerge(score, a, b, i - 1, j);
        StepLeft(score, a, b, i - 1, j);
      } else {
        CutSplitsMerge(score, a, b, i, j - 1);
        StepRight(score, a, b, i, j - 1);
      }
      DropOne(m, i + j);
    }
  }

  lemma DropOne(m: seq<nat>, k: nat)
    requires 0 < k <= |m|
    ensures m[k..] == m[k - 1..][1..]
  {
  }

  // ---------------------------------------------------------------- one thread

  /** The binary search for the cut `(i, k0 - i)` at which a thread starts. */
  method FindCut(score: seq<real>, tmp0: seq<nat>, tmp1: seq<nat>, k0: nat) returns (i: nat)
    requires Run(score, tmp0) && Run(score, tmp1) && k0 <= |tmp0| + |tmp1|
    ensures i <= k0 && OnPath(score, tmp0, tmp1, i, k0 - i)
  {
    var low := if k0 > |tmp1| then k0 - |tmp1| else 0;
    var high := if k0 < |tmp0| then k0 else |tmp0|;
    while low < high
      invariant 0 <= low && k0 - |tmp1| <= low <= high <= k0 && high <= |tmp0|
      invariant low > 0 && k0 - low < |tmp1| ==> TakeLeft(score, tmp0[low - 1], tmp1[k0 - low])
      invariant high < |tmp0| && k0 > high ==> !TakeLeft(score, tmp0[high], tmp1[k0 - high - 1])
    {
      var mid := (low + high) / 2;
      if TakeLeft(score, tmp0[mid], tmp1[k0 - mid - 1]) {
        low := mid + 1;
      } else {
        high := mid;
      }
    }
    i := low;
  }

  /** Cells `lo..hi` of `dst` hold the same places of `whole`; every other cell is as in `was`. */
  ghost predicate Filled(dst: seq<nat>, was: seq<nat>, whole: seq<nat>, start: nat, lo: nat, hi: nat) {
    |dst| == |was| && hi <= |whole|
    && forall d :: 0 <= d < |dst| ==> dst[d] == if start + lo <= d < start + hi then whole[d - start] else was[d]
  }

  /** One run is used up: the other fills the rest of the slice. */
  method CopyRest(src: seq<nat>, from: nat, dst: array<nat>, start: nat, ghost k0: nat, k: nat, k1: nat,
                  ghost was: seq<nat>, ghost whole: seq<nat>)
    requires k0 <= k <= k1 <= |whole| && start + k1 <= dst.Length && from <= |src| && whole[k..] == src[from..]
    requires Filled(dst[..], was, whole, start, k0, k)
    modifies dst
    ensures Filled(dst[..], was, whole, start, k0, k1)
  {
    var k', f := k, from;
    while k' < k1
      invariant k <= k' <= k1 && f == from + (k' - k)
      invariant Filled(dst[..], was, whole, start, k0, k')
    {
      assert whole[k'] == whole[k..][k' - k] == src[from..][k' - k];
      dst[start + k'] := src[f];
      k', f := k' + 1, f + 1;
    }
  }

  lemma FilledNext(cur: seq<nat>, was: seq<nat>, whole: seq<nat>, start: nat, k0: nat, k: nat)
    requires k0 <= k < |whole| && start + k < |cur| && Filled(cur, was, whole, start, k0, k)
    ensures Filled(cur[start + k := whole[k]], was, whole, start, k0, k + 1)
  {
  }

  /** What is left of the merge at `k` is the merge from the fronts `i` and `j`. */
  ghost predicate Rest(score: seq<real>, a: seq<nat>, b: seq<nat>, whole: seq<nat>, k: nat, i: nat, j: nat) {
    i <= |a| && j <= |b| && k <= |whole| && whole[k..] == MergeFrom(score, a, b, i, j)
  }

  lemma RestSteps(score: seq<real>, a: seq<nat>, b: seq<nat>, whole: seq<nat>, k: nat, i: nat, j: nat)
    requires Rest(score, a, b, whole, k, i, j) && i < |a| && j < |b|
    ensures k < |whole|
    ensures TakeLeft(score, a[i], b[j]) ==> whole[k] == a[i] && Rest(score, a, b, whole, k + 1, i + 1, j)
    ensures !TakeLeft(score, a[i], b[j]) ==> whole[k] == b[j] && Rest(score, a, b, whole, k + 1, i, j + 1)
  {
    assert whole[k] == whole[k..][0] && whole[k + 1..] == whole[k..][1..];
  }

  /** The merge loop from `k0` on, where `i0` and `j0` are the fronts. */
  method MergeLoop(score: seq<real>, tmp0: seq<nat>, tmp1: seq<nat>, dst: array<nat>, start: nat,
                   k0: nat, k1: nat, i0: nat, j0: nat, ghost whole: seq<nat>)
    requires k0 <= k1 <= |whole| && start + k1 <= dst.Length && Rest(score, tmp0, tmp1, whole, k0, i0, j0)
    modifies dst
    ensures Filled(dst[..], old(dst[..]), whole, start, k0, k1)
  {
    ghost var was := dst[..];
    var i: nat, j: nat, k := i0, j0, k0;
    while k < k1
      invariant k0 <= k <= k1 && Rest(score, tmp0, tmp1, whole, k, i, j)
      invariant Filled(dst[..], was, whole, start, k0, k)
      decreases k1 - k
    {
      if i >= |tmp0| {
        CopyRest(tmp1, j, dst, start, k0, k, k1, was, whole);
        break;
      } else if j >= |tmp1| {
        CopyRest(tmp0, i, dst, start, k0, k, k1, was, whole);
        break;
      }
      RestSteps(score, tmp0, tmp1, whole, k, i, j);
      FilledNext(dst[..], was, whole, start, k0, k);
      ghost var next := dst[..][start + k := whole[k]];
      if TakeLeft(score, tmp0[i], tmp1[j]) {
        dst[start + k] := tmp0[i];
        i := i + 1;
      } else {
        dst[start + k] := tmp1[j];
        j := j + 1;
      }
      assert dst[..] == next;
      k := k + 1;
    }
  }

  /** A thread's merge: output cells `k0..k1`, from the cut `(i0, k0 - i0)`. */
  method MergeSlice(score: seq<real>, tmp0: seq<nat>, tmp1: seq<nat>, dst: array<nat>, start: nat,
                    k0: nat, k1: nat, i0: nat)
    requires i0 <= k0 <= k1 <= |tmp0| + |tmp1| && start + k1 <= dst.Length
    requires Run(score, tmp0) && Run(score, tmp1) && OnPath(score, tmp0, tmp1, i0, k0 - i0)
    modifies dst
    ensures Filled(dst[..], old(dst[..]), Merge(score, tmp0, tmp1), start, k0, k1)
  {
    CutSplitsMerge(score, tmp0, tmp1, i0, k0 - i0);
    MergeLoop(score, tmp0, tmp1, dst, start, k0, k1, i0, k0 - i0, Merge(score, tmp0, tmp1));
  }

  // ---------------------------------------------------------------- the thread group

  function Min(a: int, b: int): int { if a < b then a else b }

  function Max(a: int, b: int): int { if a > b then a else b }

  /** The output cells of thread `t`: start and end, equal when the thread returns early. */
  function Slice(total: nat, topK: nat, ntg: nat, t: nat): (k: (nat, nat))
    requires ntg > 0
    ensures k.0 <= k.1 && (k.0 < k.1 ==> k.1 <= total && k.1 <= topK)
  {
    var chunk := (total + ntg - 1) / ntg;
    var k0 := t * chunk;
    if k0 >= topK || k0 >= total then (0, 0) else (k0, Min(Min(k0 + chunk, total), topK))
  }

  /** Group `im`: its two runs, read from row `tmp` of length `ne0`. */
  function Left(tmp: seq<nat>, len: nat, im: nat): seq<nat> {
    var start := im * (2 * len);
    var len0 := Min(len, Max(0, |tmp| - start));
    if len0 == 0 then [] else tmp[start..start + len0]
  }

  function Right(tmp: seq<nat>, len: nat, im: nat): seq<nat> {
    var start := im * (2 * len);
    var len1 := Min(len, Max(0, |tmp| - (start + len)));
    if len1 == 0 then [] else tmp[start + len..start + len + len1]
  }

  ghost predicate Writes(total: nat, topK: nat, ntg: nat, t: nat, k: nat)
    requires ntg > 0
  {
    Slice(total, topK, ntg, t).0 <= k < Slice(total, topK, ntg, t).1
  }

  lemma ChunkCovers(total: nat, ntg: nat)
    requires ntg > 0
    ensures total <= ntg * ((total + ntg - 1) / ntg)
  {
  }

  lemma SmallerFactor(t: nat, u: nat, c: nat)
    requires t * c < u * c
    ensures t < u
  {
  }

  lemma OneChunk(c: nat, t: nat, u: nat, k: nat)
    requires t * c <= k < t * c + c && u * c <= k < u * c + c
    ensures t == u
  {
    SmallerFactor(t, u + 1, c);
    SmallerFactor(u, t + 1, c);
  }

  lemma ChunkOf(c: nat, k: nat)
    requires c > 0
    ensures (k / c) * c <= k < (k / c) * c + c
  {
  }

  lemma WritesChunk(total: nat, topK: nat, ntg: nat, t: nat, k: nat, chunk: nat)
    requires ntg > 0 && k < total && k < topK && chunk == (total + ntg - 1) / ntg
    ensures Writes(total, topK, ntg, t, k) <==> t * chunk <= k < t * chunk + chunk
  {
  }

  lemma ThreadOf(total: nat, topK: nat, ntg: nat, k: nat, chunk: nat) returns (t: nat)
    requires ntg > 0 && k < total && k < topK && chunk == (total + ntg - 1) / ntg
    ensures t < ntg && Writes(total, topK, ntg, t, k)
  {
    ChunkCovers(total, ntg);
    ChunkOf(chunk, k);
    t := k / chunk;
    SmallerFactor(t, ntg, chunk);
    WritesChunk(total, topK, ntg, t, k, chunk);
  }

  /** The slices of the threads are disjoint and cover the first min(top_k, total) cells. */
  lemma SlicesTile(total: nat, topK: nat, ntg: nat, k: nat)
    requires ntg > 0 && k < total && k < topK
    ensures exists t: nat :: t < ntg && Writes(total, topK, ntg, t, k)
    ensures forall t: nat, u: nat :: Writes(total, topK, ntg, t, k) && Writes(total, topK, ntg, u, k) ==> t == u
  {
    var chunk := (total + ntg - 1) / ntg;
    var mine := ThreadOf(total, topK, ntg, k, chunk);
    forall t: nat, u: nat | Writes(total, topK, ntg, t, k) && Writes(total, topK, ntg, u, k)
      ensures t == u
    {
      WritesChunk(total, topK, ntg, t, k, chunk);
      WritesChunk(total, topK, ntg, u, k, chunk);
      OneChunk(chunk, t, u, k);
    }
  }

  /** Cell `k` has been written by a thread that has run. */
  ghost predicate Written(total: nat, topK: nat, ntg: nat, waiting: set<nat>, k: nat)
    requires ntg > 0
  {
    exists t: nat :: t < ntg && t !in waiting && Writes(total, topK, ntg, t, k)
  }

  ghost predicate Partly(dst: seq<nat>, was: seq<nat>, whole: seq<nat>, start: nat, topK: nat, ntg: nat, waiting: set<nat>)
    requires ntg > 0
  {
    |dst| == |was|
    && forall d :: 0 <= d < |dst| ==>
         dst[d] == if 0 <= d - start < |whole| && Written(|whole|, topK, ntg, waiting, d - start) then whole[d - start] else was[d]
  }

  lemma ThreadWrote(cur: seq<nat>, next: seq<nat>, was: seq<nat>, whole: seq<nat>, start: nat, topK: nat, ntg: nat,
                    waiting: set<nat>, t: nat)
    requires ntg > 0 && t in waiting && t < ntg && Partly(cur, was, whole, start, topK, ntg, waiting)
    requires var (k0, k1) := Slice(|whole|, topK, ntg, t); Filled(next, cur, whole, start, k0, k1)
    ensures Partly(next, was, whole, start, topK, ntg, waiting - {t})
  {
    forall d | 0 <= d < |next|
      ensures next[d] == if 0 <= d - start < |whole| && Written(|whole|, topK, ntg, waiting - {t}, d - start)
                         then whole[d - start] else was[d]
    {
      if 0 <= d - start < |whole| {
        var k := d - start;
        if Writes(|whole|, topK, ntg, t, k) {
          assert Written(|whole|, topK, ntg, waiting - {t}, k);
        } else {
          assert Written(|whole|, topK, ntg, waiting - {t}, k) <==> Written(|whole|, topK, ntg, waiting, k);
        }
      }
    }
  }

  lemma AllWrote(dst: seq<nat>, was: seq<nat>, whole: seq<nat>, start: nat, topK: nat, ntg: nat)
    requires ntg > 0 && Partly(dst, was, whole, start, topK, ntg, {})
    ensures start <= |dst| && Min(topK, |whole|) <= |whole| ==>
              Filled(dst, was, whole, start, 0, Min(topK, |whole|))
  {
    forall d | 0 <= d < |dst|
      ensures dst[d] == if start <= d < start + Min(topK, |whole|) then whole[d - start] else was[d]
    {
      if start <= d < start + Min(topK, |whole|) {
        SlicesTile(|whole|, topK, ntg, d - start);
      }
    }
  }

  /** Both runs stand at their places, and a right entry stands before a left one only if it scores more. */
  ghost predicate Stable(score: seq<real>, a: seq<nat>, b: seq<nat>, m: seq<nat>) {
    && Placed(score, a, b, m)
    && (Apart(a, b) ==> forall p, q :: 0 <= p < q < |m| && m[p] in b && m[q] in a ==> Score(score, m[p]) > Score(score, m[q]))
  }

  /** The first `topK` merged entries stand in `dst` from `start` on, stably. */
  ghost predicate StableFrom(score: seq<real>, a: seq<nat>, b: seq<nat>, dst: seq<nat>, start: int, topK: nat) {
    var n := Min(topK, |a| + |b|);
    0 <= start <= start + n <= |dst| && Stable(score, a, b, dst[start..start + n])
  }

  /** What holds of the start of the merge, by scores alone. */
  lemma StartStable(score: seq<real>, a: seq<nat>, b: seq<nat>, n: nat, m: seq<nat>)
    requires Run(score, a) && Run(score, b) && n <= |a| + |b| && m == Merge(score, a, b)[..n]
    ensures Stable(score, a, b, m)
  {
    MergeIsStable(score, a, b);
    if Apart(a, b) {
      forall p, q | 0 <= p < q < n && m[p] in b && m[q] in a
        ensures Score(score, m[p]) > Score(score, m[q])
      {
        RightGoesFirst(score, a, b, 0, 0, p, q);
      }
    }
  }

  /** The whole group: its threads run in any order, each writing its own slice. */
  method MergeRuns(score: seq<real>, tmp: seq<nat>, len: nat, topK: nat, im: nat, ntg: nat, dst: array<nat>)
    requires ntg > 0
    requires var a, b := Left(tmp, len, im), Right(tmp, len, im);
             Run(score, a) && Run(score, b) && im * (2 * len) + Min(topK, |a| + |b|) <= dst.Length
    modifies dst
    ensures var whole := Merge(score, Left(tmp, len, im), Right(tmp, len, im));
            Filled(dst[..], old(dst[..]), whole, im * (2 * len), 0, Min(topK, |whole|))
    ensures StableFrom(score, Left(tmp, len, im), Right(tmp, len, im), dst[..], im * (2 * len), topK)
  {
    var a, b, start := Left(tmp, len, im), Right(tmp, len, im), im * (2 * len);
    RunGroup(score, a, b, start, topK, ntg, dst);
  }

  /** The group on two given runs. */
  method RunGroup(score: seq<real>, a: seq<nat>, b: seq<nat>, start: nat, topK: nat, ntg: nat, dst: array<nat>)
    requires ntg > 0 && Run(score, a) && Run(score, b) && start + Min(topK, |a| + |b|) <= dst.Length
    modifies dst
    ensures Filled(dst[..], old(dst[..]), Merge(score, a, b), start, 0, Min(topK, |a| + |b|))
    ensures StableFrom(score, a, b, dst[..], start, topK)
  {
    ghost var whole, was, n: nat := Merge(score, a, b), dst[..], Min(topK, |a| + |b|);
    RunThreads(score, a, b, start, topK, ntg, dst);
    FilledStart(dst[..], was, whole, start, n);
    StartStable(score, a, b, n, dst[..][start..start + n]);
  }

  lemma FilledStart(dst: seq<nat>, was: seq<nat>, whole: seq<nat>, start: nat, n: nat)
    requires Filled(dst, was, whole, start, 0, n) && start + n <= |dst|
    ensures dst[start..start + n] == whole[..n]
  {
  }

  /** The threads of the group, in any order. */
  method RunThreads(score: seq<real>, a: seq<nat>, b: seq<nat>, start: nat, topK: nat, ntg: nat, dst: array<nat>)
    requires ntg > 0 && Run(score, a) && Run(score, b) && start + Min(topK, |a| + |b|) <= dst.Length
    modifies dst
    ensures Filled(dst[..], old(dst[..]), Merge(score, a, b), start, 0, Min(topK, |a| + |b|))
  {
    ghost var whole, was := Merge(score, a, b), dst[..];
    if |a| + |b| == 0 {
      return;
    }
    var waiting := Threads(ntg);
    while waiting != {}
      invariant waiting <= Threads(ntg)
      invariant Partly(dst[..], was, whole, start, topK, ntg, waiting)
      decreases |waiting|
    {
      var t :| t in waiting;
      ghost var cur := dst[..];
      RunThread(score, a, b, start, topK, ntg, t, dst);
      ThreadWrote(cur, dst[..], was, whole, start, topK, ntg, waiting, t);
      waiting := waiting - {t};
    }
    AllWrote(dst[..], was, whole, start, topK, ntg);
  }

  /** One thread: its slice of the output, from its own cut. */
  method RunThread(score: seq<real>, a: seq<nat>, b: seq<nat>, start: nat, topK: nat, ntg: nat, t: nat, dst: array<nat>)
    requires ntg > 0 && t < ntg && Run(score, a) && Run(score, b) && start + Min(topK, |a| + |b|) <= dst.Length
    modifies dst
    ensures var (k0, k1) := Slice(|Merge(score, a, b)|, topK, ntg, t);
            Filled(dst[..], old(dst[..]), Merge(score, a, b), start, k0, k1)
  {
    var (k0, k1) := Slice(|a| + |b|, topK, ntg, t);
    if k0 < k1 {
      var i := FindCut(score, a, b, k0);
      MergeSlice(score, a, b, dst, start, k0, k1, i);
    }
  }

  // ---------------------------------------------------------------- merging truncated runs

  /** The run `r` cut to at least `n` entries after front `i`, unless it is whole. */
  ghost predicate LongEnough(r: seq<nat>, cut: nat, i: nat, n: nat) {
    i <= cut <= |r| && (cut == |r| || cut - i >= n)
  }

  /** Two lists agree on their first `n` entries. */
  ghost predicate SamePrefix(s: seq<nat>, r: seq<nat>, n: nat) {
    n <= |s| && n <= |r| && s[..n] == r[..n]
  }

  lemma PrefixGrows(x: nat, s: seq<nat>, r: seq<nat>, n: nat)
    requires SamePrefix(s, r, n)
    ensures SamePrefix([x] + s, [x] + r, n + 1)
  {
    assert ([x] + s)[..n + 1] == [x] + s[..n] && ([x] + r)[..n + 1] == [x] + r[..n];
  }

  /** One more entry on the left, or on the right, of both merges. */
  lemma TruncatedLeft(score: seq<real>, a: seq<nat>, b: seq<nat>, a': seq<nat>, b': seq<nat>, i: nat, j: nat, n: nat)
    requires i < |a| && j <= |b| && i < |a'| && j <= |b'| && a'[i] == a[i] && n > 0
    requires j == |b| || TakeLeft(score, a[i], b[j])
    requires j == |b'| || TakeLeft(score, a'[i], b'[j])
    requires SamePrefix(MergeFrom(score, a, b, i + 1, j), MergeFrom(score, a', b', i + 1, j), n - 1)
    ensures SamePrefix(MergeFrom(score, a, b, i, j), MergeFrom(score, a', b', i, j), n)
  {
    StepLeft(score, a, b, i, j);
    StepLeft(score, a', b', i, j);
    PrefixGrows(a[i], MergeFrom(score, a, b, i + 1, j), MergeFrom(score, a', b', i + 1, j), n - 1);
  }

  lemma TruncatedRight(score: seq<real>, a: seq<nat>, b: seq<nat>, a': seq<nat>, b': seq<nat>, i: nat, j: nat, n: nat)
    requires i <= |a| && j < |b| && i <= |a'| && j < |b'| && b'[j] == b[j] && n > 0
    requires i == |a| || !TakeLeft(score, a[i], b[j])
    requires i == |a'| || !TakeLeft(score, a'[i], b'[j])
    requires SamePrefix(MergeFrom(score, a, b, i, j + 1), MergeFrom(score, a', b', i, j + 1), n - 1)
    ensures SamePrefix(MergeFrom(score, a, b, i, j), MergeFrom(score, a', b', i, j), n)
  {
    StepRight(score, a, b, i, j);
    StepRight(score, a', b', i, j);
    PrefixGrows(b[j], MergeFrom(score, a, b, i, j + 1), MergeFrom(score, a', b', i, j + 1), n - 1);
  }

  lemma {:induction false} TruncatedFrom(score: seq<real>, a: seq<nat>, b: seq<nat>, p: nat, q: nat, i: nat, j: nat, n: nat)
    requires LongEnough(a, p, i, n) && LongEnough(b, q, j, n)
    requires n <= |a| - i + |b| - j
    ensures SamePrefix(MergeFrom(score, a, b, i, j), MergeFrom(score, a[..p], b[..q], i, j), n)
    decreases n
  {
    if n == 0 {
    } else if i < |a| && (j == |b| || TakeLeft(score, a[i], b[j])) {
      TruncatedFrom(score, a, b, p, q, i + 1, j, n - 1);
      TruncatedLeft(score, a, b, a[..p], b[..q], i, j, n);
    } else {
      TruncatedFrom(score, a, b, p, q, i, j + 1, n - 1);
      TruncatedRight(score, a, b, a[..p], b[..q], i, j, n);
    }
  }

  /** Runs may be cut to their own first `top_k` entries without changing the merged top-k. */
  lemma TopKOfTopKs(score: seq<real>, a: seq<nat>, b: seq<nat>, topK: nat)
    requires topK <= |a| + |b|
    ensures var a', b' := a[..Min(topK, |a|)], b[..Min(topK, |b|)];
            topK <= |a'| + |b'| && Merge(score, a, b)[..topK] == Merge(score, a', b')[..topK]
  {
    TruncatedFrom(score, a, b, Min(topK, |a|), Min(topK, |b|), 0, 0, topK);
  }
}
