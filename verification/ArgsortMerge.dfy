/** Sorting a row longer than a thread group: blocks, then merges. */
module ArgsortMerge {
  // The argsort kernel leaves every block's first indices; the merge kernel joins two runs at a time. In
  // whatever order the runs are merged, what is left is the start of the whole row's descending order.

  import opened Bits
  import opened SortKernels
  import opened MergePath

  // ---------------------------------------------------------------- the start of a descending order

  /** All of `ids` by descending score. */
  ghost predicate FullOrder(score: seq<real>, d: seq<nat>, ids: multiset<nat>) {
    Run(score, d) && multiset(d) == ids
  }

  /** `r` is the first `k` of a descending order of `ids`, or all of it. */
  ghost predicate FirstOf(score: seq<real>, r: seq<nat>, ids: multiset<nat>, k: nat) {
    exists d: seq<nat> :: FullOrder(score, d, ids) && r == d[..Min(k, |d|)]
  }

  lemma FirstIsRun(score: seq<real>, r: seq<nat>, ids: multiset<nat>, k: nat)
    requires FirstOf(score, r, ids, k)
    ensures Run(score, r) && |r| == Min(k, |ids|) && multiset(r) <= ids
  {
    var d: seq<nat> :| FullOrder(score, d, ids) && r == d[..Min(k, |d|)];
    PrefixOfOrder(score, r, d, Min(k, |d|));
  }

  lemma PrefixOfOrder(score: seq<real>, r: seq<nat>, d: seq<nat>, n: nat)
    requires Run(score, d) && n <= |d| && r == d[..n]
    ensures Run(score, r) && |r| == n && |multiset(d)| == |d| && multiset(r) <= multiset(d)
  {
    assert d == r + d[n..];
    forall a, b | 0 <= a <= b < |r|
      ensures Score(score, r[a]) >= Score(score, r[b])
    {
      assert r[a] == d[a] && r[b] == d[b];
    }
  }

  /** Nothing that is left out scores more than anything that is kept. */
  lemma FirstAreBest(score: seq<real>, r: seq<nat>, ids: multiset<nat>, k: nat, x: nat, i: nat)
    requires FirstOf(score, r, ids, k) && x in ids - multiset(r) && i < |r|
    ensures Score(score, r[i]) >= Score(score, x)
  {
    var d: seq<nat> :| FullOrder(score, d, ids) && r == d[..Min(k, |d|)];
    var rest := d[|r|..];
    assert d == r + rest;
    assert x in multiset(rest);
    var j :| 0 <= j < |rest| && rest[j] == x;
    assert d[|r| + j] == x && d[i] == r[i];
  }

  lemma IsFirst(score: seq<real>, r: seq<nat>, d: seq<nat>, ids: multiset<nat>, k: nat)
    requires FullOrder(score, d, ids) && r == d[..Min(k, |d|)]
    ensures FirstOf(score, r, ids, k)
  {
  }

  /** Cutting both runs to enough entries does not change the start of the merge. */
  lemma CutsMerge(score: seq<real>, c: seq<nat>, d: seq<nat>, a: seq<nat>, p: nat, b: seq<nat>, q: nat, k: nat)
    requires a == c[..Min(p, |c|)] && b == d[..Min(q, |d|)] && k <= p && k <= q
    ensures Merge(score, a, b)[..Min(k, |a| + |b|)] == Merge(score, c, d)[..Min(k, |c| + |d|)]
  {
    var n := Min(k, |c| + |d|);
    TruncatedFrom(score, c, d, |a|, |b|, 0, 0, n);
  }

  lemma StartsMerge(score: seq<real>, c: seq<nat>, u: multiset<nat>, d: seq<nat>, v: multiset<nat>,
                    a: seq<nat>, p: nat, b: seq<nat>, q: nat, k: nat, r: seq<nat>)
    requires FullOrder(score, c, u) && a == c[..Min(p, |c|)] && FullOrder(score, d, v) && b == d[..Min(q, |d|)]
    requires k <= p && k <= q && r == Merge(score, a, b)[..Min(k, |a| + |b|)]
    ensures FirstOf(score, r, u + v, k)
  {
    CutsMerge(score, c, d, a, p, b, q, k);
    MergeIsOrder(score, c, u, d, v);
    IsFirst(score, r, Merge(score, c, d), u + v, k);
  }

  /** Merging the starts of two orders gives the start of the order of both. */
  lemma MergeIsFirst(score: seq<real>, a: seq<nat>, u: multiset<nat>, p: nat, b: seq<nat>, v: multiset<nat>, q: nat, k: nat)
    requires FirstOf(score, a, u, p) && FirstOf(score, b, v, q) && k <= p && k <= q
    ensures FirstOf(score, Merge(score, a, b)[..Min(k, |a| + |b|)], u + v, k)
  {
    var c: seq<nat> :| FullOrder(score, c, u) && a == c[..Min(p, |c|)];
    var d: seq<nat> :| FullOrder(score, d, v) && b == d[..Min(q, |d|)];
    StartsMerge(score, c, u, d, v, a, p, b, q, k, Merge(score, a, b)[..Min(k, |a| + |b|)]);
  }

  lemma MergeIsOrder(score: seq<real>, c: seq<nat>, u: multiset<nat>, d: seq<nat>, v: multiset<nat>)
    requires FullOrder(score, c, u) && FullOrder(score, d, v)
    ensures FullOrder(score, Merge(score, c, d), u + v)
  {
    MergeIsRun(score, c, d, 0, 0);
    MergePermutes(score, c, d, 0, 0);
    assert c[0..] == c && d[0..] == d;
  }

  // ---------------------------------------------------------------- one block

  /** How many of the indices below `n` are below the start of block `ib`. */
  function Before(n: nat, w: nat, ib: nat): (s: nat)
    ensures s <= n
  {
    if ib * w < n then ib * w else n
  }

  /** The indices of the row that blocks `lo..hi` hold. */
  function BlockIds(n: nat, w: nat, lo: nat, hi: nat): seq<nat>
    requires lo <= hi
  {
    BeforeGrows(n, w, lo, hi);
    Iota(Before(n, w, lo), Before(n, w, hi) - Before(n, w, lo))
  }

  lemma BeforeGrows(n: nat, w: nat, lo: nat, hi: nat)
    requires lo <= hi
    ensures Before(n, w, lo) <= Before(n, w, hi)
  {
    assert (hi - lo) * w >= 0;
    assert hi * w == lo * w + (hi - lo) * w;
  }

  /** The leading entries below `n`. */
  function Real(order: seq<nat>, n: nat): (r: seq<nat>)
    ensures |r| <= |order| && r == order[..|r|]
  {
    if order == [] || order[0] >= n then []
    else
      var rest := Real(order[1..], n);
      assert order[..|rest| + 1] == [order[0]] + order[1..][..|rest|];
      [order[0]] + rest
  }

  ghost predicate RealFirst(order: seq<nat>, n: nat) {
    forall i, j :: 0 <= i < j < |order| && order[j] < n ==> order[i] < n
  }

  /** Where the real entries come first, the leading ones are all of them. */
  lemma {:induction false} RealCount(order: seq<nat>, n: nat, x: nat)
    requires RealFirst(order, n)
    ensures multiset(Real(order, n))[x] == if x < n then multiset(order)[x] else 0
  {
    if order == [] {
    } else {
      assert order == [order[0]] + order[1..];
      if order[0] < n {
        RealCount(order[1..], n, x);
      } else {
        forall j | 0 < j < |order|
          ensures order[j] >= n
        {
          assert !(order[j] < n);
        }
        assert x < n ==> x !in order;
      }
    }
  }

  lemma {:induction false} RealOfIota(i00: nat, w: nat, n: nat)
    ensures RealFirst(Iota(i00, w), n)
    ensures Real(Iota(i00, w), n) == Iota(i00, if i00 >= n then 0 else if i00 + w <= n then w else n - i00)
    decreases w
  {
    if w == 0 || i00 >= n {
    } else {
      assert Iota(i00, w)[1..] == Iota(i00 + 1, w - 1);
      RealOfIota(i00 + 1, w - 1, n);
    }
  }

  /** Two lists with the same entries, real ones first, have the same real entries. */
  lemma RealKeeps(order: seq<nat>, ids: seq<nat>, n: nat)
    requires multiset(order) == multiset(ids) && RealFirst(order, n) && RealFirst(ids, n)
    ensures multiset(Real(order, n)) == multiset(Real(ids, n))
  {
    forall x: nat
      ensures multiset(Real(order, n))[x] == multiset(Real(ids, n))[x]
    {
      RealCount(order, n, x);
      RealCount(ids, n, x);
    }
  }

  /** Descending order with the padding last. */
  ghost predicate Descends(score: seq<real>, order: seq<nat>) {
    forall i, j :: 0 <= i < j < |order| && order[j] < |score| ==> order[i] < |score| && score[order[i]] >= score[order[j]]
  }

  lemma PrefixIsRun(score: seq<real>, order: seq<nat>, r: seq<nat>)
    requires Descends(score, order) && |r| <= |order| && r == order[..|r|] && forall i :: 0 <= i < |r| ==> order[i] < |score|
    ensures Run(score, r)
  {
    forall i, j | 0 <= i <= j < |r|
      ensures Score(score, r[i]) >= Score(score, r[j])
    {
      assert order[j] < |score|;
    }
  }

  lemma RealIsRun(score: seq<real>, order: seq<nat>)
    requires Descends(score, order)
    ensures Run(score, Real(order, |score|)) && RealFirst(order, |score|)
  {
    RealAre(order, |score|);
    PrefixIsRun(score, order, Real(order, |score|));
  }

  /** The run a sorted block leaves: its real entries. */
  function BlockRun(score: seq<real>, start: nat, w: nat): seq<nat> {
    Real(ArgsortOrder(score, start, w), |score|)
  }

  /** The real entries of a sorted block are its indices of the row, by descending score. */
  lemma BlockIsOrder(score: seq<real>, ib: nat, e: nat, w: nat, start: nat)
    requires w == Pow2(e) && start == ib * w
    ensures FullOrder(score, BlockRun(score, start, w), multiset(BlockIds(|score|, w, ib, ib + 1)))
  {
    var order := ArgsortOrder(score, start, w);
    ArgsortOrderIsSorted(score, start, e);
    RealIsRun(score, order);
    RealOfIota(start, w, |score|);
    OneBlockIds(|score|, w, ib);
    RealKeeps(order, Iota(start, w), |score|);
  }

  lemma OneBlockIds(n: nat, w: nat, ib: nat)
    ensures (ib + 1) * w == ib * w + w
    ensures BlockIds(n, w, ib, ib + 1)
         == Iota(ib * w, if ib * w >= n then 0 else if ib * w + w <= n then w else n - ib * w)
  {
    assert (ib + 1) * w == ib * w + w;
    if ib * w >= n {
      assert BlockIds(n, w, ib, ib + 1) == [];
      assert Iota(ib * w, 0) == [];
    }
  }

  lemma {:induction false} RealAre(order: seq<nat>, n: nat)
    ensures forall i :: 0 <= i < |Real(order, n)| ==> order[i] < n
  {
    if order == [] || order[0] >= n {
    } else {
      RealAre(order[1..], n);
      forall i | 0 <= i < |Real(order, n)|
        ensures order[i] < n
      {
        assert i > 0 ==> order[i] == order[1..][i - 1];
      }
    }
  }

  // ---------------------------------------------------------------- any order of merging

  /** Blocks and merges, each with the number of entries it keeps. */
  datatype Plan = Block(ib: nat, keep: nat) | Join(left: Plan, right: Plan, keep: nat)

  /** The run a plan leaves. */
  function Kept(score: seq<real>, e: nat, plan: Plan): seq<nat> {
    match plan
    case Block(ib, keep) =>
      var r := BlockRun(score, ib * Pow2(e), Pow2(e));
      r[..Min(keep, |r|)]
    case Join(a, b, keep) =>
      var m := Merge(score, Kept(score, e, a), Kept(score, e, b));
      m[..Min(keep, |m|)]
  }

  /** The plan merges the runs of blocks `lo..hi`, and no merge keeps more than it is given. */
  ghost predicate Covers(plan: Plan, lo: nat, hi: nat) {
    match plan
    case Block(ib, _) => lo == ib && hi == ib + 1
    case Join(a, b, keep) =>
      keep <= a.keep && keep <= b.keep && exists mid: nat :: lo <= mid <= hi && Covers(a, lo, mid) && Covers(b, mid, hi)
  }

  lemma IdsJoin(n: nat, w: nat, lo: nat, mid: nat, hi: nat)
    requires lo <= mid <= hi
    ensures multiset(BlockIds(n, w, lo, hi)) == multiset(BlockIds(n, w, lo, mid)) + multiset(BlockIds(n, w, mid, hi))
  {
    BeforeGrows(n, w, lo, mid);
    BeforeGrows(n, w, mid, hi);
    assert BlockIds(n, w, lo, hi) == BlockIds(n, w, lo, mid) + BlockIds(n, w, mid, hi);
  }

  lemma BlockIsFirst(score: seq<real>, e: nat, plan: Plan, ib: nat, w: nat, start: nat, ids: multiset<nat>)
    requires plan.Block? && plan.ib == ib && w == Pow2(e) && start == ib * w && ids == multiset(BlockIds(|score|, w, ib, ib + 1))
    ensures FirstOf(score, Kept(score, e, plan), ids, plan.keep)
  {
    var r := BlockRun(score, start, w);
    BlockIsOrder(score, ib, e, w, start);
    IsFirst(score, r[..Min(plan.keep, |r|)], r, ids, plan.keep);
  }

  lemma JoinIsFirst(score: seq<real>, e: nat, plan: Plan, u: multiset<nat>, v: multiset<nat>, ids: multiset<nat>)
    requires plan.Join? && plan.keep <= plan.left.keep && plan.keep <= plan.right.keep && ids == u + v
    requires FirstOf(score, Kept(score, e, plan.left), u, plan.left.keep)
    requires FirstOf(score, Kept(score, e, plan.right), v, plan.right.keep)
    ensures FirstOf(score, Kept(score, e, plan), ids, plan.keep)
  {
    MergeIsFirst(score, Kept(score, e, plan.left), u, plan.left.keep, Kept(score, e, plan.right), v, plan.right.keep, plan.keep);
  }

  /** Every plan leaves the start of the descending order of its blocks' indices. */
  lemma {:induction false} PlanIsFirst(score: seq<real>, e: nat, plan: Plan, lo: nat, hi: nat, ids: multiset<nat>)
    requires Covers(plan, lo, hi) && lo <= hi && ids == multiset(BlockIds(|score|, Pow2(e), lo, hi))
    ensures FirstOf(score, Kept(score, e, plan), ids, plan.keep)
    decreases plan
  {
    var w, n := Pow2(e), |score|;
    match plan
    case Block(ib, _) =>
      BlockIsFirst(score, e, plan, ib, w, ib * w, ids);
    case Join(a, b, _) =>
      var mid: nat :| lo <= mid <= hi && Covers(a, lo, mid) && Covers(b, mid, hi);
      var u, v := multiset(BlockIds(n, w, lo, mid)), multiset(BlockIds(n, w, mid, hi));
      PlanIsFirst(score, e, a, lo, mid, u);
      PlanIsFirst(score, e, b, mid, hi, v);
      IdsJoin(n, w, lo, mid, hi);
      JoinIsFirst(score, e, plan, u, v, ids);
  }

  /**
   Blocks that reach over the row, sorted and then merged in any order, no merge keeping more than it is
   given: what is left is the first `keep` indices of the whole row's descending order.
   */
  lemma WholeRow(score: seq<real>, e: nat, plan: Plan, blocks: nat)
    requires Covers(plan, 0, blocks) && blocks * Pow2(e) >= |score|
    ensures FirstOf(score, Kept(score, e, plan), multiset(Iota(0, |score|)), plan.keep)
  {
    assert BlockIds(|score|, Pow2(e), 0, blocks) == Iota(0, |score|);
    PlanIsFirst(score, e, plan, 0, blocks, multiset(Iota(0, |score|)));
  }

  // ---------------------------------------------------------------- the kernels, one after another

  /** The run that stands at `start` of the row between the kernels, at most `len` long. */
  function RunAt(tmp: seq<nat>, start: nat, len: nat): seq<nat> {
    if start >= |tmp| then [] else tmp[start..Min(start + len, |tmp|)]
  }

  /** The row between the kernels: `topK` cells for every full block, and what the last block has. */
  ghost predicate TmpFits(tmp: seq<nat>, n: nat, w: nat, topK: nat, blocks: nat) {
    && 0 < topK <= w && blocks > 0 && (blocks - 1) * w < n <= blocks * w
    && |tmp| == (blocks - 1) * topK + Min(topK, n - (blocks - 1) * w)
  }

  ghost predicate Stands(score: seq<real>, e: nat, topK: nat, tmp: seq<nat>, ib: nat) {
    RunAt(tmp, ib * topK, topK) == Kept(score, e, Block(ib, topK))
  }

  lemma RunLength(score: seq<real>, e: nat, ib: nat, w: nat, start: nat)
    requires w == Pow2(e) && start == ib * w
    ensures |BlockRun(score, start, w)| == if start >= |score| then 0 else if start + w <= |score| then w else |score| - start
  {
    BlockIsOrder(score, ib, e, w, start);
    OneBlockIds(|score|, w, ib);
    assert |multiset(BlockRun(score, start, w))| == |BlockRun(score, start, w)|;
    assert |multiset(BlockIds(|score|, w, ib, ib + 1))| == |BlockIds(|score|, w, ib, ib + 1)|;
  }

  lemma Products(ib: nat, blocks: nat, x: nat)
    requires ib < blocks
    ensures ib * x + x == (ib + 1) * x && (ib + 1) * x <= blocks * x
    ensures ib < blocks - 1 ==> (ib + 1) * x <= (blocks - 1) * x
  {
    BlockBound(ib + 1, blocks, x);
    if ib < blocks - 1 {
      BlockBound(ib + 1, blocks - 1, x);
    }
  }

  lemma BlockBound(a: nat, b: nat, x: nat)
    requires a <= b
    ensures a * x <= b * x
  {
    assert (b - a) * x >= 0;
    assert b * x == a * x + (b - a) * x;
  }

  /** The row has room for exactly what block `ib` keeps. */
  lemma RoomForBlock(score: seq<real>, e: nat, w: nat, topK: nat, blocks: nat, tmp: seq<nat>, ib: nat, at: nat)
    requires w == Pow2(e) && TmpFits(tmp, |score|, w, topK, blocks) && ib < blocks && at == ib * topK
    ensures at < |tmp| && Min(at + topK, |tmp|) - at == |Kept(score, e, Block(ib, topK))|
  {
    RunLength(score, e, ib, w, ib * w);
    Products(ib, blocks, topK);
    Products(ib, blocks, w);
  }

  lemma KeptIsPrefix(score: seq<real>, e: nat, w: nat, ib: nat, keep: nat)
    requires w == Pow2(e)
    ensures Kept(score, e, Block(ib, keep)) <= ArgsortOrder(score, ib * w, w)
  {
    assert BlockRun(score, ib * w, w) <= ArgsortOrder(score, ib * w, w);
  }

  lemma SameCells(tmp: seq<nat>, at: nat, len: nat, order: seq<nat>, kept: seq<nat>)
    requires kept <= order && at < |tmp| && Min(at + len, |tmp|) - at == |kept|
    requires forall d :: at <= d < at + len && d < |tmp| ==> d - at < |order| && tmp[d] == order[d - at]
    ensures RunAt(tmp, at, len) == kept
  {
  }

  lemma BlockStands(score: seq<real>, e: nat, w: nat, topK: nat, blocks: nat, tmp: seq<nat>, ib: nat, at: nat, order: seq<nat>)
    requires w == Pow2(e) && TmpFits(tmp, |score|, w, topK, blocks) && ib < blocks && at == ib * topK
    requires Kept(score, e, Block(ib, topK)) <= order
    requires forall d :: at <= d < at + topK && d < |tmp| ==> d - at < |order| && tmp[d] == order[d - at]
    ensures Stands(score, e, topK, tmp, ib)
  {
    RoomForBlock(score, e, w, topK, blocks, tmp, ib, at);
    SameCells(tmp, at, topK, order, Kept(score, e, Block(ib, topK)));
  }

  lemma StillStands(score: seq<real>, e: nat, w: nat, topK: nat, blocks: nat, was: seq<nat>, tmp: seq<nat>, ib: nat, k: nat)
    requires Stands(score, e, topK, was, k) && k < ib && |was| == |tmp|
    requires forall d :: 0 <= d < |tmp| && d < ib * topK ==> tmp[d] == was[d]
    ensures Stands(score, e, topK, tmp, k)
  {
    Products(k, ib, topK);
    assert RunAt(tmp, k * topK, topK) == RunAt(was, k * topK, topK);
  }

  /** The argsort kernel on all the blocks of a row. */
  method SortBlocks(score: seq<real>, ghost e: nat, w: nat, topK: nat, blocks: nat, tmp: array<nat>)
    requires w == Pow2(e) && TmpFits(tmp[..], |score|, w, topK, blocks)
    modifies tmp
    ensures forall ib: nat :: ib < blocks ==> Stands(score, e, topK, tmp[..], ib)
  {
    for ib := 0 to blocks
      invariant forall k: nat :: k < ib ==> Stands(score, e, topK, tmp[..], k)
    {
      SortOneBlock(score, e, w, topK, blocks, ib, tmp);
    }
  }

  method SortOneBlock(score: seq<real>, ghost e: nat, w: nat, topK: nat, blocks: nat, ib: nat, tmp: array<nat>)
    requires w == Pow2(e) && TmpFits(tmp[..], |score|, w, topK, blocks) && ib < blocks
    requires forall k: nat :: k < ib ==> Stands(score, e, topK, tmp[..], k)
    modifies tmp
    ensures forall k: nat :: k <= ib ==> Stands(score, e, topK, tmp[..], k)
  {
    ghost var was := tmp[..];
    ArgsortBlock(score, ib, w, topK, tmp);
    ghost var now := tmp[..];
    KeptIsPrefix(score, e, w, ib, topK);
    BlockStands(score, e, w, topK, blocks, now, ib, ib * topK, ArgsortOrder(score, ib * w, w));
    forall k: nat | k < ib
      ensures Stands(score, e, topK, now, k)
    {
      StillStands(score, e, w, topK, blocks, was, now, ib, k);
    }
  }

  /** What a block keeps is a run. */
  lemma KeptIsRun(score: seq<real>, e: nat, ib: nat, keep: nat)
    ensures Run(score, Kept(score, e, Block(ib, keep)))
  {
    var ids := multiset(BlockIds(|score|, Pow2(e), ib, ib + 1));
    BlockIsFirst(score, e, Block(ib, keep), ib, Pow2(e), ib * Pow2(e), ids);
    FirstIsRun(score, Kept(score, e, Block(ib, keep)), ids, keep);
  }

  /** Group `im` reads the runs that stand from `start` on. */
  lemma GroupReads(tmp: seq<nat>, topK: nat, im: nat, start: nat)
    requires start == im * (2 * topK)
    ensures Left(tmp, topK, im) == RunAt(tmp, start, topK) && Right(tmp, topK, im) == RunAt(tmp, start + topK, topK)
  {
  }

  lemma GroupStart(im: nat, topK: nat)
    ensures im * (2 * topK) >= 0
    ensures (2 * im) * topK == im * (2 * topK) && (2 * im + 1) * topK == im * (2 * topK) + topK
  {
  }

  lemma RunsOfGroup(score: seq<real>, e: nat, topK: nat, tmp: seq<nat>, im: nat)
    requires Stands(score, e, topK, tmp, 2 * im) && Stands(score, e, topK, tmp, 2 * im + 1)
    ensures Left(tmp, topK, im) == Kept(score, e, Block(2 * im, topK)) && Run(score, Left(tmp, topK, im))
    ensures Right(tmp, topK, im) == Kept(score, e, Block(2 * im + 1, topK)) && Run(score, Right(tmp, topK, im))
  {
    GroupStart(im, topK);
    var start := im * (2 * topK);
    GroupReads(tmp, topK, im, start);
    RunOfBlock(score, e, topK, tmp, 2 * im, start, Left(tmp, topK, im));
    RunOfBlock(score, e, topK, tmp, 2 * im + 1, start + topK, Right(tmp, topK, im));
  }

  lemma RunOfBlock(score: seq<real>, e: nat, topK: nat, tmp: seq<nat>, ib: nat, at: nat, run: seq<nat>)
    requires Stands(score, e, topK, tmp, ib) && at == ib * topK && run == RunAt(tmp, at, topK)
    ensures run == Kept(score, e, Block(ib, topK)) && Run(score, run)
  {
    KeptIsRun(score, e, ib, topK);
  }

  /** The merge kernel on two neighbouring blocks, its threads in any order. */
  method MergeBlocks(score: seq<real>, ghost e: nat, topK: nat, tmp: seq<nat>, im: nat, ntg: nat, dst: array<nat>)
    returns (start: nat, n: nat)
    requires ntg > 0 && Stands(score, e, topK, tmp, 2 * im) && Stands(score, e, topK, tmp, 2 * im + 1)
    requires im * (2 * topK) + topK <= dst.Length
    modifies dst
    ensures start == im * (2 * topK) && start + n <= dst.Length
    ensures dst[start..start + n] == Kept(score, e, Join(Block(2 * im, topK), Block(2 * im + 1, topK), topK))
  {
    RunsOfGroup(score, e, topK, tmp, im);
    GroupStart(im, topK);
    ghost var was := dst[..];
    start, n := im * (2 * topK), Min(topK, |Left(tmp, topK, im)| + |Right(tmp, topK, im)|);
    MergeRuns(score, tmp, topK, topK, im, ntg, dst);
    FilledStart(dst[..], was, Merge(score, Left(tmp, topK, im), Right(tmp, topK, im)), start, n);
    assert dst[..][start..start + n] == dst[start..start + n];
  }

  /** Two blocks: the kernels together leave the first indices of the row's descending order. */
  method SortTwoBlocks(score: seq<real>, ghost e: nat, w: nat, topK: nat, ntg: nat, tmp: array<nat>, dst: array<nat>)
    returns (n: nat)
    requires w == Pow2(e) && TmpFits(tmp[..], |score|, w, topK, 2) && ntg > 0 && tmp != dst && topK <= dst.Length
    modifies tmp, dst
    ensures n <= dst.Length && FirstOf(score, dst[..n], multiset(Iota(0, |score|)), topK)
  {
    SortBlocks(score, e, w, topK, 2, tmp);
    assert Stands(score, e, topK, tmp[..], 0) && Stands(score, e, topK, tmp[..], 1);
    var start;
    start, n := MergeBlocks(score, e, topK, tmp[..], 0, ntg, dst);
    FirstOfTwo(score, e, w, topK, dst[..n]);
  }

  lemma FirstOfTwo(score: seq<real>, e: nat, w: nat, topK: nat, r: seq<nat>)
    requires w == Pow2(e) && |score| <= 2 * w && r == Kept(score, e, Join(Block(0, topK), Block(1, topK), topK))
    ensures FirstOf(score, r, multiset(Iota(0, |score|)), topK)
  {
    assert Covers(Block(0, topK), 0, 1) && Covers(Block(1, topK), 1, 2);
    FirstOfRow(score, e, Join(Block(0, topK), Block(1, topK), topK), 2, r);
  }

  lemma FirstOfRow(score: seq<real>, e: nat, plan: Plan, blocks: nat, r: seq<nat>)
    requires Covers(plan, 0, blocks) && blocks * Pow2(e) >= |score| && r == Kept(score, e, plan)
    ensures FirstOf(score, r, multiset(Iota(0, |score|)), plan.keep)
  {
    WholeRow(score, e, plan, blocks);
  }
}
