/** Expert selection: the CPU insertion top-k and the GPU router's bitonic top-k. */
module TopK {
  import opened Bits
  import opened BitonicNetwork
  import opened BitonicSorts
  import opened SortKernels

  function Min(a: nat, b: nat): nat {
    if a < b then a else b
  }

  // ---------------------------------------------------------------- stable descending order

  /** `x` ranks above `y`: a greater score, or the same score and a smaller index. */
  predicate Above(score: seq<real>, x: nat, y: nat)
    requires x < |score| && y < |score|
  {
    score[x] > score[y] || (score[x] == score[y] && x < y)
  }

  predicate Ranked(score: seq<real>, r: seq<nat>) {
    (forall a :: 0 <= a < |r| ==> r[a] < |score|)
    && forall a, b :: 0 <= a < b < |r| ==> Above(score, r[a], r[b])
  }

  /** The first slot whose entry scores less than `value`; the row's length if there is none. */
  function Slot(score: seq<real>, kept: seq<nat>, value: real): (slot: nat)
    requires forall a :: 0 <= a < |kept| ==> kept[a] < |score|
    ensures slot <= |kept|
    ensures forall a :: 0 <= a < slot ==> score[kept[a]] >= value
    ensures slot < |kept| ==> score[kept[slot]] < value
  {
    if kept == [] || score[kept[0]] < value then 0 else 1 + Slot(score, kept[1..], value)
  }

  function InsertAt(kept: seq<nat>, slot: nat, x: nat, k: nat): (r: seq<nat>)
    requires slot <= |kept| <= k
  {
    var longer := kept[..slot] + [x] + kept[slot..];
    if |longer| > k then longer[..k] else longer
  }

  /** The filled slots after the first `n` candidates. */
  function Scan(score: seq<real>, n: nat, k: nat): (r: seq<nat>)
    requires n <= |score|
    ensures |r| == (Min(k, n)) && forall a :: 0 <= a < |r| ==> r[a] < n
  {
    if n == 0 then []
    else
      var kept := Scan(score, n - 1, k);
      InsertAt(kept, Slot(score, kept, score[n - 1]), n - 1, k)
  }

  /** Slots as the kernel stores them: `-1` stands for the empty marker. */
  ghost predicate Holds(idx: seq<int>, kept: seq<nat>) {
    |kept| <= |idx| && forall a :: 0 <= a < |idx| ==> idx[a] == if a < |kept| then kept[a] else -1
  }

  /** The inner search loop: the first slot that is empty or holds a lesser score. */
  method FindSlot(score: seq<real>, idx: array<int>, value: real, ghost kept: seq<nat>) returns (slot: nat)
    requires forall a :: 0 <= a < |kept| ==> kept[a] < |score|
    requires Holds(idx[..], kept)
    ensures slot == Slot(score, kept, value)
  {
    slot := 0;
    while slot < idx.Length
      invariant slot <= idx.Length && slot <= Slot(score, kept, value)
    {
      if idx[slot] == -1 || value > score[idx[slot]] {
        break;
      }
      slot := slot + 1;
    }
  }

  /** The inner shift loop: entries from `slot` on move down one, the last falls off. */
  method ShiftIn(idx: array<int>, slot: nat, candidate: int)
    requires slot < idx.Length
    modifies idx
    ensures idx[..] == old(idx[..slot]) + [candidate] + old(idx[slot..idx.Length - 1])
  {
    ghost var was := idx[..];
    var shift := idx.Length - 1;
    while shift > slot
      invariant slot <= shift < idx.Length
      invariant forall j :: 0 <= j <= shift ==> idx[j] == was[j]
      invariant forall j :: shift < j < idx.Length ==> idx[j] == was[j - 1]
    {
      idx[shift] := idx[shift - 1];
      shift := shift - 1;
    }
    idx[slot] := candidate;
    Shifted(idx[..], was, slot, candidate);
  }

  lemma Shifted(idx: seq<int>, was: seq<int>, slot: nat, candidate: int)
    requires |idx| == |was| && slot < |was| && idx[slot] == candidate
    requires forall j :: 0 <= j < slot ==> idx[j] == was[j]
    requires forall j :: slot < j < |idx| ==> idx[j] == was[j - 1]
    ensures idx == was[..slot] + [candidate] + was[slot..|was| - 1]
  {
  }

  /** The final filter: the slots that hold an index. */
  method Filled(idx: array<int>, ghost kept: seq<nat>) returns (r: seq<nat>)
    requires Holds(idx[..], kept)
    ensures r == kept
  {
    r := [];
    for a := 0 to idx.Length
      invariant r == kept[..Min(a, |kept|)]
    {
      if idx[a] != -1 {
        r := r + [idx[a]];
      }
    }
  }

  /** `topk_desc_indices`: insertion into a row of `k` slots. */
  method TopKDescIndices(score: seq<real>, k0: nat) returns (r: seq<nat>)
    ensures r == Scan(score, |score|, Min(k0, |score|))
  {
    var k := Min(k0, |score|);
    var idx := new int[k](_ => -1);
    for candidate := 0 to |score|
      invariant Holds(idx[..], Scan(score, candidate, k))
    {
      InsertCandidate(score, idx, candidate, Scan(score, candidate, k));
    }
    r := Filled(idx, Scan(score, |score|, k));
  }

  /** The body of the loop: the candidate takes its slot, or none. */
  method InsertCandidate(score: seq<real>, idx: array<int>, candidate: nat, ghost kept: seq<nat>)
    requires candidate < |score| && Holds(idx[..], kept) && forall a :: 0 <= a < |kept| ==> kept[a] < |score|
    modifies idx
    ensures Holds(idx[..], InsertAt(kept, Slot(score, kept, score[candidate]), candidate, idx.Length))
  {
    var slot := FindSlot(score, idx, score[candidate], kept);
    if slot < idx.Length {
      ghost var was := idx[..];
      ShiftIn(idx, slot, candidate);
      HoldsAfterShift(was, idx[..], kept, slot, candidate);
    } else {
      FullRowStays(kept, candidate, idx.Length);
    }
  }

  lemma FullRowStays(kept: seq<nat>, x: nat, k: nat)
    requires |kept| == k
    ensures InsertAt(kept, k, x, k) == kept
  {
  }

  lemma HoldsAfterShift(was: seq<int>, idx: seq<int>, kept: seq<nat>, slot: nat, x: nat)
    requires slot < |was| && slot <= |kept| && Holds(was, kept)
    requires idx == was[..slot] + [x] + was[slot..|was| - 1]
    ensures Holds(idx, InsertAt(kept, slot, x, |was|))
  {
  }

  // ---------------------------------------------------------------- the stable descending sort

  /** All `n` indices by insertion, with room for every one. */
  function StableSort(score: seq<real>, n: nat): (r: seq<nat>)
    requires n <= |score|
    ensures |r| == n && forall a :: 0 <= a < |r| ==> r[a] < n
  {
    if n == 0 then []
    else
      var r := StableSort(score, n - 1);
      var slot := Slot(score, r, score[n - 1]);
      r[..slot] + [n - 1] + r[slot..]
  }

  lemma InsertedIsRanked(score: seq<real>, r: seq<nat>, slot: nat, x: nat)
    requires Ranked(score, r) && slot <= |r| && x < |score|
    requires forall a :: 0 <= a < slot ==> Above(score, r[a], x)
    requires forall a :: slot <= a < |r| ==> Above(score, x, r[a])
    ensures Ranked(score, r[..slot] + [x] + r[slot..])
  {
    var l := r[..slot] + [x] + r[slot..];
    forall a, b | 0 <= a < b < |l|
      ensures Above(score, l[a], l[b])
    {
      if b > slot {
        assert l[b] == r[b - 1];
        if a > slot {
          assert l[a] == r[a - 1];
        }
      }
    }
  }

  lemma {:induction false} StableSortRanks(score: seq<real>, n: nat)
    requires n <= |score|
    ensures Ranked(score, StableSort(score, n))
  {
    if n == 0 {
    } else {
      StableSortRanks(score, n - 1);
      var r := StableSort(score, n - 1);
      var slot := Slot(score, r, score[n - 1]);
      forall a | slot <= a < |r|
        ensures Above(score, n - 1, r[a])
      {
        assert a == slot || Above(score, r[slot], r[a]);
      }
      InsertedIsRanked(score, r, slot, n - 1);
    }
  }

  lemma {:induction false} StableSortPermutes(score: seq<real>, n: nat)
    requires n <= |score|
    ensures multiset(StableSort(score, n)) == multiset(Iota(0, n))
  {
    if n == 0 {
    } else {
      StableSortPermutes(score, n - 1);
      var r := StableSort(score, n - 1);
      InsertedMultiset(r, Slot(score, r, score[n - 1]), n - 1);
      IotaGrows(n - 1);
    }
  }

  lemma InsertedMultiset(r: seq<nat>, slot: nat, x: nat)
    requires slot <= |r|
    ensures multiset(r[..slot] + [x] + r[slot..]) == multiset(r) + multiset{x}
  {
    assert r == r[..slot] + r[slot..];
  }

  lemma IotaGrows(last: nat)
    ensures multiset(Iota(0, last + 1)) == multiset(Iota(0, last)) + multiset{last}
  {
    assert Iota(0, last + 1) == Iota(0, last) + [last];
  }

  /** `StableSort` really is the stable descending sort of the first `n` indices. */
  lemma StableSortIsSort(score: seq<real>, n: nat)
    requires n <= |score|
    ensures Ranked(score, StableSort(score, n))
    ensures forall a, b :: 0 <= a < b < n ==>
              var x, y := StableSort(score, n)[a], StableSort(score, n)[b];
              score[x] >= score[y] && (score[x] == score[y] ==> x < y)
    ensures multiset(StableSort(score, n)) == multiset(Iota(0, n))
  {
    StableSortRanks(score, n);
    StableSortPermutes(score, n);
  }

  lemma {:induction false} SlotInPrefix(score: seq<real>, r: seq<nat>, m: nat, v: real)
    requires m <= |r| && forall a :: 0 <= a < |r| ==> r[a] < |score|
    ensures Slot(score, r[..m], v) == Min(Slot(score, r, v), m)
  {
    if m == 0 || score[r[0]] < v {
    } else {
      assert r[..m][1..] == r[1..][..m - 1];
      SlotInPrefix(score, r[1..], m - 1, v);
    }
  }

  lemma InsertionCommutesWithPrefix(r: seq<nat>, slot: nat, x: nat, k: nat)
    requires slot <= |r|
    ensures var m := Min(k, |r|);
            var long := r[..slot] + [x] + r[slot..];
            InsertAt(r[..m], Min(slot, m), x, k) == long[..Min(k, |long|)]
  {
    var m, long := Min(k, |r|), r[..slot] + [x] + r[slot..];
    if |r| < k {
      assert r[..m] == r;
    } else if slot < k {
      assert r[..m][..slot] == r[..slot];
      assert (r[..slot] + [x] + r[..m][slot..])[..k] == long[..k];
    } else {
      assert (r[..m][..m] + [x] + r[..m][m..])[..k] == r[..k];
    }
  }

  lemma ScanInserts(score: seq<real>, n: nat, k: nat, kept: seq<nat>, slot: nat)
    requires 0 < n <= |score| && kept == Scan(score, n - 1, k) && slot == Slot(score, kept, score[n - 1])
    ensures |kept| == Min(k, n - 1)
    ensures Scan(score, n, k) == InsertAt(kept, slot, n - 1, k)
  {
  }

  lemma StableSortInserts(score: seq<real>, n: nat, r: seq<nat>, slot: nat)
    requires 0 < n <= |score| && r == StableSort(score, n - 1) && slot == Slot(score, r, score[n - 1])
    ensures |r| == n - 1 && slot <= |r|
    ensures StableSort(score, n) == r[..slot] + [n - 1] + r[slot..]
  {
  }

  /** The CPU selection is exactly the first min(k, n) indices of the stable descending sort. */
  lemma {:induction false} ScanIsPrefixOfStableSort(score: seq<real>, n: nat, k: nat)
    requires n <= |score|
    ensures Scan(score, n, k) == StableSort(score, n)[..Min(k, n)]
  {
    if n == 0 {
    } else {
      var last: nat := n - 1;
      ScanIsPrefixOfStableSort(score, last, k);
      var r := StableSort(score, last);
      var kept, slot := r[..Min(k, last)], Slot(score, r, score[last]);
      SlotInPrefix(score, r, Min(k, last), score[last]);
      ScanInserts(score, n, k, kept, Min(slot, Min(k, last)));
      StableSortInserts(score, n, r, slot);
      InsertionCommutesWithPrefix(r, slot, last, k);
    }
  }

  // ---------------------------------------------------------------- the GPU router

  const ROUTER_EXPERTS := 256
  const ROUTER_USED := 6

  /** A score read by index; the network only ever moves indices that are in range. */
  function ScoreAt(score: seq<real>, x: nat): real {
    if x < |score| then score[x] else 0.0
  }

  predicate RouterSwap(sel: seq<real>, x: nat, y: nat, up: bool) {
    if up then ScoreAt(sel, x) < ScoreAt(sel, y) else ScoreAt(sel, x) > ScoreAt(sel, y)
  }

  function RouterOrder(sel: seq<real>): (order: seq<nat>)
    ensures |order| == |sel|
  {
    Network(Iota(0, |sel|), StageCount(|sel|), (x, y, up) => RouterSwap(sel, x, y, up))
  }

  /** Equal scores: the router takes the experts in the order of their numbers. */
  lemma EqualScoresKeepOrder(sel: seq<real>)
    requires forall i, j :: 0 <= i < j < |sel| ==> sel[i] == sel[j]
    ensures forall i :: 0 <= i < |sel| ==> RouterOrder(sel)[i] == i
  {
    NetworkKeeps(Iota(0, |sel|), StageCount(|sel|), (x, y, up) => RouterSwap(sel, x, y, up));
  }

  function SelectionScores(probs: seq<real>, bias: seq<real>, hasBias: bool): (sel: seq<real>)
    requires hasBias ==> |bias| == |probs|
    ensures |sel| == |probs|
  {
    seq(|probs|, i requires 0 <= i < |probs| => if hasBias then probs[i] + bias[i] else probs[i])
  }

  /** The copy of the selected experts, from a hash row or from the sorted indices. */
  method CopySelected(from: seq<int>, selected: array<int>)
    requires |from| >= ROUTER_USED && selected.Length == ROUTER_USED
    modifies selected
    ensures forall i :: 0 <= i < ROUTER_USED ==> selected[i] == from[i]
  {
    for i := 0 to ROUTER_USED
      invariant forall a :: 0 <= a < i ==> selected[a] == from[a]
    {
      selected[i] := from[i];
    }
  }

  function Map<T, U>(f: T -> U, s: seq<T>): (r: seq<U>)
    ensures |r| == |s|
  {
    seq(|s|, i requires 0 <= i < |s| => f(s[i]))
  }

  ghost predicate Falling(v: seq<real>) {
    forall a, b :: 0 <= a < b < |v| ==> v[a] >= v[b]
  }

  function Without<T>(s: seq<T>, b: nat): (r: seq<T>)
    requires b < |s|
    ensures multiset(s) == multiset(r) + multiset{s[b]}
  {
    assert s == s[..b] + [s[b]] + s[b + 1..];
    s[..b] + s[b + 1..]
  }

  lemma MapWithout<T, U>(f: T -> U, s: seq<T>, b: nat)
    requires b < |s|
    ensures multiset(Map(f, s)) == multiset(Map(f, Without(s, b))) + multiset{f(s[b])}
  {
    assert Map(f, Without(s, b)) == Without(Map(f, s), b);
  }

  lemma WithoutSame<T>(r: seq<T>, g: seq<T>, a: nat, b: nat)
    requires multiset(r) == multiset(g) && a < |r| && b < |g| && r[a] == g[b]
    ensures multiset(Without(r, a)) == multiset(Without(g, b))
  {
    assert multiset(Without(r, a)) == multiset(r) - multiset{r[a]};
    assert multiset(Without(g, b)) == multiset(g) - multiset{g[b]};
  }

  lemma {:induction false} MapKeepsMultisets<T, U>(f: T -> U, r: seq<T>, g: seq<T>)
    requires multiset(r) == multiset(g)
    ensures multiset(Map(f, r)) == multiset(Map(f, g))
    decreases |r|
  {
    assert |multiset(r)| == |r| && |multiset(g)| == |g|;
    if r == [] {
    } else {
      assert r[0] in multiset(g);
      var b :| 0 <= b < |g| && g[b] == r[0];
      WithoutSame(r, g, 0, b);
      MapKeepsMultisets(f, Without(r, 0), Without(g, b));
      MapWithout(f, r, 0);
      MapWithout(f, g, b);
    }
  }

  lemma HeadIsLargest(v: seq<real>, x: real)
    requires Falling(v) && x in multiset(v)
    ensures v != [] && v[0] >= x
  {
    var i :| 0 <= i < |v| && v[i] == x;
    assert i == 0 || v[0] >= v[i];
  }

  lemma TailMultiset(v: seq<real>)
    requires v != []
    ensures multiset(v[1..]) == multiset(v) - multiset{v[0]}
  {
    assert v == [v[0]] + v[1..];
  }

  lemma {:induction false} FallingUnique(v: seq<real>, w: seq<real>)
    requires Falling(v) && Falling(w) && multiset(v) == multiset(w)
    ensures v == w
    decreases |v|
  {
    assert |v| == |multiset(v)| == |multiset(w)| == |w|;
    if v == [] {
    } else {
      assert w[0] in multiset(w) && v[0] in multiset(v);
      HeadIsLargest(v, w[0]);
      HeadIsLargest(w, v[0]);
      SameTails(v, w);
      FallingTail(v);
      FallingTail(w);
      FallingUnique(v[1..], w[1..]);
      SameList(v, w);
    }
  }

  lemma SameTails(v: seq<real>, w: seq<real>)
    requires v != [] && w != [] && v[0] == w[0] && multiset(v) == multiset(w)
    ensures multiset(v[1..]) == multiset(w[1..])
  {
    TailMultiset(v);
    TailMultiset(w);
  }

  lemma FallingTail(v: seq<real>)
    requires v != [] && Falling(v)
    ensures Falling(v[1..])
  {
  }

  lemma SameList(v: seq<real>, w: seq<real>)
    requires v != [] && w != [] && v[0] == w[0] && v[1..] == w[1..]
    ensures v == w
  {
    assert v == [v[0]] + v[1..] && w == [w[0]] + w[1..];
  }

  lemma SameScores(score: seq<real>, r: seq<nat>, g: seq<nat>)
    requires multiset(r) == multiset(g)
    requires Falling(Map(x => ScoreAt(score, x), r)) && Falling(Map(x => ScoreAt(score, x), g))
    ensures |r| == |g| && forall p :: 0 <= p < |r| ==> ScoreAt(score, r[p]) == ScoreAt(score, g[p])
  {
    var f := x => ScoreAt(score, x);
    assert |multiset(r)| == |r| && |multiset(g)| == |g|;
    MapKeepsMultisets(f, r, g);
    FallingUnique(Map(f, r), Map(f, g));
    forall p | 0 <= p < |r|
      ensures ScoreAt(score, r[p]) == ScoreAt(score, g[p])
    {
      assert Map(f, r)[p] == Map(f, g)[p];
    }
  }

  lemma IotaInRange(s: seq<nat>, n: nat)
    requires multiset(s) == multiset(Iota(0, n))
    ensures forall i :: 0 <= i < |s| ==> s[i] < n
  {
    forall i | 0 <= i < |s|
      ensures s[i] < n
    {
      assert s[i] in multiset(Iota(0, n));
    }
  }

  /** The router's full order is a descending enumeration of all the experts. */
  lemma RouterOrderSorts(sel: seq<real>)
    requires IsPow2(|sel|)
    ensures multiset(RouterOrder(sel)) == multiset(Iota(0, |sel|))
    ensures forall i :: 0 <= i < |sel| ==> RouterOrder(sel)[i] < |sel|
    ensures Falling(Map(x => ScoreAt(sel, x), RouterOrder(sel)))
  {
    var e :| |sel| == Pow2(e);
    var swap := (x, y, up) => RouterSwap(sel, x, y, up);
    NetworkPermutes(Iota(0, |sel|), StageCount(|sel|), swap);
    IotaInRange(RouterOrder(sel), |sel|);
    NetworkSorts(Iota(0, |sel|), e, swap, (x, y) => ScoreAt(sel, x) >= ScoreAt(sel, y));
  }

  /** Each of `0..n` stands in a permutation of them exactly once. */
  lemma PermutedOnce(order: seq<nat>, n: nat, e: nat)
    requires multiset(order) == multiset(Iota(0, n)) && e < n
    ensures exists i :: 0 <= i < |order| && order[i] == e
    ensures forall i, j :: 0 <= i < j < |order| ==> order[i] != order[j] || order[i] != e
  {
    assert Iota(0, n)[e] == e;
    assert e in multiset(order);
    forall i, j | 0 <= i < j < |order| && order[i] == order[j] == e
      ensures false
    {
      TwiceCounts(order, i, j);
      IotaOnce(n, e);
    }
  }

  lemma TwiceCounts(s: seq<nat>, i: nat, j: nat)
    requires i < j < |s| && s[i] == s[j]
    ensures multiset(s)[s[i]] >= 2
  {
    assert s == s[..i] + [s[i]] + (s[i + 1..j] + [s[j]] + s[j + 1..]);
  }

  lemma {:induction false} IotaOnce(n: nat, e: nat)
    ensures multiset(Iota(0, n))[e] <= 1 && (e >= n ==> multiset(Iota(0, n))[e] == 0)
  {
    if n == 0 {
    } else {
      IotaOnce(n - 1, e);
      assert Iota(0, n) == Iota(0, n - 1) + [n - 1];
    }
  }

  lemma PrefixHas(s: seq<nat>, k: nat)
    requires k <= |s|
    ensures forall j :: 0 <= j < k ==> s[j] in s[..k]
  {
    forall j | 0 <= j < k
      ensures s[j] in s[..k]
    {
      assert s[..k][j] == s[j];
    }
  }

  /** The leading entries of a descending order of all indices: distinct, descending, and the best there are. */
  lemma LeadingAreBest(score: seq<real>, order: seq<nat>, k: nat)
    requires multiset(order) == multiset(Iota(0, |score|)) && Falling(Map(x => ScoreAt(score, x), order)) && k <= |order|
    requires forall i :: 0 <= i < |order| ==> order[i] < |score|
    ensures forall i, j :: 0 <= i < j < k ==> order[i] != order[j] && score[order[i]] >= score[order[j]]
    ensures forall i, e :: 0 <= i < k && 0 <= e < |score| && e !in order[..k] ==> score[order[i]] >= score[e]
  {
    var f := x => ScoreAt(score, x);
    assert forall i :: 0 <= i < |order| ==> Map(f, order)[i] == score[order[i]];
    forall i, j | 0 <= i < j < k
      ensures order[i] != order[j]
    {
      PermutedOnce(order, |score|, order[i]);
    }
    forall i, e | 0 <= i < k && 0 <= e < |score| && e !in order[..k]
      ensures score[order[i]] >= score[e]
    {
      PermutedOnce(order, |score|, e);
      var j :| 0 <= j < |order| && order[j] == e;
      PrefixHas(order, k);
      assert j >= k;
    }
  }

  /**
   Six experts, no two the same, by descending probability plus bias (the probability alone without
   one), and no other expert has more.
   */
  ghost predicate BestSix(probs: seq<real>, bias: seq<real>, hasBias: bool, picked: seq<int>)
    requires |probs| == 256 && (hasBias ==> |bias| == 256)
  {
    && |picked| == 6 && (forall i :: 0 <= i < 6 ==> 0 <= picked[i] < 256)
    && (forall i, j :: 0 <= i < j < 6 ==> picked[i] != picked[j])
    && (forall i, j :: 0 <= i < j < 6 ==>
          if hasBias then probs[picked[i]] + bias[picked[i]] >= probs[picked[j]] + bias[picked[j]]
          else probs[picked[i]] >= probs[picked[j]])
    && (forall i, e :: 0 <= i < 6 && 0 <= e < 256 && e !in picked ==>
          if hasBias then probs[picked[i]] + bias[picked[i]] >= probs[e] + bias[e] else probs[picked[i]] >= probs[e])
  }

  lemma RouterPicksBest(probs: seq<real>, bias: seq<real>, hasBias: bool, sel: seq<real>, order: seq<nat>, picked: seq<int>)
    requires |probs| == 256 && (hasBias ==> |bias| == 256)
    requires sel == SelectionScores(probs, bias, hasBias) && order == RouterOrder(sel)
    requires |picked| == 6 && forall i :: 0 <= i < 6 ==> picked[i] == order[i]
    ensures BestSix(probs, bias, hasBias, picked)
  {
    IsPow2Of(8);
    RouterOrderSorts(sel);
    LeadingAreBest(sel, order, 6);
    ScoresAreSums(probs, bias, hasBias, sel, order, picked);
  }

  lemma ScoresAreSums(probs: seq<real>, bias: seq<real>, hasBias: bool, sel: seq<real>, order: seq<nat>, picked: seq<int>)
    requires |probs| == |order| == 256 && (hasBias ==> |bias| == 256) && sel == SelectionScores(probs, bias, hasBias)
    requires |picked| == 6 && forall i :: 0 <= i < 6 ==> picked[i] == order[i]
    requires forall i :: 0 <= i < 6 ==> order[i] < 256
    requires forall i, j :: 0 <= i < j < 6 ==> order[i] != order[j] && sel[order[i]] >= sel[order[j]]
    requires forall i, e :: 0 <= i < 6 && 0 <= e < 256 && e !in order[..6] ==> sel[order[i]] >= sel[e]
    ensures BestSix(probs, bias, hasBias, picked)
  {
    forall e | 0 <= e < 256 && e !in picked
      ensures e !in order[..6]
    {
      assert forall i :: 0 <= i < 6 ==> order[..6][i] == picked[i];
    }
  }

  lemma IsPow2Of(e: nat)
    ensures IsPow2(Pow2(e)) && Pow2(8) == 256
  {
    assert Pow2(4) == 16;
  }

  /** `kernel_dsv4_router_finalize_one`: hash lookup, or bitonic top-k of the biased scores. */
  method RouterFinalizeOne(probs: seq<real>, bias: seq<real>, hasBias: bool, hashMode: bool,
                           token: nat, hash: seq<int>, hashRows: nat, selected: array<int>)
    requires |probs| == 256 && (hasBias ==> |bias| == 256)
    requires hashMode ==> hashRows > 0 && |hash| == hashRows * 6
    requires selected.Length == 6
    modifies selected
    ensures !hashMode ==>
              forall i :: 0 <= i < 6 ==> selected[i] == RouterOrder(SelectionScores(probs, bias, hasBias))[i]
    ensures !hashMode ==> BestSix(probs, bias, hasBias, selected[..])
    ensures hashMode ==>
              var row := if token < hashRows - 1 then token else hashRows - 1;
              forall i :: 0 <= i < 6 ==> row * 6 + i < |hash| && selected[i] == hash[row * 6 + i]
  {
    var sel := SelectionScores(probs, bias, hasBias);
    var idx := new nat[ROUTER_EXPERTS](tid => tid);
    if hashMode {
      var row := if token < hashRows - 1 then token else hashRows - 1;
      assert row * ROUTER_USED + ROUTER_USED <= |hash|;
      CopySelected(hash[row * ROUTER_USED..], selected);
    } else {
      assert idx[..] == Iota(0, ROUTER_EXPERTS);
      RunNetwork(idx, (x, y, up) => RouterSwap(sel, x, y, up));
      CopySelected(idx[..], selected);
      RouterPicksBest(probs, bias, hasBias, sel, idx[..], selected[..]);
    }
  }

  lemma PrefixAgrees(score: seq<real>, cpu: seq<nat>, ranked: seq<nat>, gpu: seq<nat>, p: nat)
    requires p < |cpu| <= |ranked| == |gpu| && cpu == ranked[..|cpu|]
    requires ScoreAt(score, ranked[p]) == ScoreAt(score, gpu[p]) && ranked[p] < |score| && gpu[p] < |score|
    ensures cpu[p] < |score| && gpu[p] < |score| && score[cpu[p]] == score[gpu[p]]
  {
  }

  /**
   CPU and GPU agree: for every score row of power-of-two length, the scores the insertion top-k
   selects equal, place by place, those of the router's bitonic selection.
   */
  lemma RouterAgreesWithCpu(sel: seq<real>, k: nat, p: nat)
    requires IsPow2(|sel|) && p < k && p < |sel|
    ensures var cpu, gpu := Scan(sel, |sel|, Min(k, |sel|)), RouterOrder(sel);
            p < |cpu| && cpu[p] < |sel| && gpu[p] < |sel| && sel[cpu[p]] == sel[gpu[p]]
  {
    var n := |sel|;
    StableSortIsSort(sel, n);
    RouterOrderSorts(sel);
    SameScores(sel, StableSort(sel, n), RouterOrder(sel));
    ScanIsPrefixOfStableSort(sel, n, Min(k, n));
    PrefixAgrees(sel, Scan(sel, n, Min(k, n)), StableSort(sel, n), RouterOrder(sel), p);
  }
}
