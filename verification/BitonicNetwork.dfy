/** The bitonic sorting network shared by the three sorting kernels. */
module BitonicNetwork {
  // One kernel round is `Round`; `Network` is the whole double loop. `swap(x, y, up)` is the kernel's test
  // for exchanging the lower-numbered entry `x` with its partner `y`.

  import opened Bits

  type Swap<!T> = (T, T, bool) -> bool

  /** Value of cell `i` after every thread has done its compare-exchange at stride `j`. */
  function Cell<T>(s: seq<T>, k: nat, j: nat, swap: Swap<T>, i: nat): T
    requires i < |s|
  {
    var o := Xor(i, j);
    if o >= |s| then s[i]
    else
      var lo, hi := if o > i then i else o, if o > i then o else i;
      if swap(s[lo], s[hi], And(lo, k) == 0) then s[o] else s[i]
  }

  function Round<T>(s: seq<T>, k: nat, j: nat, swap: Swap<T>): (r: seq<T>)
    ensures |r| == |s|
  {
    seq(|s|, i requires 0 <= i < |s| => Cell(s, k, j, swap, i))
  }

  /** Rounds at strides 2^q, ..., 2, 1 of stage `k`. */
  function Strides<T>(s: seq<T>, k: nat, q: nat, swap: Swap<T>): (r: seq<T>)
    ensures |r| == |s|
    decreases q
  {
    var s' := Round(s, k, Pow2(q), swap);
    if q == 0 then s' else Strides(s', k, q - 1, swap)
  }

  /** Stages k = 2, 4, ..., 2^p. */
  function Network<T>(s: seq<T>, p: nat, swap: Swap<T>): (r: seq<T>)
    ensures |r| == |s|
    decreases p
  {
    if p == 0 then s else Strides(Network(s, p - 1, swap), Pow2(p), p - 1, swap)
  }

  // ---------------------------------------------------------------- the kernel loops

  /** The thread numbers of a group of `n`. */
  function Threads(n: nat): (w: set<nat>)
    ensures forall t: nat :: t in w <==> t < n
    ensures |w| == n
  {
    if n == 0 then {} else Threads(n - 1) + {n - 1}
  }

  /** What thread `col` does in one round, on the cells as it finds them. */
  function Act<T>(s: seq<T>, k: nat, j: nat, swap: Swap<T>, col: nat): (r: seq<T>)
    requires col < |s|
    ensures |r| == |s|
  {
    var ixj := Xor(col, j);
    if ixj > col && ixj < |s| && swap(s[col], s[ixj], And(col, k) == 0) then
      s[col := s[ixj]][ixj := s[col]]
    else s
  }

  /** The thread that moves cell `i` in a round: the lower of the two partners. */
  function Owner(i: nat, j: nat): nat {
    if Xor(i, j) > i then i else Xor(i, j)
  }

  /** Mid-round state: the threads in `waiting` have not run yet, all others have. */
  ghost predicate MidRound<T>(s: seq<T>, cur: seq<T>, k: nat, j: nat, swap: Swap<T>, waiting: set<nat>)
  {
    |cur| == |s|
    && forall i: nat :: i < |s| ==> cur[i] == if Owner(i, j) in waiting then s[i] else Cell(s, k, j, swap, i)
  }

  lemma PartnersAreMutual(i: nat, q: nat)
    ensures Xor(i, Pow2(q)) != i && Xor(Xor(i, Pow2(q)), Pow2(q)) == i
  {
    XorFlipsDigit(i, q);
    XorFlipsDigit(Xor(i, Pow2(q)), q);
  }

  lemma ThreadAdvances<T>(s: seq<T>, cur: seq<T>, k: nat, q: nat, swap: Swap<T>, waiting: set<nat>, col: nat)
    requires MidRound(s, cur, k, Pow2(q), swap, waiting)
    requires col in waiting && col < |s|
    ensures MidRound(s, Act(cur, k, Pow2(q), swap, col), k, Pow2(q), swap, waiting - {col})
    ensures multiset(Act(cur, k, Pow2(q), swap, col)) == multiset(cur)
  {
    var j := Pow2(q);
    var next := Act(cur, k, j, swap, col);
    PartnersAreMutual(col, q);
    forall i: nat | i < |s|
      ensures next[i] == if Owner(i, j) in waiting - {col} then s[i] else Cell(s, k, j, swap, i)
    {
      PartnersAreMutual(i, q);
      if Owner(i, j) == col {
        assert i == col || i == Xor(col, j);
      } else {
        assert i != col || Xor(col, j) < col;
      }
    }
  }

  /** One round: the threads run in any order, and a barrier ends the round. */
  method RunRound<T>(sh: array<T>, k: nat, j: nat, ghost q: nat, swap: Swap<T>)
    requires j == Pow2(q)
    modifies sh
    ensures sh[..] == Round(old(sh[..]), k, j, swap)
    ensures multiset(sh[..]) == multiset(old(sh[..]))
  {
    ghost var s := sh[..];
    var waiting := Threads(sh.Length);
    while waiting != {}
      invariant waiting <= Threads(sh.Length)
      invariant MidRound(s, sh[..], k, j, swap, waiting)
      invariant multiset(sh[..]) == multiset(s)
      decreases |waiting|
    {
      ghost var cur := sh[..];
      var col :| col in waiting;
      ThreadAdvances(s, cur, k, q, swap, waiting, col);
      waiting := waiting - {col};
      var ixj := Xor(col, j);
      if ixj > col && ixj < sh.Length {
        if swap(sh[col], sh[ixj], And(col, k) == 0) {
          sh[col], sh[ixj] := sh[ixj], sh[col];
        }
      }
      assert sh[..] == Act(cur, k, j, swap, col);
    }
  }

  /** Number of stages the outer loop runs for `n` cells: k = 2, 4, ... while k <= n. */
  function StageCount(n: nat): nat {
    if n < 2 then 0 else 1 + StageCount(n / 2)
  }

  lemma {:induction false} StageCountBrackets(n: nat, p: nat)
    requires p > 0 && n < Pow2(p) && (p == 1 || Pow2(p - 1) <= n)
    ensures StageCount(n) == p - 1
  {
    if n < 2 {
    } else {
      assert p > 1;
      StageCountBrackets(n / 2, p - 1);
    }
  }

  lemma {:induction false} StageCountOfPow2(e: nat)
    ensures StageCount(Pow2(e)) == e
  {
    if e == 0 {
    } else {
      StageCountOfPow2(e - 1);
    }
  }

  /** The two nested stage loops around the rounds. */
  method RunNetwork<T>(sh: array<T>, swap: Swap<T>)
    modifies sh
    ensures sh[..] == Network(old(sh[..]), StageCount(sh.Length), swap)
    ensures multiset(sh[..]) == multiset(old(sh[..]))
  {
    ghost var s := sh[..];
    var k := 2;
    ghost var p := 1;
    while k <= sh.Length
      invariant p >= 1 && k == Pow2(p) && (p == 1 || Pow2(p - 1) <= sh.Length)
      invariant sh[..] == Network(s, p - 1, swap)
      invariant multiset(sh[..]) == multiset(s)
      decreases sh.Length + 1 - k
    {
      ghost var goal := Network(s, p, swap);
      var j := k / 2;
      ghost var q := p - 1;
      while j > 0
        invariant -1 <= q < p && j == if q < 0 then 0 else Pow2(q)
        invariant goal == if q < 0 then sh[..] else Strides(sh[..], k, q, swap)
        invariant multiset(sh[..]) == multiset(s)
        decreases j
      {
        RunRound(sh, k, j, q, swap);
        j := j / 2;
        q := q - 1;
      }
      k := k * 2;
      p := p + 1;
    }
    StageCountBrackets(sh.Length, p);
  }

  // ---------------------------------------------------------------- cells that are never exchanged

  ghost predicate NoneSwaps<T(!new)>(s: seq<T>, swap: Swap<T>) {
    forall x, y, up :: x in s && y in s ==> !swap(x, y, up)
  }

  lemma {:induction false} StridesKeep<T(!new)>(s: seq<T>, k: nat, q: nat, swap: Swap<T>)
    requires NoneSwaps(s, swap)
    ensures Strides(s, k, q, swap) == s
    decreases q
  {
    assert Round(s, k, Pow2(q), swap) == s;
    if q == 0 {
    } else {
      StridesKeep(s, k, q - 1, swap);
    }
  }

  /** Entries of which the test exchanges no two stay where they are. */
  lemma {:induction false} NetworkKeeps<T(!new)>(s: seq<T>, p: nat, swap: Swap<T>)
    requires NoneSwaps(s, swap)
    ensures Network(s, p, swap) == s
  {
    if p == 0 {
    } else {
      NetworkKeeps(s, p - 1, swap);
      StridesKeep(s, Pow2(p), p - 1, swap);
    }
  }

  // ---------------------------------------------------------------- every round is a permutation

  lemma RoundPermutes<T>(s: seq<T>, k: nat, q: nat, swap: Swap<T>)
    ensures multiset(Round(s, k, Pow2(q), swap)) == multiset(s)
  {
    var cur, waiting := s, Threads(|s|);
    while waiting != {}
      invariant waiting <= Threads(|s|) && MidRound(s, cur, k, Pow2(q), swap, waiting)
      invariant multiset(cur) == multiset(s)
      decreases |waiting|
    {
      var col :| col in waiting;
      ThreadAdvances(s, cur, k, q, swap, waiting, col);
      cur, waiting := Act(cur, k, Pow2(q), swap, col), waiting - {col};
    }
    assert cur == Round(s, k, Pow2(q), swap);
  }

  lemma {:induction false} StridesPermute<T>(s: seq<T>, k: nat, q: nat, swap: Swap<T>)
    ensures multiset(Strides(s, k, q, swap)) == multiset(s)
    decreases q
  {
    RoundPermutes(s, k, q, swap);
    if q == 0 {
    } else {
      StridesPermute(Round(s, k, Pow2(q), swap), k, q - 1, swap);
    }
  }

  lemma {:induction false} NetworkPermutes<T>(s: seq<T>, p: nat, swap: Swap<T>)
    ensures multiset(Network(s, p, swap)) == multiset(s)
  {
    if p == 0 {
    } else {
      NetworkPermutes(s, p - 1, swap);
      StridesPermute(Network(s, p - 1, swap), Pow2(p), p - 1, swap);
    }
  }
}
