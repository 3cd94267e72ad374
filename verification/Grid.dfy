/**
 Rounding to the nearest point of an increasing grid of values, ties to the even code. The grid is a
 parameter: a function from codes to values, of which only the order and the doubling are used.
 */
module Grid {
  import opened Reals

  function Min(a: real, b: real): real {
    if a < b then a else b
  }

  function Max(a: real, b: real): real {
    if a > b then a else b
  }

  /** Codes 0..top carry strictly increasing values, starting at zero. */
  ghost predicate Increasing(v: nat -> real, top: nat) {
    v(0) == 0.0 && forall i: nat, j: nat :: i < j <= top ==> Below(v, i, j)
  }

  predicate Below(v: nat -> real, i: nat, j: nat) {
    v(i) < v(j)
  }

  /** The greatest code, from `k` down, whose value does not exceed `ax`. */
  function FloorCode(v: nat -> real, ax: real, k: nat): (c: nat)
    ensures c <= k && (c > 0 ==> v(c) <= ax) && (c < k ==> ax < v(c + 1))
  {
    if k == 0 || v(k) <= ax then k else FloorCode(v, ax, k - 1)
  }

  /** The nearer of the floor code and its successor; a tie goes to the even one. */
  function RoundCode(v: nat -> real, top: nat, ax: real): (c: nat)
    ensures c <= top
  {
    var lo := FloorCode(v, ax, top);
    if lo == top then lo
    else
      var below, above := ax - v(lo), v(lo + 1) - ax;
      if above < below || (above == below && lo % 2 == 1) then lo + 1 else lo
  }

  /** The rounded value of any real: magnitudes are clamped to the grid, the sign is kept. */
  function Rounded(v: nat -> real, top: nat, x: real): real {
    var r := v(RoundCode(v, top, Min(Abs(x), v(top))));
    if x < 0.0 then -r else r
  }

  lemma Ordered(v: nat -> real, top: nat, i: nat, j: nat)
    requires Increasing(v, top)
    ensures (i <= j <= top ==> v(i) <= v(j)) && (i < j <= top ==> v(i) < v(j))
  {
    assert i < j <= top ==> Below(v, i, j);
  }

  lemma FloorCodeUnique(v: nat -> real, top: nat, ax: real, c: nat)
    requires Increasing(v, top) && c <= top && v(c) <= ax && (c < top ==> ax < v(c + 1))
    ensures FloorCode(v, ax, top) == c
  {
    var f := FloorCode(v, ax, top);
    Ordered(v, top, f + 1, c);
    Ordered(v, top, c + 1, f);
  }

  /** The source's search: binary search for the floor code, then the tie rule. */
  method Search(v: nat -> real, top: nat, x: real) returns (r: real)
    requires Increasing(v, top)
    ensures r == Rounded(v, top, x)
  {
    var ax := Min(Abs(x), v(top));
    Ordered(v, top, 0, top);
    var lo, hi := 0, top;
    while lo < hi
      invariant 0 <= lo <= hi <= top && v(lo) <= ax
      invariant hi < top ==> ax < v(hi + 1)
    {
      var mid := (lo + hi + 1) / 2;
      if v(mid) <= ax {
        lo := mid;
      } else {
        hi := mid - 1;
      }
    }
    FloorCodeUnique(v, top, ax, lo);
    r := Nearer(v, top, ax, lo);
    r := if x < 0.0 then -r else r;
  }

  /** The source's tie rule between a floor code and its successor. */
  method Nearer(v: nat -> real, top: nat, ax: real, lo: nat) returns (r: real)
    requires FloorCode(v, ax, top) == lo && v(lo) <= ax
    ensures r == v(RoundCode(v, top, ax))
  {
    var best := lo;
    if best < top {
      var bestDiff := Abs(ax - v(best));
      var nextDiff := Abs(ax - v(best + 1));
      if nextDiff < bestDiff || (nextDiff == bestDiff && (best + 1) % 2 == 0 && best % 2 != 0) {
        best := best + 1;
      }
    }
    r := v(best);
  }

  // ---------------------------------------------------------------- what rounding does

  /** No grid value is nearer, and an equally near one means the chosen code is even. */
  lemma RoundCodeNearest(v: nat -> real, top: nat, ax: real, j: nat)
    requires Increasing(v, top) && 0.0 <= ax <= v(top) && j <= top
    ensures var c := RoundCode(v, top, ax);
            Abs(ax - v(c)) <= Abs(ax - v(j))
            && (Abs(ax - v(c)) == Abs(ax - v(j)) && j != c ==> c % 2 == 0)
  {
    var lo := FloorCode(v, ax, top);
    Ordered(v, top, j, lo);
    Ordered(v, top, lo + 1, j);
  }

  /** For every real: nearest among all values of both signs; a tie means an even code. */
  lemma RoundedNearest(v: nat -> real, top: nat, x: real, j: nat, y: real)
    requires Increasing(v, top) && j <= top && (y == v(j) || y == -v(j))
    ensures Abs(x - Rounded(v, top, x)) <= Abs(x - y)
    ensures Abs(x) <= v(top) && Abs(x - Rounded(v, top, x)) == Abs(x - y) && y != Rounded(v, top, x)
            ==> RoundCode(v, top, Abs(x)) % 2 == 0
  {
    var ax := Min(Abs(x), v(top));
    Ordered(v, top, 0, top);
    RoundCodeNearest(v, top, ax, j);
    RoundCodeNearest(v, top, ax, 0);
    Ordered(v, top, 0, j);
    Ordered(v, top, j, top);
    var c := RoundCode(v, top, ax);
    Ordered(v, top, c, top);
    Ordered(v, top, 0, c);
  }

  /** A grid value rounds to itself. */
  lemma RoundedFixed(v: nat -> real, top: nat, c: nat)
    requires Increasing(v, top) && c <= top
    ensures 0.0 <= v(c) <= v(top) && Rounded(v, top, v(c)) == v(c) && Rounded(v, top, -v(c)) == -v(c)
  {
    Ordered(v, top, 0, c);
    Ordered(v, top, c, top);
    Ordered(v, top, c, c + 1);
    FloorCodeUnique(v, top, v(c), c);
  }

  lemma RoundCodeMonotone(v: nat -> real, top: nat, a: real, b: real)
    requires Increasing(v, top) && 0.0 <= a <= b <= v(top)
    ensures RoundCode(v, top, a) <= RoundCode(v, top, b)
  {
    var f, g := FloorCode(v, a, top), FloorCode(v, b, top);
    Ordered(v, top, g + 1, f);
  }

  /** Rounding keeps the order of magnitudes. */
  lemma RoundedMonotone(v: nat -> real, top: nat, x: real, y: real)
    requires Increasing(v, top) && Abs(x) <= Abs(y)
    ensures 0.0 <= Abs(Rounded(v, top, x)) <= Abs(Rounded(v, top, y)) <= v(top)
  {
    Ordered(v, top, 0, top);
    var a, b := Min(Abs(x), v(top)), Min(Abs(y), v(top));
    RoundCodeMonotone(v, top, a, b);
    var c, d := RoundCode(v, top, a), RoundCode(v, top, b);
    Ordered(v, top, c, d);
    Ordered(v, top, 0, c);
    Ordered(v, top, d, top);
  }

  /** Rounding is a projection. */
  lemma RoundedTwice(v: nat -> real, top: nat, y: real)
    requires Increasing(v, top)
    ensures Rounded(v, top, Rounded(v, top, y)) == Rounded(v, top, y)
  {
    var c := RoundCode(v, top, Min(Abs(y), v(top)));
    RoundedFixed(v, top, c);
  }

  /** Twice the value of code `c` is a grid value. */
  ghost predicate HasDouble(v: nat -> real, top: nat, c: nat) {
    exists d: nat :: d <= top && v(d) == 2.0 * v(c)
  }

  lemma FixedAt(v: nat -> real, top: nat, d: nat, x: real)
    requires Increasing(v, top) && d <= top && (x == v(d) || x == -v(d))
    ensures Rounded(v, top, x) == x
  {
    RoundedFixed(v, top, d);
  }

  /** On a grid closed under doubling, twice a rounded value is a fixed point of rounding. */
  lemma RoundedDoubles(v: nat -> real, top: nat, y: real, r: real, x: real)
    requires Increasing(v, top) && forall c: nat :: c <= top && 2.0 * v(c) <= v(top) ==> HasDouble(v, top, c)
    requires r == Rounded(v, top, y) && 2.0 * Abs(r) <= v(top) && x == 2.0 * r
    ensures Rounded(v, top, x) == x
  {
    var c := RoundCode(v, top, Min(Abs(y), v(top)));
    DoubledCode(v, top, c, r, x);
  }

  lemma DoubledCode(v: nat -> real, top: nat, c: nat, r: real, x: real)
    requires Increasing(v, top) && c <= top && 2.0 * v(c) <= v(top) ==> HasDouble(v, top, c)
    requires Increasing(v, top) && c <= top && (r == v(c) || r == -v(c)) && 2.0 * Abs(r) <= v(top) && x == 2.0 * r
    ensures Rounded(v, top, x) == x
  {
    Ordered(v, top, 0, c);
    var d: nat :| d <= top && v(d) == 2.0 * v(c);
    FixedAt(v, top, d, x);
  }

  // ---------------------------------------------------------------- the laws block quantisation needs

  predicate Idempotent(f: real -> real, y: real) { f(f(y)) == f(y) }

  predicate DoublesToo(f: real -> real, y: real) { Abs(f(y)) <= 224.0 ==> f(2.0 * f(y)) == 2.0 * f(y) }

  predicate KeepsOrder(f: real -> real, x: real, y: real) { Abs(x) <= Abs(y) ==> Abs(f(x)) <= Abs(f(y)) <= 448.0 }

  /** `f` rounds to a grid up to 448 that holds 224 and doubles; it is a projection. */
  ghost predicate RoundsToFp8(f: real -> real) {
    && (forall y :: Idempotent(f, y)) && (forall y :: DoublesToo(f, y)) && (forall x, y :: KeepsOrder(f, x, y))
    && f(224.0) == 224.0
  }

  ghost predicate IsRounding(f: real -> real, v: nat -> real, top: nat) {
    forall x :: f(x) == Rounded(v, top, x)
  }

  lemma DoublesHere(v: nat -> real, top: nat, f: real -> real, y: real)
    requires Increasing(v, top) && v(top) == 448.0 && IsRounding(f, v, top)
    requires forall c: nat :: c <= top && 2.0 * v(c) <= v(top) ==> HasDouble(v, top, c)
    ensures DoublesToo(f, y)
  {
    var r := f(y);
    if Abs(r) <= 224.0 {
      var x := 2.0 * r;
      RoundedDoubles(v, top, y, r, x);
      assert f(x) == x;
    }
  }

  /** Rounding on a grid of the right shape obeys the laws. */
  lemma GridObeys(v: nat -> real, top: nat, f: real -> real, half: nat)
    requires Increasing(v, top) && v(top) == 448.0 && half <= top && v(half) == 224.0 && IsRounding(f, v, top)
    requires forall c: nat :: c <= top && 2.0 * v(c) <= v(top) ==> HasDouble(v, top, c)
    ensures RoundsToFp8(f)
  {
    forall y ensures Idempotent(f, y) { RoundedTwice(v, top, y); }
    forall y ensures DoublesToo(f, y) { DoublesHere(v, top, f, y); }
    forall x, y ensures KeepsOrder(f, x, y) {
      if Abs(x) <= Abs(y) {
        RoundedMonotone(v, top, x, y);
      }
    }
    FixedAt(v, top, half, 224.0);
  }
}
