/**
 Equal-sized records laid end to end in one buffer, as the batch kernels keep them: the batch forms work
 on the buffer, and the lemmas give back the record that stands at each place.
 */
module Flat {
  function Init<T>(s: seq<T>): (r: seq<T>)
    requires s != []
    ensures |r| == |s| - 1
  {
    s[..|s| - 1]
  }

  function Last<T>(s: seq<T>): T
    requires s != []
  {
    s[|s| - 1]
  }

  function Concat<T>(xs: seq<seq<T>>): seq<T> {
    if xs == [] then [] else Concat(Init(xs)) + Last(xs)
  }

  ghost predicate Sized<T>(xs: seq<seq<T>>, d: nat) {
    forall i :: 0 <= i < |xs| ==> |xs[i]| == d
  }

  lemma ConcatAppends<T>(xs: seq<seq<T>>, x: seq<T>)
    ensures Concat(xs + [x]) == Concat(xs) + x
  {
    assert Init(xs + [x]) == xs;
  }

  lemma {:induction false} ConcatLength<T>(xs: seq<seq<T>>, d: nat)
    requires Sized(xs, d)
    ensures |Concat(xs)| == |xs| * d
  {
    if xs == [] {
    } else {
      ConcatLength(Init(xs), d);
      OneMore(|Init(xs)|, |xs|, d);
    }
  }

  lemma OneMore(m: nat, n: nat, d: nat)
    requires n == m + 1
    ensures n * d == m * d + d
  {
  }

  /** Record `t` is cells `t*d..(t+1)*d`. */
  lemma {:induction false} RecordAt<T>(xs: seq<seq<T>>, d: nat, t: nat)
    requires Sized(xs, d) && t < |xs|
    ensures 0 <= t * d <= (t + 1) * d <= |Concat(xs)|
    ensures Concat(xs)[t * d..(t + 1) * d] == xs[t]
  {
    ConcatLength(xs, d);
    ConcatLength(Init(xs), d);
    Ordered(t, |xs|, d);
    if t == |xs| - 1 {
    } else {
      RecordAt(Init(xs), d, t);
      assert Concat(xs)[..|Concat(Init(xs))|] == Concat(Init(xs));
      assert Concat(xs)[t * d..(t + 1) * d] == Concat(Init(xs))[t * d..(t + 1) * d];
    }
  }

  lemma Ordered(t: nat, n: nat, d: nat)
    requires t < n
    ensures 0 <= t * d <= (t + 1) * d <= n * d
  {
  }

  /** Record `t` of a buffer read in records of `d` cells. */
  function Record<T>(flat: seq<T>, d: nat, t: nat): seq<T> {
    if 0 <= t * d <= (t + 1) * d <= |flat| then flat[t * d..(t + 1) * d] else []
  }

  /** The first `n` records of a buffer. */
  function Records<T>(flat: seq<T>, d: nat, n: nat): (r: seq<seq<T>>)
    ensures |r| == n
  {
    seq(n, t requires 0 <= t < n => Record(flat, d, t))
  }

  /** Reading back what was laid end to end. */
  lemma RecordsOfConcat<T>(xs: seq<seq<T>>, d: nat)
    requires Sized(xs, d) && d > 0
    ensures |Concat(xs)| % d == 0 && |Concat(xs)| / d == |xs| && Records(Concat(xs), d, |xs|) == xs
  {
    ConcatLength(xs, d);
    ProductDivides(|xs|, d);
    forall t | 0 <= t < |xs|
      ensures Record(Concat(xs), d, t) == xs[t]
    {
      RecordAt(xs, d, t);
    }
  }

  lemma QuotientUnique(d: nat, q: int, r: nat, q': int, r': nat)
    requires r < d && r' < d && q * d + r == q' * d + r'
    ensures q == q' && r == r'
  {
    assert (q - q') * d == r' - r;
    if q - q' > 0 {
      AtLeastOnce(q - q', d);
    } else if q - q' < 0 {
      AtLeastOnce(q' - q, d);
    }
  }

  lemma AtLeastOnce(k: int, d: nat)
    requires k >= 1
    ensures k * d >= d
  {
  }

  lemma ProductDivides(n: nat, d: nat)
    requires d > 0
    ensures (n * d) % d == 0 && (n * d) / d == n
  {
    QuotientUnique(d, (n * d) / d, (n * d) % d, n, 0);
  }

  lemma RecordFits<T>(flat: seq<T>, d: nat, t: nat)
    requires d > 0 && t < |flat| / d
    ensures 0 <= t * d <= (t + 1) * d <= |flat| && |Record(flat, d, t)| == d
  {
    Ordered(t, |flat| / d, d);
  }
}
