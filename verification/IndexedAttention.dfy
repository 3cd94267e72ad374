/** The two indexed attention kernels: one row, or four rows at a time. */
module IndexedAttention {
  // Both attend the same row sequence: the raw window out of the ring, then the selected compressed rows.

  import opened Softmax
  import opened SortKernels
  import opened Seqs

  /** Kernel arguments of one token and one head; counts are small enough not to wrap. */
  datatype Args = Args(
    token: nat, nTokens: nat, pos0: nat, nRaw: nat, window: nat,
    rawStart: nat, rawCap: nat, ratio: nat, nComp: nat)
  {
    ghost predicate Valid(h: Head, rawKv: seq<Vec>, compKv: seq<Vec>) {
      && token < nTokens && nRaw <= pos0 + nTokens && rawCap > 0 && ratio > 0
      && rawCap <= |rawKv| && nComp <= |compKv| && Fits(h, rawKv) && Fits(h, compKv)
    }

    function QPos(): nat { pos0 + token }

    function FirstRawPos(): int { pos0 + nTokens - nRaw }

    function First(): int {
      var windowFirst := if window != 0 && QPos() + 1 > window then QPos() + 1 - window else 0;
      if FirstRawPos() > windowFirst then FirstRawPos() else windowFirst
    }

    function Last(): int {
      var rawLast := FirstRawPos() + nRaw - 1;
      if QPos() < rawLast then QPos() else rawLast
    }

    function Visible(): nat
      requires ratio > 0
    {
      var v := (QPos() + 1) / ratio;
      if v < nComp then v else nComp
    }
  }

  /** Ring cell of logical position `pos`. */
  function RingRow(a: Args, pos: int): (row: nat)
    requires a.rawCap > 0 && a.FirstRawPos() <= pos
    ensures row < a.rawCap
  {
    (a.rawStart + (pos - a.FirstRawPos())) % a.rawCap
  }

  /** Rows of the raw window, positions `first..=last`. */
  function WindowRows(a: Args, rawKv: seq<Vec>, first: int, last: int): (r: seq<Vec>)
    requires 0 < a.rawCap <= |rawKv| && a.FirstRawPos() <= first
    decreases last + 1 - first
  {
    if first > last then [] else [rawKv[RingRow(a, first)]] + WindowRows(a, rawKv, first + 1, last)
  }

  /** Selected ids in order: negative ones are skipped, the first invisible one ends the scan. */
  function Selected(topk: seq<int>, visible: nat): (ids: seq<nat>)
    ensures forall x :: x in ids ==> x < visible
  {
    if topk == [] then []
    else if topk[0] < 0 then Selected(topk[1..], visible)
    else if topk[0] >= visible then []
    else [topk[0]] + Selected(topk[1..], visible)
  }

  function Gather(kv: seq<Vec>, ids: seq<nat>): (r: seq<Vec>)
    requires forall x :: x in ids ==> x < |kv|
    ensures |r| == |ids|
  {
    seq(|ids|, i requires 0 <= i < |ids| => assert ids[i] in ids; kv[ids[i]])
  }

  /** Every row the head attends, in the order it attends them. */
  function AttendedRows(a: Args, rawKv: seq<Vec>, compKv: seq<Vec>, topk: seq<int>): seq<Vec>
    requires a.rawCap > 0 && a.rawCap <= |rawKv| && a.nComp <= |compKv| && a.ratio > 0
  {
    WindowRows(a, rawKv, a.First(), a.Last()) + Gather(compKv, Selected(topk, a.Visible()))
  }

  // ---------------------------------------------------------------- which rows these are

  /** A token may look at raw position `p`: among the newest `nRaw`, not after itself, inside the window. */
  ghost predicate SeesRaw(a: Args, p: int) {
    && a.pos0 + a.nTokens - a.nRaw <= p < a.pos0 + a.nTokens
    && p <= a.pos0 + a.token
    && (a.window == 0 || p + a.window > a.pos0 + a.token)
  }

  /** It may look at compressed row `c` when all the positions that row stands for are behind it. */
  ghost predicate SeesCompressed(a: Args, c: int) {
    0 <= c < a.nComp && (c + 1) * a.ratio <= a.pos0 + a.token + 1
  }

  /** The ids that stand in the list, negative ones left out. */
  function Kept(ids: seq<int>): (r: seq<nat>) {
    if ids == [] then [] else (if ids[0] < 0 then [] else [ids[0]]) + Kept(ids[1..])
  }

  /** `ids` are those of `topk` before the first one the token may not look at. */
  ghost predicate Chosen(a: Args, topk: seq<int>, ids: seq<nat>, stop: nat) {
    && stop <= |topk| && ids == Kept(topk[..stop])
    && (forall k :: 0 <= k < stop && topk[k] >= 0 ==> SeesCompressed(a, topk[k]))
    && (stop < |topk| ==> topk[stop] >= 0 && !SeesCompressed(a, topk[stop]))
  }

  /** `ps` are all the raw positions the token may look at, ascending. */
  ghost predicate WindowOf(a: Args, ps: seq<int>) {
    && (forall p :: p in ps <==> SeesRaw(a, p))
    && (forall i, j :: 0 <= i < j < |ps| ==> ps[i] < ps[j])
  }

  /**
   The rows attended: for every raw position in sight, ascending, the ring cell it is kept in; then
   the compressed rows of the chosen ids, in order.
   */
  ghost predicate Attends(a: Args, rawKv: seq<Vec>, compKv: seq<Vec>, topk: seq<int>,
                          ps: seq<int>, ids: seq<nat>, stop: nat, rows: seq<Vec>)
    requires 0 < a.rawCap <= |rawKv|
  {
    && WindowOf(a, ps) && Chosen(a, topk, ids, stop) && |rows| == |ps| + |ids|
    && (forall k :: 0 <= k < |ps| ==> rows[k] == rawKv[(a.rawStart + ps[k] - (a.pos0 + a.nTokens - a.nRaw)) % a.rawCap])
    && (forall k :: 0 <= k < |ids| ==> ids[k] < |compKv| && rows[|ps| + k] == compKv[ids[k]])
  }

  function Positions(first: int, last: int): (ps: seq<int>)
    ensures |ps| == if first > last then 0 else last + 1 - first
    ensures forall k :: 0 <= k < |ps| ==> ps[k] == first + k
  {
    if first > last then [] else seq(last + 1 - first, k => first + k)
  }

  lemma PositionsSeen(a: Args)
    requires a.token < a.nTokens && a.nRaw <= a.pos0 + a.nTokens
    ensures WindowOf(a, Positions(a.First(), a.Last()))
  {
    var ps := Positions(a.First(), a.Last());
    forall p
      ensures p in ps <==> SeesRaw(a, p)
    {
      if a.First() <= p <= a.Last() {
        assert ps[p - a.First()] == p;
      }
    }
  }

  lemma {:induction false} WindowRowsAre(a: Args, rawKv: seq<Vec>, first: int, last: int)
    requires 0 < a.rawCap <= |rawKv| && a.FirstRawPos() <= first
    ensures var r, ps := WindowRows(a, rawKv, first, last), Positions(first, last);
            && |r| == |ps|
            && forall k :: 0 <= k < |ps| ==> r[k] == rawKv[(a.rawStart + ps[k] - (a.pos0 + a.nTokens - a.nRaw)) % a.rawCap]
    decreases last + 1 - first
  {
    if first > last {
    } else {
      WindowRowsAre(a, rawKv, first + 1, last);
      var ps, rest := Positions(first, last), Positions(first + 1, last);
      assert forall k :: 0 < k < |ps| ==> ps[k] == rest[k - 1];
    }
  }

  lemma InSightBelow(a: Args, c: nat)
    requires a.ratio > 0
    ensures c < a.Visible() <==> SeesCompressed(a, c)
  {
    Quotient(a.QPos() + 1, a.ratio, c);
  }

  lemma Quotient(n: nat, d: nat, c: nat)
    requires d > 0
    ensures c < n / d <==> (c + 1) * d <= n
  {
    var q, r := n / d, n % d;
    assert n == q * d + r;
    if c < q {
      Times(c + 1, q, d);
    } else {
      Times(q + 1, c + 1, d);
    }
  }

  lemma Times(x: nat, y: nat, d: nat)
    requires x <= y
    ensures x * d <= y * d && (x + 1) * d == x * d + d
  {
  }

  /** Where the scan of the ids stops. */
  function StopAt(topk: seq<int>, visible: nat): (s: nat)
    ensures s <= |topk|
    ensures forall k :: 0 <= k < s ==> topk[k] < visible
    ensures s < |topk| ==> topk[s] >= visible && topk[s] >= 0
  {
    if topk == [] || (topk[0] >= 0 && topk[0] >= visible) then 0 else 1 + StopAt(topk[1..], visible)
  }

  lemma {:induction false} SelectedAreKept(topk: seq<int>, visible: nat)
    ensures Selected(topk, visible) == Kept(topk[..StopAt(topk, visible)])
  {
    if topk == [] || (topk[0] >= 0 && topk[0] >= visible) {
    } else {
      SelectedAreKept(topk[1..], visible);
      assert topk[..StopAt(topk, visible)][1..] == topk[1..][..StopAt(topk[1..], visible)];
    }
  }

  lemma SelectedAreChosen(a: Args, topk: seq<int>)
    requires a.ratio > 0
    ensures Chosen(a, topk, Selected(topk, a.Visible()), StopAt(topk, a.Visible()))
  {
    SelectedAreKept(topk, a.Visible());
    forall k | 0 <= k < |topk| && topk[k] >= 0
      ensures topk[k] < a.Visible() <==> SeesCompressed(a, topk[k])
    {
      InSightBelow(a, topk[k]);
    }
  }

  /** The rows of the specification are those in sight, and no others. */
  lemma RowsInSight(a: Args, h: Head, rawKv: seq<Vec>, compKv: seq<Vec>, topk: seq<int>)
    requires a.Valid(h, rawKv, compKv)
    ensures Attends(a, rawKv, compKv, topk, Positions(a.First(), a.Last()), Selected(topk, a.Visible()), StopAt(topk, a.Visible()),
                    AttendedRows(a, rawKv, compKv, topk))
  {
    PositionsSeen(a);
    WindowRowsAre(a, rawKv, a.First(), a.Last());
    SelectedAreChosen(a, topk);
    var ids := Selected(topk, a.Visible());
    assert forall k :: 0 <= k < |ids| ==> ids[k] in ids;
  }

  // ---------------------------------------------------------------- growing prefixes

  lemma {:induction false} WindowAppends(a: Args, rawKv: seq<Vec>, first: int, last: int)
    requires 0 < a.rawCap <= |rawKv| && a.FirstRawPos() <= first <= last
    ensures WindowRows(a, rawKv, first, last) == WindowRows(a, rawKv, first, last - 1) + [rawKv[RingRow(a, last)]]
    decreases last - first
  {
    if first == last {
    } else {
      WindowAppends(a, rawKv, first + 1, last);
    }
  }

  /** The scan of `topk` is over: some non-negative id before `i` was invisible. */
  predicate Stopped(topk: seq<int>, visible: nat, i: nat)
    requires i <= |topk|
  {
    exists k :: 0 <= k < i && topk[k] >= visible && topk[k] >= 0
  }

  lemma {:induction false} SelectedAppends(topk: seq<int>, visible: nat, i: nat)
    requires i < |topk|
    ensures Selected(topk[..i + 1], visible) ==
            Selected(topk[..i], visible)
            + if !Stopped(topk, visible, i) && 0 <= topk[i] < visible then [topk[i]] else []
    decreases |topk|
  {
    if i == 0 {
      assert topk[..1] == [topk[0]] && topk[..0] == [];
      assert [topk[0]][1..] == [];
    } else {
      SelectedAppends(topk[1..], visible, i - 1);
      assert topk[..i + 1][1..] == topk[1..][..i] && topk[..i][1..] == topk[1..][..i - 1];
      assert !(topk[0] >= visible && topk[0] >= 0) ==> (Stopped(topk, visible, i) <==> Stopped(topk[1..], visible, i - 1)) by {
        if Stopped(topk, visible, i) {
          var k :| 0 <= k < i && topk[k] >= visible && topk[k] >= 0;
          if k > 0 {
            assert topk[1..][k - 1] == topk[k];
          }
        }
        if Stopped(topk[1..], visible, i - 1) {
          var k :| 0 <= k < i - 1 && topk[1..][k] >= visible && topk[1..][k] >= 0;
          assert topk[k + 1] == topk[1..][k];
        }
      }
      if topk[0] >= visible && topk[0] >= 0 {
        assert Stopped(topk, visible, i);
      }
    }
  }

  lemma {:induction false} SelectedStops(topk: seq<int>, visible: nat, i: nat)
    requires i <= |topk| && Stopped(topk, visible, i)
    ensures Selected(topk, visible) == Selected(topk[..i], visible)
    decreases |topk| - i
  {
    if i < |topk| {
      SelectedAppends(topk, visible, i);
      assert Stopped(topk, visible, i + 1);
      SelectedStops(topk, visible, i + 1);
    } else {
      assert topk[..i] == topk;
    }
  }

  lemma GatherAppends(kv: seq<Vec>, ids: seq<nat>, x: nat)
    requires (forall y :: y in ids ==> y < |kv|) && x < |kv|
    ensures (forall y :: y in ids + [x] ==> y < |kv|) && Gather(kv, ids + [x]) == Gather(kv, ids) + [kv[x]]
  {
  }

  lemma GatherJoins(kv: seq<Vec>, ids: seq<nat>, more: seq<nat>)
    requires forall y :: y in ids + more ==> y < |kv|
    ensures (forall y :: y in ids ==> y < |kv|) && (forall y :: y in more ==> y < |kv|)
    ensures Gather(kv, ids + more) == Gather(kv, ids) + Gather(kv, more)
  {
    assert forall y :: y in ids ==> y in ids + more;
    assert forall y :: y in more ==> y in ids + more;
  }

  // ---------------------------------------------------------------- one row at a time

  method WindowRowByRow(a: Args, rawKv: seq<Vec>, compKv: seq<Vec>, acc: Online)
    requires a.Valid(acc.h, rawKv, compKv) && acc.Valid()
    modifies acc
    ensures acc.Valid() && acc.rows == old(acc.rows) + WindowRows(a, rawKv, a.First(), a.Last())
  {
    var first, last := a.First(), a.Last();
    var pos := first;
    while pos <= last
      invariant first <= pos && (pos <= last + 1 || pos == first)
      invariant acc.Valid() && acc.rows == old(acc.rows) + WindowRows(a, rawKv, first, pos - 1)
    {
      WindowOneRow(a, rawKv, compKv, acc, first, pos, old(acc.rows));
      pos := pos + 1;
    }
  }

  /** One row of the window. */
  method WindowOneRow(a: Args, rawKv: seq<Vec>, compKv: seq<Vec>, acc: Online, first: int, pos: int, ghost before: seq<Vec>)
    requires a.Valid(acc.h, rawKv, compKv) && acc.Valid() && first == a.First() <= pos <= a.Last()
    requires acc.rows == before + WindowRows(a, rawKv, first, pos - 1)
    modifies acc
    ensures acc.Valid() && acc.rows == before + WindowRows(a, rawKv, first, pos)
  {
    WindowAppends(a, rawKv, first, pos);
    acc.AttendRow(rawKv[RingRow(a, pos)]);
  }

  /** What one selected id does: nothing, the end of the list, or one more row. */
  lemma SelectedTurn(compKv: seq<Vec>, topk: seq<int>, visible: nat, i: nat)
    requires i < |topk| && !Stopped(topk, visible, i) && visible <= |compKv|
    ensures topk[i] < 0 || topk[i] >= visible ==>
              Selected(if topk[i] < 0 then topk[..i + 1] else topk, visible) == Selected(topk[..i], visible)
    ensures topk[i] < visible ==> !Stopped(topk, visible, i + 1)
    ensures 0 <= topk[i] < visible ==>
              Gather(compKv, Selected(topk[..i + 1], visible)) == Gather(compKv, Selected(topk[..i], visible)) + [compKv[topk[i]]]
  {
    SelectedAppends(topk, visible, i);
    if topk[i] >= 0 {
      if topk[i] >= visible {
        assert Stopped(topk, visible, i + 1);
        SelectedStops(topk, visible, i + 1);
      } else {
        GatherAppends(compKv, Selected(topk[..i], visible), topk[i]);
      }
    }
  }

  method SelectedRowByRow(compKv: seq<Vec>, topk: seq<int>, visible: nat, acc: Online)
    requires Fits(acc.h, compKv) && visible <= |compKv| && acc.Valid()
    modifies acc
    ensures acc.Valid() && acc.rows == old(acc.rows) + Gather(compKv, Selected(topk, visible))
  {
    var i := 0;
    while i < |topk|
      invariant i <= |topk| && !Stopped(topk, visible, i)
      invariant acc.Valid() && acc.rows == old(acc.rows) + Gather(compKv, Selected(topk[..i], visible))
    {
      var idx := topk[i];
      SelectedTurn(compKv, topk, visible, i);
      if idx < 0 {
        i := i + 1;
        continue;
      }
      if idx >= visible {
        return;
      }
      acc.AttendRow(compKv[idx]);
      i := i + 1;
    }
    assert topk[..|topk|] == topk;
  }

  /** `kernel_dsv4_indexed_mixed_attention_heads8`, for one token and head. */
  method RowByRow(a: Args, rawKv: seq<Vec>, compKv: seq<Vec>, topk: seq<int>, acc: Online)
    returns (out: Vec, ghost ps: seq<int>, ghost ids: seq<nat>, ghost stop: nat)
    requires a.Valid(acc.h, rawKv, compKv) && acc.Valid() && acc.rows == []
    modifies acc
    ensures acc.rows == AttendedRows(a, rawKv, compKv, topk)
    ensures Attends(a, rawKv, compKv, topk, ps, ids, stop, acc.rows)
    ensures Fits(acc.h, acc.rows) && out == Attention(acc.exp, acc.h, acc.rows)
  {
    WindowRowByRow(a, rawKv, compKv, acc);
    assert acc.rows == WindowRows(a, rawKv, a.First(), a.Last());
    SelectedRowByRow(compKv, topk, a.Visible(), acc);
    out := acc.Finish();
    ps, ids, stop := Positions(a.First(), a.Last()), Selected(topk, a.Visible()), StopAt(topk, a.Visible());
    RowsInSight(a, acc.h, rawKv, compKv, topk);
  }

  // ---------------------------------------------------------------- four rows at a time

  /** The staged rows `0..n` are consumed in order. */
  method AttendStaged(staged: array<Vec>, n: nat, acc: Online)
    requires n <= staged.Length && Fits(acc.h, staged[..n]) && acc.Valid()
    modifies acc
    ensures acc.Valid() && acc.rows == old(acc.rows) + staged[..n]
  {
    for r := 0 to n
      invariant acc.Valid() && acc.rows == old(acc.rows) + staged[..r]
    {
      assert |staged[..n][r]| == |acc.h.q|;
      acc.AttendRow(staged[r]);
    }
  }

  lemma {:induction false} WindowJoins(a: Args, rawKv: seq<Vec>, first: int, mid: int, last: int)
    requires 0 < a.rawCap <= |rawKv| && a.FirstRawPos() <= first <= mid <= last + 1
    ensures WindowRows(a, rawKv, first, last) == WindowRows(a, rawKv, first, mid - 1) + WindowRows(a, rawKv, mid, last)
    decreases mid - first
  {
    if first == mid {
    } else {
      WindowJoins(a, rawKv, first + 1, mid, last);
    }
  }

  method StageWindow(h: Head, a: Args, rawKv: seq<Vec>, compKv: seq<Vec>, pos: int, n: nat, shared: array<Vec>)
    requires a.Valid(h, rawKv, compKv) && a.FirstRawPos() <= pos && n <= shared.Length
    modifies shared
    ensures shared[..n] == WindowRows(a, rawKv, pos, pos + n - 1) && Fits(h, shared[..n])
  {
    for r := 0 to n
      invariant Fits(h, shared[..r]) && shared[..r] == WindowRows(a, rawKv, pos, pos + r - 1)
    {
      shared[r] := rawKv[RingRow(a, pos + r)];
      WindowAppends(a, rawKv, pos, pos + r);
    }
  }

  method WindowFourByFour(a: Args, rawKv: seq<Vec>, compKv: seq<Vec>, shared: array<Vec>, acc: Online)
    requires a.Valid(acc.h, rawKv, compKv) && acc.Valid() && shared.Length == 4
    modifies acc, shared
    ensures acc.Valid() && acc.rows == old(acc.rows) + WindowRows(a, rawKv, a.First(), a.Last())
  {
    var first, last := a.First(), a.Last();
    ghost var upTo := first - 1;
    var pos := first;
    while pos <= last
      invariant first - 1 <= upTo && acc.Valid()
      invariant upTo == if pos <= last then pos - 1 else if first <= last then last else first - 1
      invariant acc.rows == old(acc.rows) + WindowRows(a, rawKv, first, upTo)
    {
      var n := if last - pos + 1 < 4 then last - pos + 1 else 4;
      ghost var next := pos + n - 1;
      StageWindow(acc.h, a, rawKv, compKv, pos, n, shared);
      AttendStaged(shared, n, acc);
      WindowJoins(a, rawKv, first, pos, next);
      Regroup(old(acc.rows), WindowRows(a, rawKv, first, upTo), WindowRows(a, rawKv, pos, next));
      upTo := next;
      pos := pos + 4;
    }
  }

  /** Collects the ids of one group of four, and says whether the scan is over. */
  method CollectGroup(topk: seq<int>, visible: nat, i: nat) returns (rows: seq<nat>, stop: bool)
    requires i < |topk| && !Stopped(topk, visible, i)
    ensures |rows| <= 4
    ensures var m := if i + 4 < |topk| then i + 4 else |topk|;
            Selected(topk[..m], visible) == Selected(topk[..i], visible) + rows && stop == Stopped(topk, visible, m)
  {
    rows, stop := [], false;
    var j := 0;
    while j < 4 && i + j < |topk|
      invariant j <= 4 && i + j <= |topk| && !Stopped(topk, visible, i + j) && |rows| <= j
      invariant Selected(topk[..i + j], visible) == Selected(topk[..i], visible) + rows
    {
      var idx := topk[i + j];
      SelectedAppends(topk, visible, i + j);
      if idx < 0 {
        j := j + 1;
        continue;
      }
      if idx >= visible {
        StopInGroup(topk, visible, i + j, if i + 4 < |topk| then i + 4 else |topk|);
        stop := true;
        return;
      }
      rows := rows + [idx];
      j := j + 1;
    }
  }

  lemma StopInGroup(topk: seq<int>, visible: nat, k: nat, m: nat)
    requires k < m <= |topk| && topk[k] >= visible && !Stopped(topk, visible, k)
    ensures Stopped(topk, visible, m) && Selected(topk[..m], visible) == Selected(topk[..k], visible)
  {
    SelectedAppends(topk, visible, k);
    assert Stopped(topk, visible, k + 1);
    assert topk[..m][..k + 1] == topk[..k + 1];
    assert Stopped(topk[..m], visible, k + 1) by { assert topk[..m][k] == topk[k]; }
    SelectedStops(topk[..m], visible, k + 1);
  }

  method StageSelected(h: Head, compKv: seq<Vec>, rows: seq<nat>, shared: array<Vec>)
    requires Fits(h, compKv) && |rows| <= shared.Length && forall x :: x in rows ==> x < |compKv|
    modifies shared
    ensures shared[..|rows|] == Gather(compKv, rows) && Fits(h, shared[..|rows|])
  {
    for r := 0 to |rows|
      invariant forall b :: 0 <= b < r ==> rows[b] < |compKv| && shared[b] == compKv[rows[b]]
    {
      assert rows[r] in rows;
      shared[r] := compKv[rows[r]];
    }
  }

  method SelectedFourByFour(compKv: seq<Vec>, topk: seq<int>, visible: nat,
                            shared: array<Vec>, acc: Online)
    requires Fits(acc.h, compKv) && visible <= |compKv| && acc.Valid() && shared.Length == 4
    modifies acc, shared
    ensures acc.Valid() && acc.rows == old(acc.rows) + Gather(compKv, Selected(topk, visible))
  {
    var stop, i := false, 0;
    ghost var m := 0;
    while i < |topk| && !stop
      invariant m == (if i < |topk| then i else |topk|) && stop == Stopped(topk, visible, m)
      invariant acc.Valid() && acc.rows == old(acc.rows) + Gather(compKv, Selected(topk[..m], visible))
    {
      ghost var before := Selected(topk[..i], visible);
      var rows;
      rows, stop := CollectGroup(topk, visible, i);
      i := i + 4;
      m := if i < |topk| then i else |topk|;
      assert Selected(topk[..m], visible) == before + rows;
      assert forall x :: x in before + rows ==> x < visible;
      GatherJoins(compKv, before, rows);
      Regroup(old(acc.rows), Gather(compKv, before), Gather(compKv, rows));
      if |rows| == 0 {
        continue;
      }
      StageSelected(acc.h, compKv, rows, shared);
      AttendStaged(shared, |rows|, acc);
    }
    if stop {
      SelectedStops(topk, visible, m);
    } else {
      assert topk[..m] == topk;
    }
  }

  /** `kernel_dsv4_indexed_mixed_attention_heads8_rb4`, for one token and head. */
  method FourByFour(a: Args, rawKv: seq<Vec>, compKv: seq<Vec>, topk: seq<int>, acc: Online)
    returns (out: Vec, ghost ps: seq<int>, ghost ids: seq<nat>, ghost stop: nat)
    requires a.Valid(acc.h, rawKv, compKv) && acc.Valid() && acc.rows == []
    modifies acc
    ensures acc.rows == AttendedRows(a, rawKv, compKv, topk)
    ensures Attends(a, rawKv, compKv, topk, ps, ids, stop, acc.rows)
    ensures Fits(acc.h, acc.rows) && out == Attention(acc.exp, acc.h, acc.rows)
  {
    var shared := new Vec[4](_ => []);
    WindowFourByFour(a, rawKv, compKv, shared, acc);
    assert acc.rows == WindowRows(a, rawKv, a.First(), a.Last());
    SelectedFourByFour(compKv, topk, a.Visible(), shared, acc);
    out := acc.Finish();
    ps, ids, stop := Positions(a.First(), a.Last()), Selected(topk, a.Visible()), StopAt(topk, a.Visible());
    RowsInSight(a, acc.h, rawKv, compKv, topk);
  }

  // ---------------------------------------------------------------- why the ids are sorted first

  /** The ids of `topk` a head may see, whatever their order. */
  function VisibleIds(topk: seq<int>, visible: nat): (ids: seq<int>) {
    if topk == [] then []
    else (if 0 <= topk[0] < visible then [topk[0]] else []) + VisibleIds(topk[1..], visible)
  }

  lemma {:induction false} NoneVisible(topk: seq<int>, visible: nat)
    requires forall k :: 0 <= k < |topk| ==> topk[k] >= visible
    ensures VisibleIds(topk, visible) == []
  {
    if topk == [] {
    } else {
      NoneVisible(topk[1..], visible);
    }
  }

  /** On ascending ids, stopping at the first invisible one loses no visible row. */
  lemma {:induction false} AscendingLosesNothing(topk: seq<int>, visible: nat)
    requires Ascending(topk)
    ensures Selected(topk, visible) == VisibleIds(topk, visible)
  {
    if topk == [] {
    } else {
      if 0 <= topk[0] && visible <= topk[0] {
        NoneVisible(topk[1..], visible);
      } else {
        AscendingLosesNothing(topk[1..], visible);
      }
    }
  }

  lemma {:induction false} VisibleIdsCount(topk: seq<int>, visible: nat, x: int)
    ensures multiset(VisibleIds(topk, visible))[x] == if 0 <= x < visible then multiset(topk)[x] else 0
  {
    if topk == [] {
    } else {
      assert topk == [topk[0]] + topk[1..];
      VisibleIdsCount(topk[1..], visible, x);
    }
  }

  /**
   Behind the row-id sort, the indexed kernels attend every visible selected row: for a selection
   of power-of-two size in any order, as many times as it was selected, and nothing else.
   */
  lemma SortedSelectionIsComplete(topk: seq<int>, visible: nat, x: nat)
    requires IsPow2(|topk|)
    ensures multiset(Selected(SortedRow(topk), visible))[x] == if x < visible then multiset(topk)[x] else 0
  {
    var sorted := SortedRow(topk);
    RowSortSorts(topk);
    RowSortPermutes(topk);
    AscendingLosesNothing(sorted, visible);
    VisibleIdsCount(sorted, visible, x);
    SameCount(Selected(sorted, visible), VisibleIds(sorted, visible), x);
  }

  lemma {:induction false} SameCount(a: seq<nat>, b: seq<int>, x: nat)
    requires a == b
    ensures multiset(a)[x] == multiset(b)[x]
  {
    if a == [] {
    } else {
      SameCount(a[1..], b[1..], x);
      assert a == [a[0]] + a[1..] && b == [b[0]] + b[1..];
    }
  }
}
