/** Online softmax with a sink against the two-pass softmax. */
module Softmax {
  // Attention over one head, on the GPU and on the CPU. Reals stand for floats and `exp` is any positive
  // function that turns sums into products.

  import opened Reals

  type Vec = seq<real>

  predicate AddsUp(exp: real -> real, x: real, y: real) {
    exp(x + y) == exp(x) * exp(y)
  }

  ghost predicate ExpLaws(exp: real -> real) {
    (forall x :: exp(x) > 0.0) && forall x, y :: AddsUp(exp, x, y)
  }

  function Dot(a: Vec, b: Vec): real
    requires |a| == |b|
  {
    if a == [] then 0.0 else a[0] * b[0] + Dot(a[1..], b[1..])
  }

  function Scale(v: Vec, x: real): (r: Vec)
    ensures |r| == |v| && forall c :: 0 <= c < |v| ==> r[c] == v[c] * x
  {
    seq(|v|, c requires 0 <= c < |v| => v[c] * x)
  }

  /** `v + x * w`, entry by entry. */
  function Axpy(v: Vec, w: Vec, x: real): (r: Vec)
    requires |v| == |w|
    ensures |r| == |v| && forall c :: 0 <= c < |v| ==> r[c] == v[c] + w[c] * x
  {
    seq(|v|, c requires 0 <= c < |v| => v[c] + w[c] * x)
  }

  function Max(a: real, b: real): real {
    if a > b then a else b
  }

  // ---------------------------------------------------------------- what attention means

  /** A query against rows that serve as both key and value. */
  datatype Head = Head(q: Vec, scale: real, sink: real)

  ghost predicate Fits(h: Head, rows: seq<Vec>) {
    forall r :: 0 <= r < |rows| ==> |rows[r]| == |h.q|
  }

  function ScoreOf(h: Head, row: Vec): real
    requires |row| == |h.q|
  {
    Dot(h.q, row) * h.scale
  }

  /** Sum of exp(score - m) over the rows. */
  function Weight(exp: real -> real, h: Head, rows: seq<Vec>, m: real): real
    requires Fits(h, rows)
  {
    if rows == [] then 0.0
    else Weight(exp, h, rows[..|rows| - 1], m) + exp(ScoreOf(h, rows[|rows| - 1]) - m)
  }

  /** Entry `c` of the sum of exp(score - m) * row over the rows. */
  function Pull(exp: real -> real, h: Head, rows: seq<Vec>, m: real, c: nat): real
    requires Fits(h, rows) && c < |h.q|
  {
    if rows == [] then 0.0
    else
      var row := rows[|rows| - 1];
      Pull(exp, h, rows[..|rows| - 1], m, c) + row[c] * exp(ScoreOf(h, row) - m)
  }

  /** Softmax attention with a sink: the weights of the rows and of the sink add up to one. */
  function Attention(exp: real -> real, h: Head, rows: seq<Vec>): (out: Vec)
    requires Fits(h, rows)
    ensures |out| == |h.q|
  {
    var denom := Weight(exp, h, rows, 0.0) + exp(h.sink);
    seq(|h.q|, c requires 0 <= c < |h.q| => if denom == 0.0 then 0.0 else Pull(exp, h, rows, 0.0, c) / denom)
  }

  /** The dot product is the sum of the products of entries. */
  lemma {:induction false} DotIsSum(a: Vec, b: Vec, f: nat -> real)
    requires |a| == |b| && forall i: nat :: i < |a| ==> f(i) == Times(a[i], b[i])
    ensures Dot(a, b) == SumTo(|a|, f)
  {
    if a == [] {
    } else {
      var g := (i: nat) => f(i + 1);
      assert f(0) == Times(a[0], b[0]);
      assert forall i: nat :: i < |a| - 1 ==> g(i) == f(i + 1);
      DotIsSum(a[1..], b[1..], g);
      SumFromFirst(|a|, f, g);
    }
  }

  lemma NoShift(x: real)
    ensures x - 0.0 == x
  {
  }

  /** `w(r)` is exp of the scaled dot product of row `r` with the query. */
  ghost predicate Weighs(exp: real -> real, h: Head, row: Vec, x: real) {
    |row| == |h.q| && x == exp(ScoreOf(h, row))
  }

  lemma {:induction false} WeightIsSum(exp: real -> real, h: Head, rows: seq<Vec>, w: nat -> real)
    requires Fits(h, rows) && forall r: nat :: r < |rows| ==> Weighs(exp, h, rows[r], w(r))
    ensures Weight(exp, h, rows, 0.0) == SumTo(|rows|, w)
  {
    if rows == [] {
    } else {
      var n, front := |rows| - 1, rows[..|rows| - 1];
      assert forall r: nat :: r < n ==> front[r] == rows[r];
      WeightIsSum(exp, h, front, w);
      NoShift(ScoreOf(h, rows[n]));
      assert Weighs(exp, h, rows[n], w(n));
    }
  }

  lemma {:induction false} PullIsSum(exp: real -> real, h: Head, rows: seq<Vec>, c: nat, w: nat -> real, p: nat -> real)
    requires Fits(h, rows) && c < |h.q| && forall r: nat :: r < |rows| ==> Weighs(exp, h, rows[r], w(r))
    requires forall r: nat :: r < |rows| ==> p(r) == Times(rows[r][c], w(r))
    ensures Pull(exp, h, rows, 0.0, c) == SumTo(|rows|, p)
  {
    if rows == [] {
    } else {
      var n, front := |rows| - 1, rows[..|rows| - 1];
      assert forall r: nat :: r < n ==> front[r] == rows[r];
      PullIsSum(exp, h, front, c, w, p);
      NoShift(ScoreOf(h, rows[n]));
      assert Weighs(exp, h, rows[n], w(n)) && p(n) == Times(rows[n][c], w(n));
    }
  }

  lemma RowWeighs(exp: real -> real, h: Head, row: Vec, x: real, s: real)
    requires |row| == |h.q| && x == exp(s) && s == Times(Dot(h.q, row), h.scale)
    ensures Weighs(exp, h, row, x)
  {
    assert ScoreOf(h, row) == s;
  }

  /**
   Let row `r` weigh w(r) == exp(query . row * scale), and let p(r) be entry `c` of the row times that. Then
   entry `c` of the output times the sum of all weights and of exp(sink) is the sum of p.
   */
  lemma AttentionIs(exp: real -> real, h: Head, rows: seq<Vec>, c: nat, w: nat -> real, p: nat -> real, total: real)
    requires total == SumTo(|rows|, w) + exp(h.sink)
    requires ExpLaws(exp) && Fits(h, rows) && c < |h.q|
    requires forall r: nat :: r < |rows| ==> w(r) == exp(Times(Dot(h.q, rows[r]), h.scale))
    requires forall r: nat :: r < |rows| ==> p(r) == Times(rows[r][c], w(r))
    ensures Attention(exp, h, rows)[c] * total == SumTo(|rows|, p)
  {
    forall r: nat | r < |rows|
      ensures Weighs(exp, h, rows[r], w(r))
    {
      RowWeighs(exp, h, rows[r], w(r), Times(Dot(h.q, rows[r]), h.scale));
    }
    WeightIsSum(exp, h, rows, w);
    PullIsSum(exp, h, rows, c, w, p);
    AttentionDivides(exp, h, rows, c, total);
  }

  lemma AttentionDivides(exp: real -> real, h: Head, rows: seq<Vec>, c: nat, denom: real)
    requires ExpLaws(exp) && Fits(h, rows) && c < |h.q| && denom == Weight(exp, h, rows, 0.0) + exp(h.sink)
    ensures Times(Attention(exp, h, rows)[c], denom) == Pull(exp, h, rows, 0.0, c)
  {
    WeightPositive(exp, h, rows, 0.0);
    DividesBack(Pull(exp, h, rows, 0.0, c), denom);
  }

  lemma DividesBack(a: real, b: real)
    requires b > 0.0
    ensures Times(a / b, b) == a
  {
  }

  lemma ShiftExp(exp: real -> real, x: real, m: real)
    requires ExpLaws(exp)
    ensures exp(x - m) == exp(x) * exp(-m)
  {
    assert AddsUp(exp, x, -m);
  }

  lemma {:induction false} WeightShifts(exp: real -> real, h: Head, rows: seq<Vec>, m: real)
    requires ExpLaws(exp) && Fits(h, rows)
    ensures Weight(exp, h, rows, m) == Weight(exp, h, rows, 0.0) * exp(-m)
  {
    if rows == [] {
    } else {
      var s := ScoreOf(h, rows[|rows| - 1]);
      WeightShifts(exp, h, rows[..|rows| - 1], m);
      ShiftExp(exp, s, m);
      assert s - 0.0 == s;
    }
  }

  lemma {:induction false} PullShifts(exp: real -> real, h: Head, rows: seq<Vec>, m: real, c: nat)
    requires ExpLaws(exp) && Fits(h, rows) && c < |h.q|
    ensures Pull(exp, h, rows, m, c) == Pull(exp, h, rows, 0.0, c) * exp(-m)
  {
    if rows == [] {
    } else {
      var row := rows[|rows| - 1];
      var s := ScoreOf(h, row);
      PullShifts(exp, h, rows[..|rows| - 1], m, c);
      ShiftExp(exp, s, m);
      assert s - 0.0 == s;
      Distribute(Pull(exp, h, rows[..|rows| - 1], 0.0, c), row[c], exp(s), exp(-m));
    }
  }

  lemma Distribute(a: real, b: real, x: real, y: real)
    ensures (a + b * x) * y == a * y + b * (x * y)
  {
  }

  lemma {:induction false} WeightPositive(exp: real -> real, h: Head, rows: seq<Vec>, m: real)
    requires ExpLaws(exp) && Fits(h, rows)
    ensures Weight(exp, h, rows, m) >= 0.0
  {
    if rows == [] {
    } else {
      WeightPositive(exp, h, rows[..|rows| - 1], m);
    }
  }

  /** `sum` and `out` stand for `rows`: both are the exact sums, scaled down by exp(m). */
  ghost predicate Holds(exp: real -> real, h: Head, rows: seq<Vec>, m: real, sum: real, out: Vec) {
    && Fits(h, rows) && sum == Weight(exp, h, rows, m)
    && |out| == |h.q| && forall c :: 0 <= c < |out| ==> out[c] == Pull(exp, h, rows, m, c)
  }

  lemma RebaseWeight(exp: real -> real, h: Head, rows: seq<Vec>, m: real, m': real)
    requires ExpLaws(exp) && Fits(h, rows)
    ensures Weight(exp, h, rows, m) * exp(m - m') == Weight(exp, h, rows, m')
  {
    WeightShifts(exp, h, rows, m);
    WeightShifts(exp, h, rows, m');
    assert -m + (m - m') == -m';
    assert AddsUp(exp, -m, m - m');
    Reassociate(Weight(exp, h, rows, 0.0), exp(-m), exp(m - m'));
  }

  lemma RebasePull(exp: real -> real, h: Head, rows: seq<Vec>, m: real, m': real, c: nat)
    requires ExpLaws(exp) && Fits(h, rows) && c < |h.q|
    ensures Pull(exp, h, rows, m, c) * exp(m - m') == Pull(exp, h, rows, m', c)
  {
    PullShifts(exp, h, rows, m, c);
    PullShifts(exp, h, rows, m', c);
    assert -m + (m - m') == -m';
    assert AddsUp(exp, -m, m - m');
    Reassociate(Pull(exp, h, rows, 0.0, c), exp(-m), exp(m - m'));
  }

  lemma Reassociate(a: real, b: real, c: real)
    ensures (a * b) * c == a * (b * c)
  {
  }

  /** Dividing the scaled-down sums cancels the scale. */
  lemma Normalised(exp: real -> real, h: Head, rows: seq<Vec>, m: real, c: nat, s: real)
    requires ExpLaws(exp) && Fits(h, rows) && c < |h.q|
    requires s == Weight(exp, h, rows, m) + exp(h.sink - m)
    ensures s > 0.0
    ensures Pull(exp, h, rows, m, c) * (1.0 / s) == Attention(exp, h, rows)[c]
  {
    var e, d := exp(-m), Weight(exp, h, rows, 0.0) + exp(h.sink);
    WeightPositive(exp, h, rows, 0.0);
    WeightShifts(exp, h, rows, m);
    PullShifts(exp, h, rows, m, c);
    ShiftExp(exp, h.sink, m);
    assert s == d * e;
    CancelScale(Pull(exp, h, rows, 0.0, c), d, e);
  }

  lemma CancelScale(p: real, d: real, e: real)
    requires d > 0.0 && e > 0.0
    ensures d * e > 0.0 && (p * e) * (1.0 / (d * e)) == p / d
  {
    var x, y := p / d, 1.0 / (d * e);
    assert x * d == p;
    assert y * (d * e) == 1.0;
    assert (p * e) * y == x * (y * (d * e));
  }

  /** Changing the reference maximum rescales sum and output alike. */
  lemma HoldsRebased(exp: real -> real, h: Head, rows: seq<Vec>, m: real, sum: real, out: Vec, m': real)
    requires ExpLaws(exp) && Holds(exp, h, rows, m, sum, out)
    ensures Holds(exp, h, rows, m', sum * exp(m - m'), Scale(out, exp(m - m')))
  {
    RebaseWeight(exp, h, rows, m, m');
    forall c: nat | c < |out|
      ensures out[c] * exp(m - m') == Pull(exp, h, rows, m', c)
    {
      RebasePull(exp, h, rows, m, m', c);
    }
  }

  lemma HoldsWithRow(exp: real -> real, h: Head, rows: seq<Vec>, row: Vec, m: real, sum: real, out: Vec)
    requires Holds(exp, h, rows, m, sum, out) && |row| == |h.q|
    ensures var w := exp(ScoreOf(h, row) - m); Holds(exp, h, rows + [row], m, sum + w, Axpy(out, row, w))
  {
    assert (rows + [row])[..|rows|] == rows;
  }

  /** Dividing by the sum with the sink in it gives the attention output. */
  lemma HoldsFinished(exp: real -> real, h: Head, rows: seq<Vec>, m: real, sum: real, out: Vec)
    requires ExpLaws(exp) && Holds(exp, h, rows, m, sum, out)
    ensures var s := sum + exp(h.sink - m); s > 0.0 && Scale(out, 1.0 / s) == Attention(exp, h, rows)
  {
    WeightPositive(exp, h, rows, m);
    var s := sum + exp(h.sink - m);
    forall c: nat | c < |out|
      ensures Scale(out, 1.0 / s)[c] == Attention(exp, h, rows)[c]
    {
      Normalised(exp, h, rows, m, c, s);
    }
  }

  lemma SumFinished(exp: real -> real, h: Head, rows: seq<Vec>, m: real, denom: real, sum: real, out: Vec)
    requires ExpLaws(exp) && Holds(exp, h, rows, m, sum, out) && sum == denom - exp(h.sink - m)
    ensures denom > 0.0 && Scale(out, 1.0 / denom) == Attention(exp, h, rows)
  {
    HoldsFinished(exp, h, rows, m, sum, out);
    assert sum + exp(h.sink - m) == denom;
  }

  lemma RowStep(exp: real -> real, h: Head, rows: seq<Vec>, row: Vec, m: real, sum: real, out: Vec, m': real)
    requires ExpLaws(exp) && Holds(exp, h, rows, m, sum, out) && |row| == |h.q|
    ensures var old', row' := exp(m - m'), exp(ScoreOf(h, row) - m');
            Holds(exp, h, rows + [row], m', sum * old' + row', Axpy(Scale(out, old'), row, row'))
  {
    HoldsRebased(exp, h, rows, m, sum, out, m');
    HoldsWithRow(exp, h, rows, row, m', sum * exp(m - m'), Scale(out, exp(m - m')));
  }

  lemma SinkStep(exp: real -> real, h: Head, rows: seq<Vec>, m: real, sum: real, out: Vec, m': real, sum': real, out': Vec)
    requires ExpLaws(exp) && Holds(exp, h, rows, m, sum, out)
    requires sum' == sum * exp(m - m') + exp(h.sink - m') && out' == Scale(out, exp(m - m'))
    ensures sum' > 0.0 && Scale(out', 1.0 / sum') == Attention(exp, h, rows)
  {
    HoldsRebased(exp, h, rows, m, sum, out, m');
    HoldsFinished(exp, h, rows, m', sum * exp(m - m'), out');
  }

  // ---------------------------------------------------------------- one pass, on the GPU

  /** The running maximum, sum and output of one lane group, and the rows they stand for. */
  class Online {
    const exp: real -> real
    const h: Head
    var M: real
    var S: real
    var o: Vec
    ghost var rows: seq<Vec>

    ghost predicate Valid()
      reads this
    {
      ExpLaws(exp) && Holds(exp, h, rows, M, S, o)
    }

    constructor (exp: real -> real, h: Head, m0: real)
      requires ExpLaws(exp)
      ensures Valid() && rows == [] && this.exp == exp && this.h == h
    {
      this.exp, this.h := exp, h;
      M, S, o, rows := m0, 0.0, seq(|h.q|, _ => 0.0), [];
    }

    /** `dsv4_attend_shared_f32_row_as_f16` */
    method AttendRow(row: Vec)
      requires Valid() && |row| == |h.q|
      modifies this
      ensures Valid() && rows == old(rows) + [row]
      ensures M == Max(old(M), ScoreOf(h, row))
    {
      var score := ScoreOf(h, row);
      var newM := Max(M, score);
      var oldScale := exp(M - newM);
      var rowScale := exp(score - newM);
      var newS, newO := S * oldScale + rowScale, Axpy(Scale(o, oldScale), row, rowScale);
      RowStep(exp, h, rows, row, M, S, o, newM);
      assert Holds(exp, h, rows + [row], newM, newS, newO);
      M, S, o, rows := newM, newS, newO, rows + [row];
    }

    /** `dsv4_attend_sink` and the final division. */
    method Finish() returns (out: Vec)
      requires Valid()
      modifies this
      ensures rows == old(rows) && Fits(h, rows) && out == Attention(exp, h, rows)
    {
      var score := h.sink;
      var newM := Max(M, score);
      var oldScale := exp(M - newM);
      var rowScale := exp(score - newM);
      var newS, newO := S * oldScale + rowScale, Scale(o, oldScale);
      SinkStep(exp, h, rows, M, S, o, newM, newS, newO);
      M, S, o := newM, newS, newO;
      var invS := if newS == 0.0 then 0.0 else 1.0 / newS;
      out := Scale(newO, invS);
    }
  }

  // ---------------------------------------------------------------- two passes, on the CPU

  /** The first pass: the scores and the greatest of them and the sink. */
  method ScorePass(h: Head, rows: seq<Vec>, scores: array<real>) returns (maxScore: real)
    requires Fits(h, rows) && scores.Length == |rows|
    modifies scores
    ensures forall a :: 0 <= a < |rows| ==> scores[a] == ScoreOf(h, rows[a])
  {
    maxScore := h.sink;
    for r := 0 to |rows|
      invariant forall a :: 0 <= a < r ==> scores[a] == ScoreOf(h, rows[a])
    {
      scores[r] := ScoreOf(h, rows[r]);
      if scores[r] > maxScore {
        maxScore := scores[r];
      }
    }
  }

  /** The second pass: the sum of the weights, sink included, and the weighted rows. */
  method WeightPass(exp: real -> real, h: Head, rows: seq<Vec>, scores: array<real>, maxScore: real) returns (denom: real, oh: Vec)
    requires ExpLaws(exp) && Fits(h, rows) && scores.Length == |rows|
    requires forall a :: 0 <= a < |rows| ==> scores[a] == ScoreOf(h, rows[a])
    ensures Holds(exp, h, rows, maxScore, denom - exp(h.sink - maxScore), oh)
  {
    oh := seq(|h.q|, _ => 0.0);
    denom := exp(h.sink - maxScore);
    for r := 0 to |rows|
      invariant Holds(exp, h, rows[..r], maxScore, denom - exp(h.sink - maxScore), oh)
    {
      var weight := exp(scores[r] - maxScore);
      HoldsWithRow(exp, h, rows[..r], rows[r], maxScore, denom - exp(h.sink - maxScore), oh);
      assert rows[..r + 1] == rows[..r] + [rows[r]];
      denom := denom + weight;
      oh := Axpy(oh, rows[r], weight);
    }
    assert rows[..|rows|] == rows;
  }

  /** `attention_rows_impl` for one head; without rows it gives up. */
  method AttentionRowsCpu(exp: real -> real, h: Head, rows: seq<Vec>) returns (ok: bool, out: Vec)
    requires ExpLaws(exp) && Fits(h, rows)
    ensures ok == (|rows| != 0)
    ensures ok ==> out == Attention(exp, h, rows)
  {
    if |rows| == 0 {
      return false, [];
    }
    ok := true;
    var scores := new real[|rows|];
    var maxScore := ScorePass(h, rows, scores);
    var denom, oh := WeightPass(exp, h, rows, scores, maxScore);
    SumFinished(exp, h, rows, maxScore, denom, denom - exp(h.sink - maxScore), oh);
    out := Scale(oh, 1.0 / denom);
  }
}
