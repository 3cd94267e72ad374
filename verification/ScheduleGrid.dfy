/** The grid of layers and tokens that both schedules fill: every call of attention, its rows and its position. */
module ScheduleGrid {
  import opened Wrappers
  import opened Flat
  import opened HyperConnection
  import opened HcBatch
  import opened FeedForward
  import opened Schedule

  /**
   Token at position `pos` in one layer: the mixer's block input goes to attention with the rows pushed so
   far, the streams are mixed with its output, and the feed-forward half follows if there is one.
   */
  ghost predicate CellIs(b: Block, rows: Rows, s: State, token: int, pos: nat, row: Row, next: State) {
    && b.mixer.pre(s).Some?
    && var pre := b.mixer.pre(s).value;
       && b.attn(rows, pre.out, pos).Some?
       && row == b.attn(rows, pre.out, pos).value.row
       && var mixed := HcPost(b.attn(rows, pre.out, pos).value.out, s, pre.post, pre.comb);
          && mixed.Some?
          && if b.ffn.None? then next == mixed.value else Step(b.ffn.value, mixed.value, token) == Some(next)
  }

  ghost predicate CellAt(b: Block, n: nat, states: seq<State>, tokens: seq<int>, pos: nat, rows': Rows, states': seq<State>, t: nat)
    requires t < |tokens| && |states| == |states'| == |tokens| && |rows'| == n + |tokens|
  {
    CellIs(b, rows'[..n + t], states[t], tokens[t], pos + t, rows'[n + t], states'[t])
  }

  /** One layer: the old rows stay in front, and token `t` pushes the next row, at position `pos + t`. */
  ghost predicate LayerIs(b: Block, rows: Rows, states: seq<State>, tokens: seq<int>, pos: nat, rows': Rows, states': seq<State>) {
    && |states| == |states'| == |tokens| && |rows'| == |rows| + |tokens| && rows'[..|rows|] == rows
    && forall t: nat :: t < |tokens| ==> CellAt(b, |rows|, states, tokens, pos, rows', states', t)
  }

  /** All layers: each takes the states the layer before it leaves. */
  ghost predicate GridIs(blocks: seq<Block>, kv: seq<Rows>, states: seq<State>, tokens: seq<int>, pos: nat,
                         kv': seq<Rows>, grid: seq<seq<State>>)
  {
    && |kv| == |kv'| == |blocks| && |grid| == |blocks| + 1 && grid[0] == states && |states| == |tokens|
    && forall l :: 0 <= l < |blocks| ==> LayerIs(blocks[l], kv[l], grid[l], tokens, pos, kv'[l], grid[l + 1])
  }

  // ---------------------------------------------------------------- one layer

  lemma CellIsCell(b: Block, rows: Rows, s: State, token: int, pos: nat, row: Row, next: State)
    ensures CellIs(b, rows, s, token, pos, row, next) <==> Cell(b, rows, s, token, pos) == Some((rows + [row], next))
  {
    var c := Cell(b, rows, s, token, pos);
    if c.Some? && c.value.0 == rows + [row] {
      assert c.value.0[|rows|] == row;
      var a := b.attn(rows, b.mixer.pre(s).value.out, pos).value;
      assert (rows + [a.row])[|rows|] == a.row;
    }
  }

  // The same for any cell that pushes one row behind those it is given.

  type OneCell = (Rows, State, int, nat) -> Option<(Rows, State)>

  ghost predicate Pushes(cell: OneCell) {
    forall rows, s, token, pos: nat :: PushesAt(cell, rows, s, token, pos)
  }

  ghost predicate PushesAt(cell: OneCell, rows: Rows, s: State, token: int, pos: nat) {
    cell(rows, s, token, pos).Some? ==> Behind(rows, cell(rows, s, token, pos).value.0)
  }

  ghost predicate Behind(rows: Rows, rows': Rows) {
    |rows'| == |rows| + 1 && Init(rows') == rows
  }

  function Over(cell: OneCell, rows: Rows, states: seq<State>, tokens: seq<int>, pos: nat): (o: Option<(Rows, seq<State>)>)
    requires |states| == |tokens|
    ensures o.Some? ==> |o.value.1| == |tokens|
    decreases |tokens|
  {
    if tokens == [] then Some((rows, []))
    else
      var (rows', done) :- Over(cell, rows, Init(states), Init(tokens), pos);
      var (rows'', s) :- cell(rows', Last(states), Last(tokens), pos + |tokens| - 1);
      Some((rows'', done + [s]))
  }

  ghost predicate StepAt(cell: OneCell, n: nat, states: seq<State>, tokens: seq<int>, pos: nat, rows': Rows, states': seq<State>, t: nat)
    requires t < |tokens| && |states| == |states'| == |tokens| && |rows'| == n + |tokens|
  {
    cell(rows'[..n + t], states[t], tokens[t], pos + t) == Some((rows'[..n + t + 1], states'[t]))
  }

  ghost predicate AllSteps(cell: OneCell, rows: Rows, states: seq<State>, tokens: seq<int>, pos: nat, rows': Rows, states': seq<State>) {
    && |states| == |states'| == |tokens| && |rows'| == |rows| + |tokens| && rows'[..|rows|] == rows
    && forall t: nat :: t < |tokens| ==> StepAt(cell, |rows|, states, tokens, pos, rows', states', t)
  }

  lemma StepInFront(cell: OneCell, n: nat, states: seq<State>, tokens: seq<int>, pos: nat, rows': Rows, states': seq<State>, t: nat)
    requires t + 1 < |tokens| && |states| == |states'| == |tokens| && |rows'| == n + |tokens|
    ensures StepAt(cell, n, states, tokens, pos, rows', states', t)
        <==> StepAt(cell, n, Init(states), Init(tokens), pos, Init(rows'), Init(states'), t)
  {
    assert rows'[..n + t] == Init(rows')[..n + t] && rows'[..n + t + 1] == Init(rows')[..n + t + 1];
  }

  /** All steps: those of the tokens before the last, and the last. */
  lemma StepsSplit(cell: OneCell, rows: Rows, states: seq<State>, tokens: seq<int>, pos: nat, rows': Rows, states': seq<State>)
    requires |tokens| > 0 && |states| == |states'| == |tokens| && |rows'| == |rows| + |tokens|
    ensures AllSteps(cell, rows, states, tokens, pos, rows', states') <==>
            && AllSteps(cell, rows, Init(states), Init(tokens), pos, Init(rows'), Init(states'))
            && cell(Init(rows'), Last(states), Last(tokens), pos + |tokens| - 1) == Some((rows', Last(states')))
  {
    var n, k := |tokens| - 1, |rows|;
    assert Init(rows')[..k] == rows'[..k] && rows'[..k + n] == Init(rows') && rows'[..k + n + 1] == rows';
    forall t: nat | t < n
      ensures StepAt(cell, k, states, tokens, pos, rows', states', t)
          <==> StepAt(cell, k, Init(states), Init(tokens), pos, Init(rows'), Init(states'), t)
    {
      StepInFront(cell, k, states, tokens, pos, rows', states', t);
    }
    assert StepAt(cell, k, states, tokens, pos, rows', states', n)
      <==> cell(Init(rows'), Last(states), Last(tokens), pos + n) == Some((rows', Last(states')));
  }

  lemma {:induction false} OverShape(cell: OneCell, rows: Rows, states: seq<State>, tokens: seq<int>, pos: nat)
    requires Pushes(cell) && |states| == |tokens| && Over(cell, rows, states, tokens, pos).Some?
    ensures |Over(cell, rows, states, tokens, pos).value.0| == |rows| + |tokens|
    decreases |tokens|
  {
    if tokens == [] {
    } else {
      OverShape(cell, rows, Init(states), Init(tokens), pos);
      var front := Over(cell, rows, Init(states), Init(tokens), pos).value.0;
      assert PushesAt(cell, front, Last(states), Last(tokens), pos + |tokens| - 1);
    }
  }

  lemma {:induction false} OverSteps(cell: OneCell, rows: Rows, states: seq<State>, tokens: seq<int>, pos: nat,
                                     rows': Rows, states': seq<State>)
    requires Pushes(cell) && |states| == |tokens|
    ensures Over(cell, rows, states, tokens, pos) == Some((rows', states')) <==> AllSteps(cell, rows, states, tokens, pos, rows', states')
    decreases |tokens|
  {
    if tokens == [] {
      assert |rows'| == |rows| ==> rows'[..|rows|] == rows';
    } else if |states'| == |tokens| && |rows'| == |rows| + |tokens| {
      StepsSplit(cell, rows, states, tokens, pos, rows', states');
      OverSteps(cell, rows, Init(states), Init(tokens), pos, Init(rows'), Init(states'));
      OverPeels(cell, rows, states, tokens, pos, rows', states');
    } else if Over(cell, rows, states, tokens, pos).Some? {
      OverShape(cell, rows, states, tokens, pos);
    }
  }

  lemma OverPeels(cell: OneCell, rows: Rows, states: seq<State>, tokens: seq<int>, pos: nat, rows': Rows, states': seq<State>)
    requires Pushes(cell) && |states| == |states'| == |tokens| > 0 && |rows'| > 0
    ensures Over(cell, rows, states, tokens, pos) == Some((rows', states')) <==>
            && Over(cell, rows, Init(states), Init(tokens), pos) == Some((Init(rows'), Init(states')))
            && cell(Init(rows'), Last(states), Last(tokens), pos + |tokens| - 1) == Some((rows', Last(states')))
  {
    var front := Over(cell, rows, Init(states), Init(tokens), pos);
    assert Init(states') + [Last(states')] == states';
    if front.Some? {
      var c := cell(front.value.0, Last(states), Last(tokens), pos + |tokens| - 1);
      assert PushesAt(cell, front.value.0, Last(states), Last(tokens), pos + |tokens| - 1);
      if c.Some? {
        assert Init(front.value.1 + [c.value.1]) == front.value.1;
      }
    }
  }

  lemma {:induction false} LayerOverIsOver(b: Block, cell: OneCell, rows: Rows, states: seq<State>, tokens: seq<int>, pos: nat)
    requires |states| == |tokens| && forall r, s, token, p: nat :: cell(r, s, token, p) == Cell(b, r, s, token, p)
    ensures LayerOver(b, rows, states, tokens, pos) == Over(cell, rows, states, tokens, pos)
    decreases |tokens|
  {
    if tokens == [] {
    } else {
      LayerOverIsOver(b, cell, rows, Init(states), Init(tokens), pos);
    }
  }

  lemma CellPushes(b: Block, cell: OneCell)
    requires forall r, s, token, p: nat :: cell(r, s, token, p) == Cell(b, r, s, token, p)
    ensures Pushes(cell)
  {
    forall rows, s, token, pos: nat
      ensures PushesAt(cell, rows, s, token, pos)
    {
      assert cell(rows, s, token, pos) == Cell(b, rows, s, token, pos);
    }
  }

  /** A layer over the tokens gives these rows and states exactly when they fill its row of the grid. */
  lemma LayerFills(b: Block, rows: Rows, states: seq<State>, tokens: seq<int>, pos: nat, rows': Rows, states': seq<State>)
    requires |states| == |tokens|
    ensures LayerOver(b, rows, states, tokens, pos) == Some((rows', states'))
       <==> LayerIs(b, rows, states, tokens, pos, rows', states')
  {
    var cell: OneCell := (r, s, token, p: nat) => Cell(b, r, s, token, p);
    LayerOverIsOver(b, cell, rows, states, tokens, pos);
    CellPushes(b, cell);
    OverSteps(cell, rows, states, tokens, pos, rows', states');
    if |states'| == |tokens| && |rows'| == |rows| + |tokens| {
      forall t: nat | t < |tokens|
        ensures StepAt(cell, |rows|, states, tokens, pos, rows', states', t)
            <==> CellAt(b, |rows|, states, tokens, pos, rows', states', t)
      {
        StepIsCell(b, cell, |rows|, states, tokens, pos, rows', states', t);
      }
    }
  }

  lemma StepIsCell(b: Block, cell: OneCell, n: nat, states: seq<State>, tokens: seq<int>, pos: nat, rows': Rows, states': seq<State>, t: nat)
    requires forall r, s, token, p: nat :: cell(r, s, token, p) == Cell(b, r, s, token, p)
    requires t < |tokens| && |states| == |states'| == |tokens| && |rows'| == n + |tokens|
    ensures StepAt(cell, n, states, tokens, pos, rows', states', t) <==> CellAt(b, n, states, tokens, pos, rows', states', t)
  {
    assert rows'[..n + t + 1] == rows'[..n + t] + [rows'[n + t]];
    CellIsCell(b, rows'[..n + t], states[t], tokens[t], pos + t, rows'[n + t], states'[t]);
  }

  // ---------------------------------------------------------------- all layers

  lemma GridTail(blocks: seq<Block>, kv: seq<Rows>, states: seq<State>, tokens: seq<int>, pos: nat, kv': seq<Rows>, grid: seq<seq<State>>)
    requires |blocks| > 0 && GridIs(blocks, kv, states, tokens, pos, kv', grid)
    ensures LayerIs(blocks[0], kv[0], states, tokens, pos, kv'[0], grid[1])
    ensures GridIs(blocks[1..], kv[1..], grid[1], tokens, pos, kv'[1..], grid[1..])
  {
    forall l | 0 <= l < |blocks| - 1
      ensures LayerIs(blocks[1..][l], kv[1..][l], grid[1..][l], tokens, pos, kv'[1..][l], grid[1..][l + 1])
    {
      assert LayerIs(blocks[l + 1], kv[l + 1], grid[l + 1], tokens, pos, kv'[l + 1], grid[l + 2]);
    }
    assert LayerIs(blocks[0], kv[0], grid[0], tokens, pos, kv'[0], grid[1]);
  }

  lemma GridHead(b: Block, rows: Rows, states: seq<State>, tokens: seq<int>, pos: nat, rows': Rows, next: seq<State>,
                 blocks: seq<Block>, kv: seq<Rows>, kv': seq<Rows>, grid: seq<seq<State>>)
    requires LayerIs(b, rows, states, tokens, pos, rows', next) && GridIs(blocks, kv, next, tokens, pos, kv', grid)
    ensures GridIs([b] + blocks, [rows] + kv, states, tokens, pos, [rows'] + kv', [states] + grid)
  {
    var g := [states] + grid;
    forall l | 0 <= l < |blocks| + 1
      ensures LayerIs(([b] + blocks)[l], ([rows] + kv)[l], g[l], tokens, pos, ([rows'] + kv')[l], g[l + 1])
    {
      if l == 0 {
      } else {
        assert LayerIs(blocks[l - 1], kv[l - 1], grid[l - 1], tokens, pos, kv'[l - 1], grid[l]);
      }
    }
  }

  lemma {:induction false} GridFromRun(blocks: seq<Block>, kv: seq<Rows>, states: seq<State>, tokens: seq<int>, pos: nat)
    returns (grid: seq<seq<State>>)
    requires |blocks| == |kv| && |states| == |tokens| && LayerMajor(blocks, kv, states, tokens, pos).Some?
    ensures var r := LayerMajor(blocks, kv, states, tokens, pos).value;
            GridIs(blocks, kv, states, tokens, pos, r.0, grid) && Last(grid) == r.1
    decreases |blocks|
  {
    if blocks == [] {
      grid := [states];
    } else {
      var l := LayerOver(blocks[0], kv[0], states, tokens, pos).value;
      LayerFills(blocks[0], kv[0], states, tokens, pos, l.0, l.1);
      var tail := GridFromRun(blocks[1..], kv[1..], l.1, tokens, pos);
      var rest := LayerMajor(blocks[1..], kv[1..], l.1, tokens, pos).value;
      GridHead(blocks[0], kv[0], states, tokens, pos, l.0, l.1, blocks[1..], kv[1..], rest.0, tail);
      assert [blocks[0]] + blocks[1..] == blocks && [kv[0]] + kv[1..] == kv;
      grid := [states] + tail;
    }
  }

  lemma {:induction false} RunFromGrid(blocks: seq<Block>, kv: seq<Rows>, states: seq<State>, tokens: seq<int>, pos: nat,
                                       kv': seq<Rows>, grid: seq<seq<State>>)
    requires |blocks| == |kv| && |states| == |tokens| && GridIs(blocks, kv, states, tokens, pos, kv', grid)
    ensures LayerMajor(blocks, kv, states, tokens, pos) == Some((kv', Last(grid)))
    decreases |blocks|
  {
    if blocks == [] {
    } else {
      GridTail(blocks, kv, states, tokens, pos, kv', grid);
      LayerFills(blocks[0], kv[0], states, tokens, pos, kv'[0], grid[1]);
      RunFromGrid(blocks[1..], kv[1..], grid[1], tokens, pos, kv'[1..], grid[1..]);
      assert [kv'[0]] + kv'[1..] == kv';
    }
  }

  /**
   Both schedules, for any layers, rows, tokens and starting position: they succeed with these rows and
   final states exactly when there is a grid of states, filled call by call, that ends in them.
   */
  lemma SchedulesFillGrid(blocks: seq<Block>, kv: seq<Rows>, states: seq<State>, tokens: seq<int>, pos: nat,
                          kv': seq<Rows>, out: seq<State>)
    requires |blocks| == |kv| && |states| == |tokens|
    ensures LayerMajor(blocks, kv, states, tokens, pos) == Some((kv', out))
       <==> exists grid :: GridIs(blocks, kv, states, tokens, pos, kv', grid) && out == grid[|blocks|]
    ensures TokenMajor(blocks, kv, states, tokens, pos) == Some((kv', out))
       <==> exists grid :: GridIs(blocks, kv, states, tokens, pos, kv', grid) && out == grid[|blocks|]
  {
    SchedulesAgree(blocks, kv, states, tokens, pos);
    if LayerMajor(blocks, kv, states, tokens, pos) == Some((kv', out)) {
      var grid := GridFromRun(blocks, kv, states, tokens, pos);
      assert grid[|blocks|] == out;
    }
    if grid :| GridIs(blocks, kv, states, tokens, pos, kv', grid) && out == grid[|blocks|] {
      RunFromGrid(blocks, kv, states, tokens, pos, kv', grid);
    }
  }
}
