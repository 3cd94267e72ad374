/** Prefill schedules: token-major and layer-major agree. */
module Schedule {
  // Token-major runs each token through every layer; layer-major runs every token through one layer before
  // the next. They are a loop interchange over the KV rows.

  import opened Wrappers
  import opened Flat
  import opened HyperConnection
  import opened HcBatch
  import opened FeedForward

  type Row = seq<real>
  type Rows = seq<Row>

  /** What one attention call leaves behind: the row it pushed and its output. */
  datatype Attended = Attended(row: Row, out: seq<real>)

  /** One layer: a mixer, attention, and the feed-forward half if it has one. Attention is uninterpreted. */
  datatype Block = Block(
    mixer: Mixer,
    attn: (Rows, seq<real>, nat) -> Option<Attended>,
    ffn: Option<FeedForward>)

  /** The kernels take and return buffers of the model's sizes. */
  ghost predicate WellSized(b: Block, nEmbd: nat) {
    && MixerSized(b.mixer, nEmbd)
    && (forall rows, x, pos :: b.attn(rows, x, pos).Some? ==> |b.attn(rows, x, pos).value.out| == nEmbd)
    && (b.ffn.Some? ==> FfnSized(b.ffn.value, nEmbd))
  }

  // ---------------------------------------------------------------- one cell of the grid

  function Ffn(b: Block, s: State, token: int): Option<State> {
    if b.ffn.Some? then Step(b.ffn.value, s, token) else Some(s)
  }

  /** One token through one layer: new KV rows of the layer, new hyper-connection state. */
  function Cell(b: Block, rows: Rows, s: State, token: int, pos: nat): Option<(Rows, State)> {
    var pre :- b.mixer.pre(s);
    var a :- b.attn(rows, pre.out, pos);
    var mixed :- HcPost(a.out, s, pre.post, pre.comb);
    var s' :- Ffn(b, mixed, token);
    Some((rows + [a.row], s'))
  }

  // ---------------------------------------------------------------- token-major

  /** One token through all the layers; each layer has its own rows. */
  function Through(blocks: seq<Block>, kv: seq<Rows>, s: State, token: int, pos: nat): (o: Option<(seq<Rows>, State)>)
    requires |blocks| == |kv|
    ensures o.Some? ==> |o.value.0| == |kv|
  {
    if blocks == [] then Some(([], s))
    else
      var (rows, s') :- Cell(blocks[0], kv[0], s, token, pos);
      var (rest, out) :- Through(blocks[1..], kv[1..], s', token, pos);
      Some(([rows] + rest, out))
  }

  function TokenMajor(blocks: seq<Block>, kv: seq<Rows>, states: seq<State>, tokens: seq<int>, pos: nat)
    : (o: Option<(seq<Rows>, seq<State>)>)
    requires |blocks| == |kv| && |states| == |tokens|
    ensures o.Some? ==> |o.value.0| == |kv| && |o.value.1| == |states|
    decreases |tokens|
  {
    if tokens == [] then Some((kv, []))
    else
      var (kv', done) :- TokenMajor(blocks, kv, Init(states), Init(tokens), pos);
      var (kv'', s) :- Through(blocks, kv', Last(states), Last(tokens), pos + |tokens| - 1);
      Some((kv'', done + [s]))
  }

  // ---------------------------------------------------------------- layer-major

  /** All tokens through one layer. */
  function LayerOver(b: Block, rows: Rows, states: seq<State>, tokens: seq<int>, pos: nat): (o: Option<(Rows, seq<State>)>)
    requires |states| == |tokens|
    ensures o.Some? ==> |o.value.1| == |states|
    decreases |tokens|
  {
    if tokens == [] then Some((rows, []))
    else
      var (rows', done) :- LayerOver(b, rows, Init(states), Init(tokens), pos);
      var (rows'', s) :- Cell(b, rows', Last(states), Last(tokens), pos + |tokens| - 1);
      Some((rows'', done + [s]))
  }

  function LayerMajor(blocks: seq<Block>, kv: seq<Rows>, states: seq<State>, tokens: seq<int>, pos: nat)
    : (o: Option<(seq<Rows>, seq<State>)>)
    requires |blocks| == |kv| && |states| == |tokens|
    ensures o.Some? ==> |o.value.0| == |kv| && |o.value.1| == |states|
    decreases |blocks|
  {
    if blocks == [] then Some(([], states))
    else
      var (rows, next) :- LayerOver(blocks[0], kv[0], states, tokens, pos);
      var (rest, out) :- LayerMajor(blocks[1..], kv[1..], next, tokens, pos);
      Some(([rows] + rest, out))
  }

  // ---------------------------------------------------------------- the interchange

  /** The last token may be run through all the layers after the others have left them. */
  lemma {:induction false} LastTokenLast(blocks: seq<Block>, kv: seq<Rows>, states: seq<State>, tokens: seq<int>, pos: nat)
    requires |blocks| == |kv| && |states| == |tokens| > 0
    ensures var before := LayerMajor(blocks, kv, Init(states), Init(tokens), pos);
            LayerMajor(blocks, kv, states, tokens, pos) ==
            if before.None? then None
            else
              var last := Through(blocks, before.value.0, Last(states), Last(tokens), pos + |tokens| - 1);
              if last.None? then None else Some((last.value.0, before.value.1 + [last.value.1]))
    decreases |blocks|
  {
    if blocks == [] {
      assert states == Init(states) + [Last(states)];
    } else {
      var front := LayerOver(blocks[0], kv[0], Init(states), Init(tokens), pos);
      if front.Some? {
        var (rows', done) := front.value;
        var cell := Cell(blocks[0], rows', Last(states), Last(tokens), pos + |tokens| - 1);
        if cell.Some? {
          var next := done + [cell.value.1];
          LastTokenLast(blocks[1..], kv[1..], next, tokens, pos);
          assert Init(next) == done;
        }
        var rest := LayerMajor(blocks[1..], kv[1..], done, Init(tokens), pos);
        if rest.Some? {
          var kv' := [rows'] + rest.value.0;
          assert kv'[1..] == rest.value.0;
        }
      }
    }
  }

  /**
   Loop interchange: for any layers, rows, tokens and starting position, layer-major succeeds
   exactly when token-major does, with the same KV rows in every layer and the same states.
   */
  lemma {:induction false} SchedulesAgree(blocks: seq<Block>, kv: seq<Rows>, states: seq<State>, tokens: seq<int>, pos: nat)
    requires |blocks| == |kv| && |states| == |tokens|
    ensures LayerMajor(blocks, kv, states, tokens, pos) == TokenMajor(blocks, kv, states, tokens, pos)
    decreases |tokens|
  {
    if tokens == [] {
      NoTokens(blocks, kv, pos);
      assert states == [];
    } else {
      LastTokenLast(blocks, kv, states, tokens, pos);
      SchedulesAgree(blocks, kv, Init(states), Init(tokens), pos);
    }
  }

  lemma {:induction false} NoTokens(blocks: seq<Block>, kv: seq<Rows>, pos: nat)
    requires |blocks| == |kv|
    ensures LayerMajor(blocks, kv, [], [], pos) == Some((kv, []))
    decreases |blocks|
  {
    if blocks == [] {
    } else {
      NoTokens(blocks[1..], kv[1..], pos);
      assert kv == [kv[0]] + kv[1..];
    }
  }
}
