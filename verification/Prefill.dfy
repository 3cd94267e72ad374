/**
 The two prefill loops as the engine runs them, over a mutable KV cache and flat batch buffers:
 token by token, and layer by layer.
 */
module Prefill {
  import opened Wrappers
  import opened Flat
  import opened HyperConnection
  import opened HcBatch
  import opened FeedForward
  import opened Schedule
  import opened LayerPhases
  import opened BatchSchedule
  import opened FeedForwardBatch

  datatype Net = Net(nEmbd: nat, embed: int -> Option<seq<real>>, blocks: seq<Block>) {
    ghost predicate Valid() {
      && nEmbd > 0
      && (forall t :: embed(t).Some? ==> |embed(t).value| == nEmbd)
      && (forall i :: 0 <= i < |blocks| ==> WellSized(blocks[i], nEmbd))
    }
  }

  /** `hc_from_plain_embedding`: every stream starts as the embedding. */
  function FromPlain(x: seq<real>): (s: State)
    ensures |s| == N_HC * |x|
  {
    x + x + x + x
  }

  /** The starting states of a run of tokens. */
  function Embeds(net: Net, tokens: seq<int>): (o: Option<seq<State>>)
    ensures o.Some? ==> |o.value| == |tokens|
    decreases |tokens|
  {
    if tokens == [] then Some([])
    else
      var front :- Embeds(net, Init(tokens));
      var x :- net.embed(Last(tokens));
      Some(front + [FromPlain(x)])
  }

  /** Four streams, each equal to the embedding. */
  ghost predicate StartsPlain(s: State, x: seq<real>) {
    var n := |x|;
    |s| == 4 * n && s[..n] == x && s[n..2 * n] == x && s[2 * n..3 * n] == x && s[3 * n..] == x
  }

  /** There are starting states exactly if every token has an embedding, and each is made of its own token's. */
  lemma {:induction false} EmbedsAre(net: Net, tokens: seq<int>)
    ensures var e := Embeds(net, tokens);
            && (e.Some? <==> forall t :: 0 <= t < |tokens| ==> net.embed(tokens[t]).Some?)
            && (e.Some? ==> forall t :: 0 <= t < |tokens| ==> StartsPlain(e.value[t], net.embed(tokens[t]).value))
    decreases |tokens|
  {
    if tokens == [] {
    } else {
      var n, front := |tokens| - 1, Init(tokens);
      EmbedsAre(net, front);
      assert forall t :: 0 <= t < n ==> front[t] == tokens[t];
      if net.embed(tokens[n]).Some? {
        PlainIsPlain(net.embed(tokens[n]).value);
      }
    }
  }

  lemma PlainIsPlain(x: seq<real>)
    ensures StartsPlain(FromPlain(x), x)
  {
  }

  /** The rows and final states of a prefill, by the token-major definition. */
  function Outcome(net: Net, kv: seq<Rows>, tokens: seq<int>, pos: nat): (o: Option<(seq<Rows>, seq<State>)>)
    requires |kv| == |net.blocks|
    ensures o.Some? ==> |o.value.1| == |tokens|
  {
    var states :- Embeds(net, tokens);
    TokenMajor(net.blocks, kv, states, tokens, pos)
  }

  /** `ensure_layers`: missing layers are added empty. */
  function Padded(kv: seq<Rows>, n: nat): (r: seq<Rows>)
    requires |kv| <= n
    ensures |r| == n && r[..|kv|] == kv && forall l :: |kv| <= l < n ==> r[l] == []
  {
    kv + seq(n - |kv|, _ => [])
  }

  class KvCache {
    var layers: seq<Rows>

    method EnsureLayers(n: nat)
      requires |layers| <= n
      modifies this
      ensures layers == Padded(old(layers), n)
    {
      if |layers| < n {
        layers := layers + seq(n - |layers|, _ => []);
      }
      assert layers == Padded(old(layers), n);
    }

    method Push(index: nat, row: Row)
      requires index < |layers|
      modifies this
      ensures layers == old(layers)[index := old(layers)[index] + [row]]
    {
      layers := layers[index := layers[index] + [row]];
    }
  }

  // ---------------------------------------------------------------- token-major

  lemma AfterUpdate<T>(kv0: seq<T>, kv: seq<T>, i: nat, x: T)
    requires |kv0| == |kv| && i < |kv| && kv[i..] == kv0[i..]
    ensures kv[i := x][..i + 1] == kv[..i] + [x] && kv[i := x][i + 1..] == kv0[i + 1..]
  {
    assert kv[i + 1..] == kv[i..][1..] == kv0[i..][1..] == kv0[i + 1..];
  }

  /** What is left of a pass through the layers, put behind the rows of the layers already done. */
  ghost function Behind(done: seq<Rows>, rest: Option<(seq<Rows>, State)>): Option<(seq<Rows>, State)> {
    if rest.None? then None else Some((done + rest.value.0, rest.value.1))
  }

  lemma PassStep(blocks: seq<Block>, kv0: seq<Rows>, kv: seq<Rows>, i: nat, s: State, token: int, pos: nat)
    requires |blocks| == |kv0| == |kv| && i < |blocks| && kv[i..] == kv0[i..]
    ensures var whole := Behind(kv[..i], Through(blocks[i..], kv0[i..], s, token, pos));
            var c := Cell(blocks[i], kv[i], s, token, pos);
            if c.None? then whole.None?
            else whole == Behind(kv[..i] + [c.value.0], Through(blocks[i + 1..], kv0[i + 1..], c.value.1, token, pos))
  {
    assert blocks[i..][1..] == blocks[i + 1..] && kv0[i..][1..] == kv0[i + 1..];
    assert kv0[i..][0] == kv[i..][0];
    var c := Cell(blocks[i], kv[i], s, token, pos);
    if c.Some? {
      var rest := Through(blocks[i + 1..], kv0[i + 1..], c.value.1, token, pos);
      if rest.Some? {
        assert kv[..i] + ([c.value.0] + rest.value.0) == kv[..i] + [c.value.0] + rest.value.0;
      }
    }
  }

  /** One layer for one token; on success the layer has one more row. */
  method ForwardCell(b: Block, cache: KvCache, i: nat, s: State, token: int, pos: nat) returns (o: Option<State>)
    requires i < |cache.layers|
    modifies cache
    ensures var c := Cell(b, old(cache.layers[i]), s, token, pos);
            if c.None? then o.None?
            else o == Some(c.value.1) && cache.layers == old(cache.layers)[i := c.value.0]
  {
    var pre := b.mixer.pre(s);
    if pre.None? { return None; }
    var a := b.attn(cache.layers[i], pre.value.out, pos);
    if a.None? { return None; }
    cache.Push(i, a.value.row);
    var mixed := HcPostOne(a.value.out, s, pre.value.post, pre.value.comb);
    if mixed.None? { return None; }
    if b.ffn.None? {
      return mixed;
    }
    o := FfnStep(b.ffn.value, mixed.value, token);
  }

  /** `forward_token_through_blocks_hc`, up to the output head. */
  method ForwardToken(net: Net, cache: KvCache, s0: State, token: int, pos: nat) returns (o: Option<State>)
    requires |cache.layers| == |net.blocks|
    modifies cache
    ensures var whole := Through(net.blocks, old(cache.layers), s0, token, pos);
            if whole.None? then o.None? else o == Some(whole.value.1) && cache.layers == whole.value.0
  {
    var state := s0;
    ghost var kv0 := cache.layers;
    ghost var whole := Through(net.blocks, kv0, s0, token, pos);
    assert net.blocks[0..] == net.blocks && kv0[0..] == kv0;
    if whole.Some? {
      assert [] + whole.value.0 == whole.value.0;
    }
    for i := 0 to |net.blocks|
      invariant |cache.layers| == |net.blocks| && cache.layers[i..] == kv0[i..]
      invariant whole == Behind(cache.layers[..i], Through(net.blocks[i..], kv0[i..], state, token, pos))
    {
      PassStep(net.blocks, kv0, cache.layers, i, state, token, pos);
      ghost var before := cache.layers;
      var next := ForwardCell(net.blocks[i], cache, i, state, token, pos);
      if next.None? { return None; }
      AfterUpdate(kv0, before, i, cache.layers[i]);
      state := next.value;
    }
    o := Some(state);
  }

  /** The first `t` tokens have run; `o` is the last one's state. */
  ghost predicate TokensDone(net: Net, kv0: seq<Rows>, kv: seq<Rows>, tokens: seq<int>, t: nat, pos: nat, o: Option<State>) {
    && |kv0| == |kv| == |net.blocks| && t <= |tokens|
    && var front := Outcome(net, kv0, tokens[..t], pos);
       front.Some? && front.value.0 == kv && (t > 0 ==> o == Some(Last(front.value.1)))
  }

  /** A token's pass through all the layers: the rows and its state. */
  function Pass(net: Net, kv: seq<Rows>, token: int, pos: nat): (o: Option<(seq<Rows>, State)>)
    requires |kv| == |net.blocks|
    ensures o.Some? ==> |o.value.0| == |kv|
  {
    var x :- net.embed(token);
    Through(net.blocks, kv, FromPlain(x), token, pos)
  }

  /** One token: its embedding, then all the layers. */
  method RunToken(net: Net, cache: KvCache, token: int, pos: nat) returns (o: Option<State>)
    requires |cache.layers| == |net.blocks|
    modifies cache
    ensures var p := Pass(net, old(cache.layers), token, pos);
            if p.None? then o.None? else o == Some(p.value.1) && cache.layers == p.value.0
  {
    var x := net.embed(token);
    if x.None? {
      return None;
    }
    o := ForwardToken(net, cache, FromPlain(x.value), token, pos);
  }

  lemma TokensNext(net: Net, kv0: seq<Rows>, kv: seq<Rows>, tokens: seq<int>, t: nat, pos: nat, before: Option<State>,
                   p: Option<(seq<Rows>, State)>)
    requires TokensDone(net, kv0, kv, tokens, t, pos, before) && t < |tokens| && p == Pass(net, kv, tokens[t], pos + t)
    ensures if p.None? then Outcome(net, kv0, tokens, pos).None?
            else TokensDone(net, kv0, p.value.0, tokens, t + 1, pos, Some(p.value.1))
  {
    OutcomeStep(net, kv0, tokens, pos, t);
    if p.None? {
      OutcomeFails(net, kv0, tokens, pos, t + 1);
    }
  }

  /** One turn of the loop over the tokens. */
  method TokenTurn(net: Net, cache: KvCache, tokens: seq<int>, t: nat, startPos: nat, ghost kv0: seq<Rows>, ghost before: Option<State>)
    returns (o: Option<State>)
    requires t < |tokens| && TokensDone(net, kv0, cache.layers, tokens, t, startPos, before)
    modifies cache
    ensures if o.None? then Outcome(net, kv0, tokens, startPos).None?
            else TokensDone(net, kv0, cache.layers, tokens, t + 1, startPos, o)
  {
    ghost var kv := cache.layers;
    o := RunToken(net, cache, tokens[t], startPos + t);
    TokensNext(net, kv0, kv, tokens, t, startPos, before, Pass(net, kv, tokens[t], startPos + t));
  }

  /** One token after another, each through all the layers. */
  method TokenMajorPrefill(net: Net, cache: KvCache, tokens: seq<int>, startPos: nat) returns (o: Option<State>)
    requires tokens != [] && |cache.layers| <= |net.blocks|
    modifies cache
    ensures var whole := Outcome(net, Padded(old(cache.layers), |net.blocks|), tokens, startPos);
            if whole.None? then o.None? else o == Some(Last(whole.value.1)) && cache.layers == whole.value.0
  {
    cache.EnsureLayers(|net.blocks|);
    ghost var kv0 := cache.layers;
    o := None;
    for t := 0 to |tokens|
      invariant TokensDone(net, kv0, cache.layers, tokens, t, startPos, o)
    {
      o := TokenTurn(net, cache, tokens, t, startPos, kv0, o);
      if o.None? {
        return None;
      }
    }
    assert tokens[..|tokens|] == tokens;
  }

  lemma OutcomeStep(net: Net, kv: seq<Rows>, tokens: seq<int>, pos: nat, t: nat)
    requires |kv| == |net.blocks| && t < |tokens|
    ensures var front, next := Outcome(net, kv, tokens[..t], pos), Outcome(net, kv, tokens[..t + 1], pos);
            if front.None? || net.embed(tokens[t]).None? then next.None?
            else
              var last := Through(net.blocks, front.value.0, FromPlain(net.embed(tokens[t]).value), tokens[t], pos + t);
              if last.None? then next.None? else next == Some((last.value.0, front.value.1 + [last.value.1]))
  {
    assert Init(tokens[..t + 1]) == tokens[..t] && Last(tokens[..t + 1]) == tokens[t];
    var front := Embeds(net, tokens[..t]);
    if front.Some? && net.embed(tokens[t]).Some? {
      var states := front.value + [FromPlain(net.embed(tokens[t]).value)];
      assert Init(states) == front.value;
    }
  }

  lemma {:induction false} OutcomeFails(net: Net, kv: seq<Rows>, tokens: seq<int>, pos: nat, t: nat)
    requires |kv| == |net.blocks| && t <= |tokens| && Outcome(net, kv, tokens[..t], pos).None?
    ensures Outcome(net, kv, tokens, pos).None?
    decreases |tokens| - t
  {
    if t < |tokens| {
      OutcomeStep(net, kv, tokens, pos, t);
      OutcomeFails(net, kv, tokens, pos, t + 1);
    } else {
      assert tokens[..t] == tokens;
    }
  }

  // ---------------------------------------------------------------- layer-major

  lemma {:induction false} AttnsFail(b: Block, rows: Rows, pres: seq<HcPre>, pos: nat, t: nat)
    requires t <= |pres| && Attns(b, rows, pres[..t], pos).None?
    ensures Attns(b, rows, pres, pos).None?
    decreases |pres| - t
  {
    if t < |pres| {
      assert Init(pres[..t + 1]) == pres[..t];
      AttnsFail(b, rows, pres, pos, t + 1);
    } else {
      assert pres[..t] == pres;
    }
  }

  /** The attention calls of one layer, token by token, pushing rows as they go. */
  ghost predicate AttnsAre(b: Block, rows0: Rows, pres: seq<HcPre>, t: nat, pos: nat, rows: Rows, outs: seq<seq<real>>) {
    t <= |pres| && Attns(b, rows0, pres[..t], pos) == Some((rows, outs))
  }

  lemma AttnsNext(b: Block, rows0: Rows, pres: seq<HcPre>, t: nat, pos: nat, rows: Rows, outs: seq<seq<real>>, a: Option<Attended>)
    requires t < |pres| && AttnsAre(b, rows0, pres, t, pos, rows, outs) && a == b.attn(rows, pres[t].out, pos + t)
    ensures if a.None? then Attns(b, rows0, pres, pos).None?
            else AttnsAre(b, rows0, pres, t + 1, pos, rows + [a.value.row], outs + [a.value.out])
  {
    assert pres[..t + 1] == pres[..t] + [pres[t]];
    AttnsLast(b, rows0, pres[..t], pres[t], pos);
    if a.None? {
      AttnsFail(b, rows0, pres, pos, t + 1);
    }
  }

  /** No layer but layer `i` has changed. */
  ghost predicate OnlyLayer(was: seq<Rows>, now: seq<Rows>, i: nat) {
    |now| == |was| && forall k :: 0 <= k < |was| && k != i ==> now[k] == was[k]
  }

  /** One attention call of the batch. */
  method AttendOne(b: Block, cache: KvCache, i: nat, x: seq<real>, pos: nat) returns (o: Option<seq<real>>)
    requires i < |cache.layers|
    modifies cache
    ensures var a := b.attn(old(cache.layers[i]), x, pos);
            if a.None? then o.None? && cache.layers == old(cache.layers)
            else o == Some(a.value.out) && cache.layers == old(cache.layers)[i := old(cache.layers[i]) + [a.value.row]]
  {
    var a := b.attn(cache.layers[i], x, pos);
    if a.None? {
      return None;
    }
    cache.Push(i, a.value.row);
    o := Some(a.value.out);
  }

  method AttendBatch(b: Block, cache: KvCache, i: nat, nEmbd: nat, batch: HcPre, n: nat, startPos: nat, ghost pres: seq<HcPre>)
    returns (o: Option<seq<real>>)
    requires i < |cache.layers| && n == |pres| && Packs(batch, pres) && Sized(Outs(pres), nEmbd)
    modifies cache
    ensures OnlyLayer(old(cache.layers), cache.layers, i)
    ensures var a := Attns(b, old(cache.layers[i]), pres, startPos);
            if a.None? then o.None?
            else o == Some(Concat(a.value.1)) && cache.layers == old(cache.layers)[i := a.value.0]
  {
    ghost var rows0 := cache.layers[i];
    ghost var rows: Rows, outs: seq<seq<real>> := rows0, [];
    ghost var kv0 := cache.layers;
    var attnOut := [];
    for t := 0 to n
      invariant AttnsAre(b, rows0, pres, t, startPos, rows, outs) && attnOut == Concat(outs)
      invariant cache.layers == kv0[i := rows]
    {
      OneRecord(batch, pres, nEmbd, t);
      ghost var a := b.attn(rows, pres[t].out, startPos + t);
      AttnsNext(b, rows0, pres, t, startPos, rows, outs, a);
      var out := AttendOne(b, cache, i, batch.out[t * nEmbd..(t + 1) * nEmbd], startPos + t);
      if out.None? {
        return None;
      }
      ConcatAppends(outs, out.value);
      attnOut := attnOut + out.value;
      rows, outs := rows + [a.value.row], outs + [out.value];
    }
    assert pres[..|pres|] == pres;
    o := Some(attnOut);
  }

  /** The mixer, attention and post step of one layer over the batch, on flat buffers. */
  method AttendLayer(b: Block, i: nat, cache: KvCache, flat: seq<real>, n: nat, count: nat, startPos: nat, ghost states: seq<State>)
    returns (o: Option<seq<real>>)
    requires WellSized(b, n) && n > 0 && i < |cache.layers| && count == |states| > 0
    requires flat == Concat(states) && Sized(states, N_HC * n)
    modifies cache
    ensures OnlyLayer(old(cache.layers), cache.layers, i)
    ensures b.mixer.width != n ==> o.None? && cache.layers == old(cache.layers)
    ensures b.mixer.width == n ==>
              var a := AttnPhase(b, old(cache.layers[i]), states, startPos);
              if a.None? then o.None?
              else o == Some(Concat(a.value.1)) && Sized(a.value.1, N_HC * n) && cache.layers == old(cache.layers)[i := a.value.0]
  {
    RecordsOfConcat(states, N_HC * n);
    BufferNotEmpty(states, N_HC * n);
    var pre := HcPreBatch(b.mixer, flat);
    if b.mixer.width != n {
      WrongWidthFails(b.mixer, flat, n);
    }
    if pre.None? { return None; }
    ghost var pres := Pres(b.mixer, states).value;
    PresSized(b.mixer, states, n);
    ghost var rows0 := cache.layers[i];
    var attnOut := AttendBatch(b, cache, i, n, pre.value, count, startPos, pres);
    if attnOut.None? { return None; }
    ghost var outs := Attns(b, rows0, pres, startPos).value.1;
    AttnsSized(b, rows0, pres, startPos, n);
    o := HcPostBatch(attnOut.value, flat, pre.value.post, pre.value.comb, n, outs, states, pres);
    if o.Some? {
      PostsSized(outs, states, pres, N_HC * n);
    }
  }

  // ------------------------------------------------ one layer, all layers

  /** Both mixers of a layer take records of the embedding's width. */
  predicate LayerFits(b: Block, nEmbd: nat) {
    b.mixer.width == nEmbd && (b.ffn.Some? ==> b.ffn.value.mixer.width == nEmbd)
  }

  /** The loop body for one layer: every token, on flat buffers. */
  method ForwardLayer(net: Net, i: nat, cache: KvCache, flat: seq<real>, tokens: seq<int>, startPos: nat, ghost states: seq<State>)
    returns (o: Option<seq<real>>)
    requires net.Valid() && i < |net.blocks| && i < |cache.layers| && tokens != [] && |states| == |tokens|
    requires flat == Concat(states) && Sized(states, N_HC * net.nEmbd)
    modifies cache
    ensures OnlyLayer(old(cache.layers), cache.layers, i)
    ensures net.blocks[i].mixer.width != net.nEmbd ==> o.None? && cache.layers == old(cache.layers)
    ensures net.blocks[i].mixer.width == net.nEmbd ==>
              var a := AttnPhase(net.blocks[i], old(cache.layers[i]), states, startPos);
              if a.None? then o.None? else cache.layers == old(cache.layers)[i := a.value.0]
    ensures !LayerFits(net.blocks[i], net.nEmbd) ==> o.None?
    ensures LayerFits(net.blocks[i], net.nEmbd) ==>
              var l := BatchLayer(net.blocks[i], old(cache.layers[i]), states, tokens, startPos);
              if l.None? then o.None?
              else o == Some(Concat(l.value.1)) && Sized(l.value.1, N_HC * net.nEmbd)
  {
    var b := net.blocks[i];
    var mixed := AttendLayer(b, i, cache, flat, net.nEmbd, |tokens|, startPos, states);
    if mixed.None? { return None; }
    if b.ffn.None? {
      return mixed;
    }
    ghost var mixedStates := AttnPhase(b, old(cache.layers[i]), states, startPos).value.1;
    o := FfnBatch(b.ffn.value, mixed.value, tokens, net.nEmbd, mixedStates);
    if o.Some? {
      StepsSized(Heard(b.ffn.value, mixedStates, tokens), mixedStates, tokens, N_HC * net.nEmbd);
    }
  }

  /** What is left of the layers, put behind the rows of the layers already done. */
  ghost function BehindAll(done: seq<Rows>, rest: Option<(seq<Rows>, seq<State>)>): Option<(seq<Rows>, seq<State>)> {
    if rest.None? then None else Some((done + rest.value.0, rest.value.1))
  }

  lemma LayerStep(blocks: seq<Block>, kv0: seq<Rows>, kv: seq<Rows>, i: nat, states: seq<State>, tokens: seq<int>, pos: nat)
    requires |blocks| == |kv0| == |kv| && i < |blocks| && kv[i..] == kv0[i..] && |states| == |tokens|
    ensures var whole := BehindAll(kv[..i], BatchMajor(blocks[i..], kv0[i..], states, tokens, pos));
            var l := BatchLayer(blocks[i], kv[i], states, tokens, pos);
            if l.None? then whole.None?
            else whole == BehindAll(kv[..i] + [l.value.0], BatchMajor(blocks[i + 1..], kv0[i + 1..], l.value.1, tokens, pos))
  {
    assert blocks[i..][1..] == blocks[i + 1..] && kv0[i..][1..] == kv0[i + 1..];
    assert kv0[i..][0] == kv[i..][0];
    var l := BatchLayer(blocks[i], kv[i], states, tokens, pos);
    if l.Some? {
      var rest := BatchMajor(blocks[i + 1..], kv0[i + 1..], l.value.1, tokens, pos);
      if rest.Some? {
        assert kv[..i] + ([l.value.0] + rest.value.0) == kv[..i] + [l.value.0] + rest.value.0;
      }
    }
  }

  method EmbedBatch(net: Net, tokens: seq<int>) returns (o: Option<seq<real>>)
    requires net.Valid()
    ensures var e := Embeds(net, tokens);
            if e.None? then o.None? else o == Some(Concat(e.value)) && Sized(e.value, N_HC * net.nEmbd)
  {
    var flat := [];
    for t := 0 to |tokens|
      invariant Embeds(net, tokens[..t]).Some? && flat == Concat(Embeds(net, tokens[..t]).value)
      invariant Sized(Embeds(net, tokens[..t]).value, N_HC * net.nEmbd)
    {
      PrefixInit(tokens, t);
      var token := tokens[t];
      var x := net.embed(token);
      if x.None? {
        EmbedsFail(net, tokens, t + 1);
        return None;
      }
      ConcatAppends(Embeds(net, tokens[..t]).value, FromPlain(x.value));
      assert |x.value| == net.nEmbd;
      assert Embeds(net, tokens[..t + 1]).value == Embeds(net, tokens[..t]).value + [FromPlain(x.value)];
      flat := flat + FromPlain(x.value);
    }
    assert tokens[..|tokens|] == tokens;
    o := Some(flat);
  }

  lemma {:induction false} EmbedsFail(net: Net, tokens: seq<int>, t: nat)
    requires t <= |tokens| && Embeds(net, tokens[..t]).None?
    ensures Embeds(net, tokens).None?
    decreases |tokens| - t
  {
    if t < |tokens| {
      PrefixInit(tokens, t);
      EmbedsFail(net, tokens, t + 1);
    } else {
      assert tokens[..t] == tokens;
    }
  }

  /** Both mixers of the first `n` layers take records of the embedding's width. */
  ghost predicate WidthsMatch(net: Net, n: nat) {
    n <= |net.blocks| && forall j :: 0 <= j < n ==> LayerFits(net.blocks[j], net.nEmbd)
  }

  /** The first layer could run attention for every token, and has one more row for each. */
  ghost predicate FirstRan(net: Net, kv0: seq<Rows>, kv: seq<Rows>, n: nat) {
    |net.blocks| > 0 && |kv| == |kv0| == |net.blocks|
    && (net.blocks[0].mixer.width == net.nEmbd ==> |kv[0]| == |kv0[0]| + n)
  }

  /** Attention of the first layer succeeds for every token, if there is a layer. */
  ghost predicate FirstAttends(net: Net, kv0: seq<Rows>, states: seq<State>, pos: nat)
    requires |kv0| == |net.blocks|
  {
    |net.blocks| > 0 ==> AttnPhase(net.blocks[0], kv0[0], states, pos).Some?
  }

  /** After `i` layers: their rows are final, the states are in the buffer, the other rows are untouched. */
  ghost predicate Underway(net: Net, kv0: seq<Rows>, kv: seq<Rows>, i: nat, states: seq<State>, flat: seq<real>,
                           tokens: seq<int>, startPos: nat, whole: Option<(seq<Rows>, seq<State>)>)
  {
    && WidthsMatch(net, i) && |kv| == |kv0| == |net.blocks| && kv[i..] == kv0[i..]
    && |states| == |tokens| && flat == Concat(states) && Sized(states, N_HC * net.nEmbd)
    && whole == BehindAll(kv[..i], BatchMajor(net.blocks[i..], kv0[i..], states, tokens, startPos))
    && (i > 0 ==> FirstRan(net, kv0, kv, |tokens|))
  }

  /** One turn of the loop over the layers. */
  method LayerTurn(net: Net, i: nat, cache: KvCache, flat: seq<real>, tokens: seq<int>, startPos: nat,
                   ghost states: seq<State>, ghost kv0: seq<Rows>, ghost whole: Option<(seq<Rows>, seq<State>)>)
    returns (o: Option<seq<real>>, ghost next: seq<State>)
    requires net.Valid() && tokens != [] && i < |net.blocks|
    requires Underway(net, kv0, cache.layers, i, states, flat, tokens, startPos, whole)
    modifies cache
    ensures o.Some? ==> Underway(net, kv0, cache.layers, i + 1, next, o.value, tokens, startPos, whole)
    ensures o.None? ==> |cache.layers| == |net.blocks| && (whole.None? || !LayerFits(net.blocks[i], net.nEmbd))
    ensures o.None? && (i == 0 ==> FirstAttends(net, kv0, states, startPos)) ==> FirstRan(net, kv0, cache.layers, |tokens|)
    ensures i == 0 && net.blocks[i].mixer.width != net.nEmbd ==> o.None? && cache.layers == kv0
  {
    LayerStep(net.blocks, kv0, cache.layers, i, states, tokens, startPos);
    ghost var before := cache.layers;
    assert i == 0 ==> before == kv0;
    next := states;
    o := ForwardLayer(net, i, cache, flat, tokens, startPos, states);
    LayerRows(net.blocks[i], before[i], states, startPos, N_HC * net.nEmbd);
    if o.Some? {
      next := BatchLayer(net.blocks[i], before[i], states, tokens, startPos).value.1;
      AfterUpdate(kv0, before, i, cache.layers[i]);
    }
  }

  lemma LayerRows(b: Block, rows: Rows, states: seq<State>, pos: nat, d: nat)
    requires Sized(states, d)
    ensures AttnPhase(b, rows, states, pos).Some? ==> |AttnPhase(b, rows, states, pos).value.0| == |rows| + |states|
  {
    if AttnPhase(b, rows, states, pos).Some? {
      AttnPhaseShape(b, rows, states, pos, d);
    }
  }

  lemma NotBegun(net: Net, kv0: seq<Rows>, states: seq<State>, flat: seq<real>, tokens: seq<int>, startPos: nat)
    requires |kv0| == |net.blocks| && |states| == |tokens| && flat == Concat(states) && Sized(states, N_HC * net.nEmbd)
    ensures Underway(net, kv0, kv0, 0, states, flat, tokens, startPos, BatchMajor(net.blocks, kv0, states, tokens, startPos))
  {
    var whole := BatchMajor(net.blocks, kv0, states, tokens, startPos);
    assert net.blocks[0..] == net.blocks && kv0[0..] == kv0;
    assert whole.Some? ==> [] + whole.value.0 == whole.value.0;
  }

  lemma AllRun(net: Net, kv0: seq<Rows>, kv: seq<Rows>, n: nat, states: seq<State>, flat: seq<real>, tokens: seq<int>, startPos: nat,
               whole: Option<(seq<Rows>, seq<State>)>)
    requires n == |net.blocks| && Underway(net, kv0, kv, n, states, flat, tokens, startPos, whole)
    ensures whole == Some((kv, states))
  {
    assert kv[..n] == kv && kv + [] == kv;
  }

  /** The loop over the layers, for the rows and states `whole` that all of them give. */
  method LayerLoop(net: Net, cache: KvCache, start: seq<real>, tokens: seq<int>, startPos: nat,
                   ghost states0: seq<State>, ghost kv0: seq<Rows>, ghost whole: Option<(seq<Rows>, seq<State>)>)
    returns (o: Option<seq<real>>, ghost states: seq<State>)
    requires net.Valid() && tokens != [] && cache.layers == kv0
    requires Underway(net, kv0, kv0, 0, states0, start, tokens, startPos, whole)
    modifies cache
    ensures o.Some? ==> Underway(net, kv0, cache.layers, |net.blocks|, states, o.value, tokens, startPos, whole)
    ensures o.None? ==> |cache.layers| == |net.blocks| && (whole.None? || !WidthsMatch(net, |net.blocks|))
    ensures o.None? && FirstAttends(net, kv0, states0, startPos) ==> FirstRan(net, kv0, cache.layers, |tokens|)
    ensures |net.blocks| > 0 && net.blocks[0].mixer.width != net.nEmbd ==> o.None? && cache.layers == kv0
  {
    var flat := start;
    states := states0;
    for i := 0 to |net.blocks|
      invariant Underway(net, kv0, cache.layers, i, states, flat, tokens, startPos, whole)
      invariant i == 0 ==> cache.layers == kv0 && states == states0
    {
      var next;
      next, states := LayerTurn(net, i, cache, flat, tokens, startPos, states, kv0, whole);
      if next.None? { return None, states; }
      flat := next.value;
    }
    o := Some(flat);
  }

  /** The layers one after another, each over all tokens. */
  method ForwardLayers(net: Net, cache: KvCache, start: seq<real>, tokens: seq<int>, startPos: nat, ghost states0: seq<State>)
    returns (o: Option<seq<real>>)
    requires net.Valid() && tokens != [] && |states0| == |tokens| && |cache.layers| == |net.blocks|
    requires start == Concat(states0) && Sized(states0, N_HC * net.nEmbd)
    modifies cache
    ensures WidthsMatch(net, |net.blocks|) ==>
              var whole := BatchMajor(net.blocks, old(cache.layers), states0, tokens, startPos);
              if whole.None? then o.None?
              else o == Some(Concat(whole.value.1)) && Sized(whole.value.1, N_HC * net.nEmbd) && cache.layers == whole.value.0
    ensures |cache.layers| == |net.blocks| && (o.Some? ==> WidthsMatch(net, |net.blocks|))
    ensures |net.blocks| > 0 && net.blocks[0].mixer.width != net.nEmbd ==> o.None? && cache.layers == old(cache.layers)
    ensures FirstAttends(net, old(cache.layers), states0, startPos) && o.None? ==>
              FirstRan(net, old(cache.layers), cache.layers, |tokens|)
  {
    ghost var kv0 := cache.layers;
    ghost var whole := BatchMajor(net.blocks, kv0, states0, tokens, startPos);
    ghost var states;
    NotBegun(net, kv0, states0, start, tokens, startPos);
    o, states := LayerLoop(net, cache, start, tokens, startPos, states0, kv0, whole);
    if o.Some? {
      AllRun(net, kv0, cache.layers, |net.blocks|, states, o.value, tokens, startPos, whole);
    }
  }

  /** The rows and final states of a layer-major prefill whose mixers all fit. */
  ghost function BatchOutcome(net: Net, kv: seq<Rows>, tokens: seq<int>, pos: nat): (o: Option<(seq<Rows>, seq<State>)>)
    requires |kv| == |net.blocks|
    ensures o.Some? ==> |o.value.1| == |tokens|
  {
    var states :- Embeds(net, tokens);
    BatchMajor(net.blocks, kv, states, tokens, pos)
  }

  /** Where the token loop gets through, attention of the first layer does. */
  lemma OutcomeAttends(net: Net, kv: seq<Rows>, tokens: seq<int>, pos: nat)
    requires |kv| == |net.blocks| && Outcome(net, kv, tokens, pos).Some?
    ensures Embeds(net, tokens).Some? && FirstAttends(net, kv, Embeds(net, tokens).value, pos)
  {
    var states := Embeds(net, tokens).value;
    SchedulesAgree(net.blocks, kv, states, tokens, pos);
    if |net.blocks| > 0 {
      assert LayerOver(net.blocks[0], kv[0], states, tokens, pos).Some?;
      PhasesAreCells(net.blocks[0], kv[0], states, tokens, pos);
    }
  }

  /**
   `forward_tokens_through_blocks_hc_layer_major`, up to the output head. When both mixers of every
   layer have the embedding width it leaves what the batch schedule says; when one has not, it gives
   up, and when that is the first, before touching the cache.
   */
  method LayerMajorPrefill(net: Net, cache: KvCache, tokens: seq<int>, startPos: nat) returns (o: Option<State>)
    requires net.Valid() && tokens != [] && |cache.layers| <= |net.blocks|
    modifies cache
    ensures WidthsMatch(net, |net.blocks|) ==>
              var whole := BatchOutcome(net, Padded(old(cache.layers), |net.blocks|), tokens, startPos);
              if whole.None? then o.None? else o == Some(Last(whole.value.1)) && cache.layers == whole.value.0
    ensures |cache.layers| == |net.blocks| && (o.Some? ==> WidthsMatch(net, |net.blocks|))
    ensures |net.blocks| > 0 && net.blocks[0].mixer.width != net.nEmbd ==>
              o.None? && cache.layers == Padded(old(cache.layers), |net.blocks|)
    ensures Outcome(net, Padded(old(cache.layers), |net.blocks|), tokens, startPos).Some? && o.None? ==>
              FirstRan(net, Padded(old(cache.layers), |net.blocks|), cache.layers, |tokens|)
  {
    cache.EnsureLayers(|net.blocks|);
    ghost var kv0 := cache.layers;
    var start := EmbedBatch(net, tokens);
    if start.None? { return None; }
    ghost var states := Embeds(net, tokens).value;
    if Outcome(net, kv0, tokens, startPos).Some? {
      OutcomeAttends(net, kv0, tokens, startPos);
    }
    var flat := ForwardLayers(net, cache, start.value, tokens, startPos, states);
    if flat.None? { return None; }
    o := Some(LastRecord(flat.value, N_HC * net.nEmbd, |tokens|, BatchMajor(net.blocks, kv0, states, tokens, startPos).value.1));
  }

  /** The last of `n` records of a buffer. */
  function LastRecord(flat: seq<real>, d: nat, n: nat, ghost states: seq<State>): (s: State)
    requires n == |states| > 0 && flat == Concat(states) && Sized(states, d)
    ensures s == Last(states)
  {
    RecordAt(states, d, n - 1);
    Record(flat, d, n - 1)
  }
}
