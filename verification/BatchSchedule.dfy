/** What the layer-major loop computes, and when that is what the token loop computes. */
module BatchSchedule {
  // The batch code differs from the token code in one thing only: when routing fails for some token of a
  // layer, that layer runs without its routed part for every token.

  import opened Wrappers
  import opened HcBatch
  import opened FeedForward
  import opened Schedule
  import opened LayerPhases

  ghost function BatchFfns(b: Block, states: seq<State>, tokens: seq<int>): (o: Option<seq<State>>)
    requires |states| == |tokens|
    ensures o.Some? ==> |o.value| == |states|
  {
    if b.ffn.Some? then BatchSteps(b.ffn.value, states, tokens) else Some(states)
  }

  /** All tokens through one layer, as the batch code does it. */
  ghost function BatchLayer(b: Block, rows: Rows, states: seq<State>, tokens: seq<int>, pos: nat): (o: Option<(Rows, seq<State>)>)
    requires |states| == |tokens|
    ensures o.Some? ==> |o.value.1| == |states|
  {
    BatchFfnPhase(b, AttnPhase(b, rows, states, pos), tokens)
  }

  ghost function BatchFfnPhase(b: Block, a: Option<(Rows, seq<State>)>, tokens: seq<int>): (o: Option<(Rows, seq<State>)>)
    requires a.Some? ==> |a.value.1| == |tokens|
    ensures o.Some? ==> |o.value.1| == |tokens|
  {
    var x :- a;
    var done :- BatchFfns(b, x.1, tokens);
    Some((x.0, done))
  }

  ghost function BatchMajor(blocks: seq<Block>, kv: seq<Rows>, states: seq<State>, tokens: seq<int>, pos: nat)
    : (o: Option<(seq<Rows>, seq<State>)>)
    requires |blocks| == |kv| && |states| == |tokens|
    ensures o.Some? ==> |o.value.0| == |kv| && |o.value.1| == |states|
    decreases |blocks|
  {
    if blocks == [] then Some(([], states))
    else
      var (rows, next) :- BatchLayer(blocks[0], kv[0], states, tokens, pos);
      var (rest, out) :- BatchMajor(blocks[1..], kv[1..], next, tokens, pos);
      Some(([rows] + rest, out))
  }

  // ---------------------------------------------------------------- one layer

  /** Behind attention, routing succeeds for every token, or is silent for every token. */
  ghost predicate LayerAlike(b: Block, rows: Rows, states: seq<State>, tokens: seq<int>, pos: nat)
    requires |states| == |tokens|
  {
    var a := AttnPhase(b, rows, states, pos);
    b.ffn.Some? && a.Some? ==> Alike(b.ffn.value, a.value.1, tokens)
  }

  /** Where the token loop gets through the layer, the batch does the same exactly when routing is alike. */
  lemma LayerAgrees(b: Block, nEmbd: nat, rows: Rows, states: seq<State>, tokens: seq<int>, pos: nat)
    requires WellSized(b, nEmbd) && nEmbd > 0 && |states| == |tokens|
    requires LayerOver(b, rows, states, tokens, pos).Some?
    ensures BatchLayer(b, rows, states, tokens, pos) == LayerOver(b, rows, states, tokens, pos)
       <==> LayerAlike(b, rows, states, tokens, pos)
  {
    PhasesAreCells(b, rows, states, tokens, pos);
    var a := AttnPhase(b, rows, states, pos).value;
    if b.ffn.Some? {
      BatchAgrees(b.ffn.value, nEmbd, a.1, tokens);
    }
  }

  // ---------------------------------------------------------------- all layers

  /** Routing is alike in every layer, at the states the token loop has there. */
  ghost predicate AllAlike(blocks: seq<Block>, kv: seq<Rows>, states: seq<State>, tokens: seq<int>, pos: nat)
    requires |blocks| == |kv| && |states| == |tokens|
    decreases |blocks|
  {
    blocks == [] ||
    (LayerAlike(blocks[0], kv[0], states, tokens, pos)
     && var l := LayerOver(blocks[0], kv[0], states, tokens, pos);
        l.Some? ==> AllAlike(blocks[1..], kv[1..], l.value.1, tokens, pos))
  }

  /** After the first `m` layers the batch has the rows and the states of the token loop. */
  ghost predicate SameAfter(blocks: seq<Block>, kv: seq<Rows>, states: seq<State>, tokens: seq<int>, pos: nat, m: nat)
    requires |blocks| == |kv| && |states| == |tokens|
  {
    m <= |blocks| ==>
      BatchMajor(blocks[..m], kv[..m], states, tokens, pos) == LayerMajor(blocks[..m], kv[..m], states, tokens, pos)
  }

  ghost predicate SameThroughout(blocks: seq<Block>, kv: seq<Rows>, states: seq<State>, tokens: seq<int>, pos: nat)
    requires |blocks| == |kv| && |states| == |tokens|
  {
    forall m: nat :: SameAfter(blocks, kv, states, tokens, pos, m)
  }

  lemma WholePrefix<T>(s: seq<T>)
    ensures s[..|s|] == s
  {
  }

  lemma SameAtEnd(blocks: seq<Block>, kv: seq<Rows>, states: seq<State>, tokens: seq<int>, pos: nat)
    requires |blocks| == |kv| && |states| == |tokens| && SameThroughout(blocks, kv, states, tokens, pos)
    ensures BatchMajor(blocks, kv, states, tokens, pos) == LayerMajor(blocks, kv, states, tokens, pos)
  {
    WholePrefix(blocks);
    WholePrefix(kv);
    assert SameAfter(blocks, kv, states, tokens, pos, |blocks|);
  }

  /** Behind a first layer that agrees, the first `m + 1` layers agree exactly when the next `m` do. */
  lemma SameBehind(blocks: seq<Block>, kv: seq<Rows>, states: seq<State>, tokens: seq<int>, pos: nat, next: seq<State>, m: nat)
    requires |blocks| == |kv| && |states| == |tokens| == |next| && blocks != []
    requires BatchLayer(blocks[0], kv[0], states, tokens, pos) == LayerOver(blocks[0], kv[0], states, tokens, pos)
    requires LayerOver(blocks[0], kv[0], states, tokens, pos).Some?
    requires next == LayerOver(blocks[0], kv[0], states, tokens, pos).value.1
    ensures SameAfter(blocks, kv, states, tokens, pos, m + 1) <==> SameAfter(blocks[1..], kv[1..], next, tokens, pos, m)
  {
    if m + 1 <= |blocks| {
      var bs, ks := blocks[..m + 1], kv[..m + 1];
      assert bs[0] == blocks[0] && ks[0] == kv[0];
      assert bs[1..] == blocks[1..][..m] && ks[1..] == kv[1..][..m];
      var rows := LayerOver(blocks[0], kv[0], states, tokens, pos).value.0;
      var x, y := BatchMajor(bs[1..], ks[1..], next, tokens, pos), LayerMajor(bs[1..], ks[1..], next, tokens, pos);
      assert BatchMajor(bs, ks, states, tokens, pos) == if x.None? then None else Some(([rows] + x.value.0, x.value.1));
      assert LayerMajor(bs, ks, states, tokens, pos) == if y.None? then None else Some(([rows] + y.value.0, y.value.1));
      if x.Some? && y.Some? {
        assert ([rows] + x.value.0)[1..] == x.value.0 && ([rows] + y.value.0)[1..] == y.value.0;
      }
    }
  }

  /** The first layer alone. */
  lemma SameAfterOne(blocks: seq<Block>, kv: seq<Rows>, states: seq<State>, tokens: seq<int>, pos: nat)
    requires |blocks| == |kv| && |states| == |tokens| && blocks != [] && LayerOver(blocks[0], kv[0], states, tokens, pos).Some?
    ensures SameAfter(blocks, kv, states, tokens, pos, 1)
       <==> BatchLayer(blocks[0], kv[0], states, tokens, pos) == LayerOver(blocks[0], kv[0], states, tokens, pos)
  {
    var bs, ks := blocks[..1], kv[..1];
    assert bs[1..] == [] && ks[1..] == [];
    var x, y := BatchLayer(blocks[0], kv[0], states, tokens, pos), LayerOver(blocks[0], kv[0], states, tokens, pos);
    assert BatchMajor(bs, ks, states, tokens, pos) == if x.None? then None else Some(([x.value.0] + [], x.value.1));
    assert LayerMajor(bs, ks, states, tokens, pos) == Some(([y.value.0] + [], y.value.1));
    if x.Some? {
      assert ([x.value.0] + [])[0] == x.value.0 && ([y.value.0] + [])[0] == y.value.0;
    }
  }

  /**
   Where the token loop gets through, the batch has its rows and states after every number of layers
   exactly when in every layer routing succeeds for every token, or is silent for every token.
   */
  lemma {:induction false} BatchAgreesThroughout(blocks: seq<Block>, nEmbd: nat, kv: seq<Rows>, states: seq<State>, tokens: seq<int>, pos: nat)
    requires |blocks| == |kv| && |states| == |tokens| && nEmbd > 0
    requires forall i :: 0 <= i < |blocks| ==> WellSized(blocks[i], nEmbd)
    requires LayerMajor(blocks, kv, states, tokens, pos).Some?
    ensures SameThroughout(blocks, kv, states, tokens, pos) <==> AllAlike(blocks, kv, states, tokens, pos)
    decreases |blocks|
  {
    if blocks == [] {
      assert forall m: nat {:trigger SameAfter(blocks, kv, states, tokens, pos, m)} :: m <= 0 ==> blocks[..m] == [] && kv[..m] == [];
    } else {
      var l := LayerOver(blocks[0], kv[0], states, tokens, pos).value;
      LayerAgrees(blocks[0], nEmbd, kv[0], states, tokens, pos);
      SameAfterOne(blocks, kv, states, tokens, pos);
      BatchAgreesThroughout(blocks[1..], nEmbd, kv[1..], l.1, tokens, pos);
      if LayerAlike(blocks[0], kv[0], states, tokens, pos) {
        ThroughoutStep(blocks, kv, states, tokens, pos, l.1);
      }
    }
  }

  lemma ThroughoutStep(blocks: seq<Block>, kv: seq<Rows>, states: seq<State>, tokens: seq<int>, pos: nat, next: seq<State>)
    requires |blocks| == |kv| && |states| == |tokens| == |next| && blocks != []
    requires BatchLayer(blocks[0], kv[0], states, tokens, pos) == LayerOver(blocks[0], kv[0], states, tokens, pos)
    requires LayerOver(blocks[0], kv[0], states, tokens, pos).Some?
    requires next == LayerOver(blocks[0], kv[0], states, tokens, pos).value.1
    ensures SameThroughout(blocks, kv, states, tokens, pos) <==> SameThroughout(blocks[1..], kv[1..], next, tokens, pos)
  {
    forall m: nat
      ensures SameAfter(blocks, kv, states, tokens, pos, m + 1) <==> SameAfter(blocks[1..], kv[1..], next, tokens, pos, m)
    {
      SameBehind(blocks, kv, states, tokens, pos, next, m);
    }
    assert SameAfter(blocks, kv, states, tokens, pos, 0);
    if SameThroughout(blocks[1..], kv[1..], next, tokens, pos) {
      forall m: nat
        ensures SameAfter(blocks, kv, states, tokens, pos, m)
      {
        if m > 0 {
          assert SameAfter(blocks[1..], kv[1..], next, tokens, pos, m - 1);
        }
      }
    } else {
      var m: nat :| !SameAfter(blocks[1..], kv[1..], next, tokens, pos, m);
      assert !SameAfter(blocks, kv, states, tokens, pos, m + 1);
    }
  }
}
