/** The engine a session drives: a deterministic step over a KV cache, or a stub without one. */
module InferenceEngine {
  import opened Wrappers
  import opened LittleEndian

  type KvLayer = seq<seq<real>>
  type Logits = seq<u32>

  datatype Step = Step(kv: seq<KvLayer>, logits: Logits)

  /**
   `reference` is the whole model for one token and position; without a model the engine only has
   `stub`, a function of the tokens. A reference step succeeds on every token.
   */
  datatype Engine = Engine(
    vocabSize: nat,
    layerCount: nat,
    reference: Option<(seq<KvLayer>, i32, nat) -> Step>,
    stub: seq<i32> -> Logits)
  {
    ghost predicate Valid() {
      && vocabSize < TWO_TO_THE_32
      && (reference.Some? ==> forall kv, t, p ::
            |reference.value(kv, t, p).kv| == |kv| && |reference.value(kv, t, p).logits| < TWO_TO_THE_32)
      && (forall ts :: |stub(ts)| < TWO_TO_THE_32)
    }
  }

  /** `ensure_layers` */
  function Grown(kv: seq<KvLayer>, n: nat): seq<KvLayer> {
    if |kv| < n then kv + seq(n - |kv|, _ => []) else kv
  }

  /** `clear`: the layers stay, their rows go. */
  function Cleared(kv: seq<KvLayer>): (r: seq<KvLayer>)
    ensures |r| == |kv| && forall i :: 0 <= i < |r| ==> r[i] == []
  {
    seq(|kv|, _ => [])
  }

  /** The reference step as the engine takes it. */
  function Advance(e: Engine, kv: seq<KvLayer>, token: i32, pos: nat): Step
    requires e.reference.Some?
  {
    e.reference.value(Grown(kv, e.layerCount), token, pos)
  }

  /** All tokens fed one after another. */
  function Feed(e: Engine, kv: seq<KvLayer>, tokens: seq<i32>, pos: nat): Step
    requires e.reference.Some?
    decreases |tokens|
  {
    if tokens == [] then Step(kv, [])
    else
      var n := |tokens| - 1;
      Advance(e, Feed(e, kv, tokens[..n], pos).kv, tokens[n], pos + n)
  }

  /** `g` is `kv` with empty layers added until there are `n`. */
  ghost predicate PaddedTo(kv: seq<KvLayer>, n: nat, g: seq<KvLayer>) {
    |g| == (if |kv| < n then n else |kv|) && g[..|kv|] == kv && forall l :: |kv| <= l < |g| ==> g[l] == []
  }

  lemma PaddedIsGrown(kv: seq<KvLayer>, n: nat, g: seq<KvLayer>)
    requires PaddedTo(kv, n, g)
    ensures g == Grown(kv, n)
  {
    assert g == g[..|kv|] + g[|kv|..];
  }

  /** One step of the model on the padded rows `g`. */
  ghost predicate StepIs(e: Engine, kv: seq<KvLayer>, g: seq<KvLayer>, token: i32, pos: nat, r: Step) {
    e.reference.Some? && PaddedTo(kv, e.layerCount, g) && r == e.reference.value(g, token, pos)
  }

  /** Step `i` of a chain: on the rows the one before it left, with token `i` at position `pos + i`. */
  ghost predicate ChainedAt(e: Engine, kv: seq<KvLayer>, tokens: seq<i32>, pos: nat, gs: seq<seq<KvLayer>>, rs: seq<Step>, i: nat) {
    i < |rs| == |gs| == |tokens|
    && (i == 0 ==> StepIs(e, kv, gs[i], tokens[i], pos + i, rs[i]))
    && (i > 0 ==> StepIs(e, rs[i - 1].kv, gs[i], tokens[i], pos + i, rs[i]))
  }

  /** Feeding tokens is a chain of model steps. */
  lemma {:induction false} FedStepByStep(e: Engine, kv: seq<KvLayer>, tokens: seq<i32>, pos: nat, gs: seq<seq<KvLayer>>, rs: seq<Step>)
    requires e.reference.Some? && |gs| == |rs| == |tokens|
    requires forall i: nat :: i < |rs| ==> ChainedAt(e, kv, tokens, pos, gs, rs, i)
    ensures Feed(e, kv, tokens, pos) == if tokens == [] then Step(kv, []) else rs[|rs| - 1]
    decreases |tokens|
  {
    if tokens == [] {
    } else {
      var n := |tokens| - 1;
      forall i: nat | i < n
        ensures ChainedAt(e, kv, tokens[..n], pos, gs[..n], rs[..n], i)
      {
        assert ChainedAt(e, kv, tokens, pos, gs, rs, i);
      }
      FedStepByStep(e, kv, tokens[..n], pos, gs[..n], rs[..n]);
      assert ChainedAt(e, kv, tokens, pos, gs, rs, n);
      PaddedIsGrown(if n == 0 then kv else rs[n - 1].kv, e.layerCount, gs[n]);
    }
  }

  /** The live state a fresh session has after one sync to these tokens. */
  function Fresh(e: Engine, tokens: seq<i32>): Step {
    if e.reference.Some? then Feed(e, [], tokens, 0) else Step([], e.stub(tokens))
  }

  /** Feeding in two parts is feeding at once. */
  lemma {:induction false} FeedInParts(e: Engine, kv: seq<KvLayer>, a: seq<i32>, b: seq<i32>, pos: nat)
    requires e.reference.Some? && b != []
    ensures Feed(e, Feed(e, kv, a, pos).kv, b, pos + |a|) == Feed(e, kv, a + b, pos)
    decreases |b|
  {
    var n := |b| - 1;
    var front := b[..n];
    assert (a + b)[..|a| + n] == a + front;
    if n == 0 {
      assert a + front == a && front == [];
    } else {
      FeedInParts(e, kv, a, front, pos);
    }
  }

  lemma GrownFromEmpty(kv: seq<KvLayer>, n: nat)
    requires |kv| <= n && forall i :: 0 <= i < |kv| ==> kv[i] == []
    ensures Grown(kv, n) == Grown([], n)
  {
    assert forall i :: 0 <= i < n ==> Grown(kv, n)[i] == [];
    assert forall i :: 0 <= i < n ==> Grown([], n)[i] == [];
  }

  /** Empty layers left by a clear are as good as none. */
  lemma {:induction false} FeedFromCleared(e: Engine, kv: seq<KvLayer>, tokens: seq<i32>, pos: nat)
    requires e.reference.Some? && tokens != []
    requires |kv| <= e.layerCount && forall i :: 0 <= i < |kv| ==> kv[i] == []
    ensures Feed(e, kv, tokens, pos) == Feed(e, [], tokens, pos)
    decreases |tokens|
  {
    var n := |tokens| - 1;
    if n == 0 {
      GrownFromEmpty(kv, e.layerCount);
    } else {
      FeedFromCleared(e, kv, tokens[..n], pos);
    }
  }

  lemma {:induction false} FeedLayers(e: Engine, kv: seq<KvLayer>, tokens: seq<i32>, pos: nat)
    requires e.Valid() && e.reference.Some? && |kv| <= e.layerCount
    ensures |Feed(e, kv, tokens, pos).kv| <= e.layerCount && |Feed(e, kv, tokens, pos).logits| < TWO_TO_THE_32
    decreases |tokens|
  {
    if tokens == [] {
    } else {
      FeedLayers(e, kv, tokens[..|tokens| - 1], pos);
    }
  }

  class TransformerKv {
    var layers: seq<KvLayer>

    constructor ()
      ensures layers == []
    {
      layers := [];
    }

    method EnsureLayers(n: nat)
      modifies this
      ensures layers == Grown(old(layers), n)
    {
      if |layers| < n {
        layers := layers + seq(n - |layers|, _ => []);
      }
    }

    method Clear()
      modifies this
      ensures layers == Cleared(old(layers))
    {
      var i := 0;
      while i < |layers|
        invariant i <= |layers| == |old(layers)|
        invariant layers == Cleared(old(layers))[..i] + old(layers)[i..]
      {
        layers := layers[i := []];
        i := i + 1;
      }
    }
  }

  /** `try_reference_decode_next` */
  method TryReferenceDecodeNext(e: Engine, cache: TransformerKv, token: i32, pos: nat) returns (o: Option<Logits>)
    modifies cache
    ensures if e.reference.None? then o.None? && cache.layers == old(cache.layers)
            else o == Some(Advance(e, old(cache.layers), token, pos).logits)
                 && cache.layers == Advance(e, old(cache.layers), token, pos).kv
  {
    if e.reference.None? {
      return None;
    }
    cache.EnsureLayers(e.layerCount);
    var step := e.reference.value(cache.layers, token, pos);
    cache.layers := step.kv;
    o := Some(step.logits);
  }

  /** `try_reference_prefill`: the logits of the last token. */
  method TryReferencePrefill(e: Engine, cache: TransformerKv, tokens: seq<i32>, startPos: nat) returns (o: Option<Logits>)
    modifies cache
    ensures if e.reference.None? || tokens == [] then o.None? && cache.layers == old(cache.layers)
            else o == Some(Feed(e, old(cache.layers), tokens, startPos).logits)
                 && cache.layers == Feed(e, old(cache.layers), tokens, startPos).kv
  {
    o := None;
    for i := 0 to |tokens|
      invariant e.reference.None? ==> o.None? && cache.layers == old(cache.layers)
      invariant e.reference.Some? ==> cache.layers == Feed(e, old(cache.layers), tokens[..i], startPos).kv
      invariant e.reference.Some? ==> if i == 0 then o.None? else o == Some(Feed(e, old(cache.layers), tokens[..i], startPos).logits)
    {
      assert tokens[..i + 1][..i] == tokens[..i];
      o := TryReferenceDecodeNext(e, cache, tokens[i], startPos + i);
    }
    assert tokens[..|tokens|] == tokens;
  }

  const DUMMY_LAYERS: nat := 61

  /** `infer_logits`: a reference step on an empty cache if there is a model, else the stub. */
  method InferLogits(e: Engine, tokens: seq<i32>) returns (logits: Logits)
    ensures logits == if e.reference.None? || tokens == [] then e.stub(tokens)
                      else Advance(e, Grown([], 61), tokens[|tokens| - 1], |tokens| - 1).logits
  {
    if tokens != [] {
      var dummy := new TransformerKv();
      dummy.EnsureLayers(DUMMY_LAYERS);
      var o := TryReferenceDecodeNext(e, dummy, tokens[|tokens| - 1], |tokens| - 1);
      if o.Some? {
        return o.value;
      }
    }
    logits := e.stub(tokens);
  }
}
