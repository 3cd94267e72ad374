/** How the engine chooses between the two prefill loops. */
module PrefillDispatch {
  // Long runs of tokens go layer by layer, and fall back to one token at a time when that gives up. The
  // fallback works on the cache it was left.

  import opened Wrappers
  import opened Flat
  import opened HcBatch
  import opened Schedule
  import opened BatchSchedule
  import opened Prefill

  const LAYER_MAJOR_MIN_TOKENS := 256

  /** The batch loop is used and runs through all the layers. */
  ghost predicate Batched(net: Net, tokens: seq<int>) {
    |tokens| >= 256 && WidthsMatch(net, |net.blocks|)
  }

  /** The batch loop is not used, or gives up before it has touched the cache. */
  ghost predicate Untouched(net: Net, tokens: seq<int>) {
    |tokens| < 256 || (|net.blocks| > 0 && net.blocks[0].mixer.width != net.nEmbd)
  }

  /** Routing is alike in every layer, at the states the token loop has there. */
  ghost predicate RoutesAlike(net: Net, kv: seq<Rows>, tokens: seq<int>, pos: nat)
    requires |kv| == |net.blocks|
  {
    Embeds(net, tokens).Some? ==> AllAlike(net.blocks, kv, Embeds(net, tokens).value, tokens, pos)
  }

  /** The output head and the projection to logits: the batch loop stops at the head. */
  datatype Heads = Heads(head: State -> seq<real>, project: seq<real> -> seq<real>)

  /** A prefill leaves one more row for every token in the first layer. */
  lemma OutcomeGrows(net: Net, kv: seq<Rows>, tokens: seq<int>, pos: nat)
    requires |kv| == |net.blocks| > 0 && Outcome(net, kv, tokens, pos).Some?
    ensures |Outcome(net, kv, tokens, pos).value.0[0]| == |kv[0]| + |tokens|
  {
    var states := Embeds(net, tokens).value;
    SchedulesAgree(net.blocks, kv, states, tokens, pos);
    RowsGrow(net.blocks[0], kv[0], states, tokens, pos);
  }

  lemma {:induction false} RowsGrow(b: Block, rows: Rows, states: seq<State>, tokens: seq<int>, pos: nat)
    requires |states| == |tokens| && LayerOver(b, rows, states, tokens, pos).Some?
    ensures |LayerOver(b, rows, states, tokens, pos).value.0| == |rows| + |tokens|
    decreases |tokens|
  {
    if tokens == [] {
    } else {
      RowsGrow(b, rows, Init(states), Init(tokens), pos);
    }
  }

  /** After a batch loop that gave up behind the first attention, a second pass leaves too many rows. */
  lemma TwiceTooMany(net: Net, kv0: seq<Rows>, kv: seq<Rows>, tokens: seq<int>, pos: nat)
    requires tokens != [] && |kv0| == |net.blocks| && Outcome(net, kv0, tokens, pos).Some?
    requires FirstRan(net, kv0, kv, |tokens|) && net.blocks[0].mixer.width == net.nEmbd && Outcome(net, kv, tokens, pos).Some?
    ensures Outcome(net, kv, tokens, pos).value.0 != Outcome(net, kv0, tokens, pos).value.0
  {
    OutcomeGrows(net, kv0, tokens, pos);
    OutcomeGrows(net, kv, tokens, pos);
  }

  lemma PaddedOnce(kv: seq<Rows>, n: nat)
    requires |kv| == n
    ensures Padded(kv, n) == kv
  {
  }

  /** With routing alike in every layer the batch leaves what the token loop leaves. */
  lemma AlikeIsSame(net: Net, kv: seq<Rows>, tokens: seq<int>, pos: nat)
    requires net.Valid() && |kv| == |net.blocks| && Outcome(net, kv, tokens, pos).Some? && RoutesAlike(net, kv, tokens, pos)
    ensures BatchOutcome(net, kv, tokens, pos) == Outcome(net, kv, tokens, pos)
  {
    var states := Embeds(net, tokens).value;
    SchedulesAgree(net.blocks, kv, states, tokens, pos);
    BatchAgreesThroughout(net.blocks, net.nEmbd, kv, states, tokens, pos);
    SameAtEnd(net.blocks, kv, states, tokens, pos);
  }

  /** There is a result, and the rows are those the token loop leaves. */
  ghost predicate EndsRight(net: Net, kv: seq<Rows>, tokens: seq<int>, pos: nat, now: seq<Rows>, o: Option<seq<real>>)
    requires |kv| == |net.blocks|
  {
    var whole := Outcome(net, kv, tokens, pos);
    o.Some? && whole.Some? && now == whole.value.0
  }

  /** The batch schedule leaves the rows the token loop leaves. */
  ghost predicate SameRows(net: Net, kv: seq<Rows>, tokens: seq<int>, pos: nat)
    requires |kv| == |net.blocks|
  {
    var whole, batch := Outcome(net, kv, tokens, pos), BatchOutcome(net, kv, tokens, pos);
    whole.Some? && batch.Some? && batch.value.0 == whole.value.0
  }

  /**
   `try_prefill_logits_from_blocks` for hyper-connected weights.

   If the batch loop is not used, or gives up on the first mixer, the result is that of the token loop.
   If all mixers fit and the batch runs through, the result is that of the batch schedule, short of the
   projection. Where the token loop would succeed, the cache ends right exactly in the first case, and
   where all mixers fit and the batch schedule has the token loop's rows; it has them, and the states,
   if in every layer routing succeeds for every token or is silent for every token.
   */
  method PrefillLogits(net: Net, heads: Heads, cache: KvCache, tokens: seq<int>, startPos: nat) returns (o: Option<seq<real>>)
    requires net.Valid() && |cache.layers| <= |net.blocks|
    modifies cache
    ensures tokens == [] ==> o.None? && cache.layers == old(cache.layers)
    ensures tokens != [] ==>
              var kv := Padded(old(cache.layers), |net.blocks|);
              var whole, batch := Outcome(net, kv, tokens, startPos), BatchOutcome(net, kv, tokens, startPos);
              && (Untouched(net, tokens) ==>
                    if whole.None? then o.None?
                    else o == Some(heads.project(heads.head(Last(whole.value.1)))) && cache.layers == whole.value.0)
              && (Batched(net, tokens) && batch.Some? ==>
                    o == Some(heads.head(Last(batch.value.1))) && cache.layers == batch.value.0)
              && (whole.Some? ==>
                    (EndsRight(net, kv, tokens, startPos, cache.layers, o)
                     <==> Untouched(net, tokens) || (Batched(net, tokens) && SameRows(net, kv, tokens, startPos))))
              && (whole.Some? && RoutesAlike(net, kv, tokens, startPos) ==> batch == whole)
  {
    if tokens == [] {
      return None;
    }
    ghost var kv := Padded(cache.layers, |net.blocks|);
    ghost var whole := Outcome(net, kv, tokens, startPos);
    if whole.Some? && RoutesAlike(net, kv, tokens, startPos) {
      AlikeIsSame(net, kv, tokens, startPos);
    }
    if |tokens| >= LAYER_MAJOR_MIN_TOKENS {
      var batch := LayerMajorPrefill(net, cache, tokens, startPos);
      if batch.Some? {
        return Some(heads.head(batch.value));
      }
      PaddedOnce(cache.layers, |net.blocks|);
    }
    ghost var kv' := Padded(cache.layers, |net.blocks|);
    var last := TokenMajorPrefill(net, cache, tokens, startPos);
    if whole.Some? && !Untouched(net, tokens) && Outcome(net, kv', tokens, startPos).Some? {
      TwiceTooMany(net, kv, kv', tokens, startPos);
    }
    o := if last.None? then None else Some(heads.project(heads.head(last.value)));
  }
}
