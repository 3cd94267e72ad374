/**
 Hyper-connections: four residual streams mixed into and out of every block. After a block each stream is
 the gated output of the block plus a mix of the four streams before it, entry by entry.
 */
module HyperConnection {
  import opened Wrappers

  const N_HC := 4

  /** `hc_pre_from_state`'s result: the block input, the output gates and the stream mixer. */
  datatype HcPre = HcPre(out: seq<real>, post: seq<real>, comb: seq<real>)

  /** Entry `d` of stream `dst` after the block: gated block output plus mixed residual streams. */
  function PostEntry(blockOut: seq<real>, residual: seq<real>, post: seq<real>, comb: seq<real>, n: nat, dst: nat, d: nat): real
    requires |blockOut| == n && |residual| == N_HC * n && |post| == N_HC && |comb| == N_HC * N_HC
    requires dst < N_HC && d < n
  {
    blockOut[d] * post[dst]
    + comb[dst] * residual[d] + comb[dst + 4] * residual[n + d]
    + comb[dst + 8] * residual[2 * n + d] + comb[dst + 12] * residual[3 * n + d]
  }

  predicate PostFits(blockOut: seq<real>, residual: seq<real>, post: seq<real>, comb: seq<real>) {
    && |residual| > 0 && |residual| % N_HC == 0 && |post| == N_HC && |comb| == N_HC * N_HC
    && |blockOut| == |residual| / N_HC
  }

  function HcPost(blockOut: seq<real>, residual: seq<real>, post: seq<real>, comb: seq<real>): (o: Option<seq<real>>)
    ensures o.Some? ==> |o.value| == |residual| && |residual| > 0
  {
    if !PostFits(blockOut, residual, post, comb) then None
    else
      var n := |residual| / N_HC;
      Some(seq(N_HC * n, i requires 0 <= i < N_HC * n => PostCell(blockOut, residual, post, comb, i)))
  }

  /** Cell `i` of the flat output: stream `i / n`, entry `i % n`. */
  function PostCell(blockOut: seq<real>, residual: seq<real>, post: seq<real>, comb: seq<real>, i: nat): real
    requires PostFits(blockOut, residual, post, comb) && i < |residual|
  {
    var n := |residual| / N_HC;
    StreamOf(n, i);
    PostEntry(blockOut, residual, post, comb, n, i / n, i % n)
  }

  lemma StreamOf(n: nat, i: nat)
    requires n > 0 && i < N_HC * n
    ensures i / n < N_HC
  {
  }

  lemma StreamIndex(n: nat, dst: nat, d: nat)
    requires d < n && dst < N_HC
    ensures (dst * n + d) / n == dst && (dst * n + d) % n == d && dst * n + d < N_HC * n
  {
    if dst == 0 {
    } else if dst == 1 {
    } else if dst == 2 {
    } else {
    }
  }

  /**
   Entry `d` of output stream `dst`: the block's output through the stream's gate, plus the four streams
   through column `dst` of the mixer, which is kept source by source.
   */
  ghost predicate MixedAt(blockOut: seq<real>, residual: seq<real>, post: seq<real>, comb: seq<real>, out: seq<real>, dst: nat, d: nat)
    requires |post| == 4 && |comb| == 16 && |residual| == |out| == 4 * |blockOut| && dst < 4 && d < |blockOut|
  {
    var n := |blockOut|;
    && dst * n + d < |out|
    && out[dst * n + d] == blockOut[d] * post[dst] + comb[dst] * residual[d] + comb[4 + dst] * residual[n + d]
                           + comb[8 + dst] * residual[2 * n + d] + comb[12 + dst] * residual[3 * n + d]
  }

  /** The post step succeeds exactly for buffers of matching sizes. */
  lemma HcPostFits(blockOut: seq<real>, residual: seq<real>, post: seq<real>, comb: seq<real>)
    ensures HcPost(blockOut, residual, post, comb).Some? <==>
            blockOut != [] && |residual| == 4 * |blockOut| && |post| == 4 && |comb| == 16
  {
  }

  lemma HcPostMixes(blockOut: seq<real>, residual: seq<real>, post: seq<real>, comb: seq<real>, out: seq<real>, dst: nat, d: nat)
    requires HcPost(blockOut, residual, post, comb) == Some(out) && dst < 4 && d < |blockOut|
    ensures MixedAt(blockOut, residual, post, comb, out, dst, d)
  {
    var n := |blockOut|;
    StreamIndex(n, dst, d);
    assert out[dst * n + d] == PostCell(blockOut, residual, post, comb, dst * n + d);
  }

  /** The accumulation over the four source streams. */
  method MixStreams(blockOut: seq<real>, residual: seq<real>, post: seq<real>, comb: seq<real>, dst: nat, d: nat)
    returns (acc: real)
    requires PostFits(blockOut, residual, post, comb) && dst < N_HC && d < |blockOut|
    ensures acc == PostEntry(blockOut, residual, post, comb, |blockOut|, dst, d)
  {
    var n := |blockOut|;
    acc := blockOut[d] * post[dst];
    var src := 0;
    while src < N_HC
      invariant src <= N_HC
      invariant acc == blockOut[d] * post[dst]
        + (if src > 0 then comb[dst] * residual[d] else 0.0)
        + (if src > 1 then comb[dst + 4] * residual[n + d] else 0.0)
        + (if src > 2 then comb[dst + 8] * residual[2 * n + d] else 0.0)
        + (if src > 3 then comb[dst + 12] * residual[3 * n + d] else 0.0)
    {
      StreamIndex(n, src, d);
      acc := acc + comb[dst + src * N_HC] * residual[src * n + d];
      src := src + 1;
    }
  }

  ghost predicate FilledTo(out: seq<real>, k: nat, blockOut: seq<real>, residual: seq<real>, post: seq<real>, comb: seq<real>)
    requires PostFits(blockOut, residual, post, comb)
  {
    k <= |out| == |residual| && forall i :: 0 <= i < k ==> out[i] == PostCell(blockOut, residual, post, comb, i)
  }

  /** The loop over the entries of one output stream. */
  method FillStream(out: array<real>, blockOut: seq<real>, residual: seq<real>, post: seq<real>, comb: seq<real>, dst: nat)
    requires PostFits(blockOut, residual, post, comb) && dst < N_HC
    requires FilledTo(out[..], dst * |blockOut|, blockOut, residual, post, comb)
    modifies out
    ensures FilledTo(out[..], dst * |blockOut| + |blockOut|, blockOut, residual, post, comb)
  {
    var n := |blockOut|;
    var base := dst * n;
    StreamIndex(n, dst, n - 1);
    for d := 0 to n
      invariant FilledTo(out[..], base + d, blockOut, residual, post, comb)
    {
      StreamIndex(n, dst, d);
      out[base + d] := MixStreams(blockOut, residual, post, comb, dst, d);
    }
  }

  /** `hc_post_one` */
  method HcPostOne(blockOut: seq<real>, residual: seq<real>, post: seq<real>, comb: seq<real>) returns (o: Option<seq<real>>)
    ensures o == HcPost(blockOut, residual, post, comb)
  {
    if |residual| == 0 || |residual| % N_HC != 0 || |post| != N_HC || |comb| != N_HC * N_HC {
      return None;
    }
    if |blockOut| != |residual| / N_HC {
      return None;
    }
    var out := new real[|residual|](_ => 0.0);
    for dst := 0 to N_HC
      invariant FilledTo(out[..], dst * |blockOut|, blockOut, residual, post, comb)
    {
      FillStream(out, blockOut, residual, post, comb, dst);
      NextStream(dst, |blockOut|);
    }
    assert out[..] == HcPost(blockOut, residual, post, comb).value;
    o := Some(out[..]);
  }

  lemma NextStream(dst: nat, n: nat)
    ensures (dst + 1) * n == dst * n + n
  {
  }
}
