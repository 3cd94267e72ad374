/** The mixer in front of a block: projection, Sinkhorn split, and the weighted sum of the streams. */
module HcMixer {
  import opened Wrappers
  import opened HyperConnection
  import opened Reals
  import B = HcBatch
  import F = Flat
  import K = Sinkhorn

  /** `project` stands for the root-mean-square norm and the projection tensor; `None` is their failure. */
  datatype Tensors = Tensors(project: seq<real> -> Option<seq<real>>, scale: seq<real>, base: seq<real>)

  /** The projection takes four embeddings to the entries of the split. */
  ghost predicate Projects(t: Tensors, nEmbd: nat) {
    forall s :: t.project(s).Some? ==> |s| == N_HC * nEmbd && |t.project(s).value| == K.SPLIT_DIM
  }

  function SumAt(x: seq<real>, w: seq<real>, n: nat, d: nat): real
    requires |x| == N_HC * n && |w| == N_HC && d < n
  {
    Times(x[d], w[0]) + Times(x[n + d], w[1]) + Times(x[2 * n + d], w[2]) + Times(x[3 * n + d], w[3])
  }

  function Sums(x: seq<real>, w: seq<real>, n: nat): (o: seq<real>)
    requires |x| == N_HC * n && |w| == N_HC
    ensures |o| == n
  {
    seq(n, d requires 0 <= d < n => SumAt(x, w, n, d))
  }

  function Gates(exp: real -> real, mix: seq<real>, t: Tensors, eps: real): (g: seq<real>)
    requires K.SplitFits(mix, t.scale, t.base)
    ensures |g| == N_HC
  {
    seq(N_HC, i requires 0 <= i < N_HC => K.PreGate(exp, mix, t.scale, t.base, eps, i))
  }

  function Outputs(exp: real -> real, mix: seq<real>, t: Tensors): (g: seq<real>)
    requires K.SplitFits(mix, t.scale, t.base)
    ensures |g| == N_HC
  {
    seq(N_HC, i requires 0 <= i < N_HC => K.PostGate(exp, mix, t.scale, t.base, i))
  }

  function PreOf(exp: real -> real, t: Tensors, iters: nat, eps: real, x: seq<real>): Option<HcPre> {
    if x == [] || |x| % N_HC != 0 then None
    else
      var mix :- t.project(x);
      if !K.SplitFits(mix, t.scale, t.base) then None
      else
        var n, gates := |x| / N_HC, Gates(exp, mix, t, eps);
        Some(HcPre(Sums(x, gates, n), Outputs(exp, mix, t), K.Mixer(exp, mix, t.scale, t.base, iters, eps)))
  }

  /** `hc_weighted_sum_one` */
  method WeightedSum(x: seq<real>, weights: seq<real>, n: nat) returns (out: seq<real>)
    requires |x| == N_HC * n && |weights| == N_HC
    ensures out == Sums(x, weights, n)
    ensures |out| == n && forall d :: 0 <= d < n ==>
              out[d] == x[d] * weights[0] + x[n + d] * weights[1] + x[2 * n + d] * weights[2] + x[3 * n + d] * weights[3]
  {
    out := [];
    for d := 0 to n
      invariant |out| == d && forall k :: 0 <= k < d ==> out[k] == SumAt(x, weights, n, k)
    {
      var acc := 0.0;
      for h := 0 to N_HC
        invariant acc == (if h > 0 then Times(x[d], weights[0]) else 0.0) + (if h > 1 then Times(x[n + d], weights[1]) else 0.0)
                       + (if h > 2 then Times(x[2 * n + d], weights[2]) else 0.0) + (if h > 3 then Times(x[3 * n + d], weights[3]) else 0.0)
      {
        acc := acc + Times(x[h * n + d], weights[h]);
      }
      out := out + [acc];
    }
  }

  /** `hc_pre_from_state` */
  method HcPreFromState(exp: real -> real, t: Tensors, iters: nat, eps: real, x: seq<real>) returns (o: Option<HcPre>)
    requires (forall r :: exp(r) > 0.0) && eps > 0.0
    ensures o == PreOf(exp, t, iters, eps, x)
  {
    if x == [] || |x| % N_HC != 0 {
      return None;
    }
    var mix := t.project(x);
    if mix.None? {
      return None;
    }
    var split := K.Split(exp, mix.value, t.scale, t.base, iters, eps);
    if split.None? {
      return None;
    }
    assert split.value[..4] == Gates(exp, mix.value, t, eps);
    assert split.value[4..8] == Outputs(exp, mix.value, t);
    var out := WeightedSum(x, split.value[..4], |x| / N_HC);
    o := Some(HcPre(out, split.value[4..8], split.value[8..]));
  }

  /** Where the parts of a mixer's result come from. */
  lemma PreParts(exp: real -> real, t: Tensors, iters: nat, eps: real, x: seq<real>, p: HcPre)
    requires PreOf(exp, t, iters, eps, x) == Some(p)
    ensures |x| == 4 * |p.out| && t.project(x).Some? && K.SplitFits(t.project(x).value, t.scale, t.base)
    ensures var n, mix := |p.out|, t.project(x).value;
            && (forall d :: 0 <= d < n ==> p.out[d] == SumAt(x, Gates(exp, mix, t, eps), n, d))
            && (forall i :: 0 <= i < 4 ==> Gates(exp, mix, t, eps)[i] == K.PreGate(exp, mix, t.scale, t.base, eps, i))
            && |p.post| == 4 && (forall i :: 0 <= i < 4 ==> p.post[i] == K.PostGate(exp, mix, t.scale, t.base, i))
            && p.comb == K.Mixer(exp, mix, t.scale, t.base, iters, eps)
  {
  }

  /** The mixer as the batch form sees it: its width is a twenty-fourth of its base. */
  function AsMixer(exp: real -> real, t: Tensors, iters: nat, eps: real): (m: B.Mixer)
    ensures m.width * 24 <= |t.base| < m.width * 24 + 24
  {
    B.Mixer(|t.base| / K.SPLIT_DIM, x => PreOf(exp, t, iters, eps, x))
  }

  /** Its results have the sizes the batch form relies on, and every output gate is positive. */
  lemma MixerIsSized(exp: real -> real, t: Tensors, iters: nat, eps: real, nEmbd: nat)
    requires (forall r :: exp(r) > 0.0) && Projects(t, nEmbd)
    ensures B.MixerSized(AsMixer(exp, t, iters, eps), nEmbd)
  {
    var mixer := AsMixer(exp, t, iters, eps);
    forall x | mixer.pre(x).Some?
      ensures |x| == N_HC * nEmbd && |mixer.pre(x).value.out| == nEmbd
      ensures |mixer.pre(x).value.post| == N_HC && |mixer.pre(x).value.comb| == N_HC * N_HC
      ensures forall i :: 0 <= i < N_HC ==> mixer.pre(x).value.post[i] > 0.0
    {
      var mix := t.project(x).value;
      forall i | 0 <= i < N_HC
        ensures K.PostGate(exp, mix, t.scale, t.base, i) > 0.0
      {
        K.PostGatePositive(exp, mix, t.scale, t.base, i);
      }
    }
  }

  /**
   The split needs a base of 24 entries, and with one of that length the batch form takes the
   embedding to be one wide: on any wider model it refuses every batch.
   */
  lemma ShortBaseFails(exp: real -> real, t: Tensors, iters: nat, eps: real, nEmbd: nat, states: seq<real>)
    requires (forall r :: exp(r) > 0.0) && Projects(t, nEmbd) && |t.base| == K.SPLIT_DIM && nEmbd > 1
    requires |states| > 0 && |states| % N_HC == 0
    ensures B.Pres(AsMixer(exp, t, iters, eps), F.Records(states, N_HC, |states| / N_HC)).None?
  {
    MixerIsSized(exp, t, iters, eps, nEmbd);
    B.WrongWidthFails(AsMixer(exp, t, iters, eps), states, nEmbd);
  }
}
