/**
 The batch feed-forward on flat buffers, and what it amounts to: every token its own step, or, if routing
 fails for one of them, every token its step without the routed part. With another width it gives up.
 */
module FeedForwardBatch {
  import opened Wrappers
  import opened Flat
  import opened HyperConnection
  import opened HcBatch
  import opened FeedForward
  import M = RoutedMoe
  import B = RoutedMoeBatch

  // ---------------------------------------------------------------- one kernel over all records

  /** `ys` are the kernel's results for `xs`, all of which succeeded. */
  ghost predicate Mapped(kernel: seq<real> -> Option<seq<real>>, xs: seq<seq<real>>, ys: seq<seq<real>>) {
    |ys| <= |xs| && forall i :: 0 <= i < |ys| ==> kernel(xs[i]) == Some(ys[i])
  }

  /** A kernel that takes one record applied to every record of the buffer; one failure fails all. */
  method MapRecords(kernel: seq<real> -> Option<seq<real>>, flat: seq<real>, n: nat, count: nat, ghost xs: seq<seq<real>>)
    returns (o: Option<seq<real>>, ghost ys: seq<seq<real>>)
    requires flat == Concat(xs) && Sized(xs, n) && count == |xs|
    ensures o.None? ==> exists i :: 0 <= i < |xs| && kernel(xs[i]).None?
    ensures o.Some? ==> |ys| == |xs| && Mapped(kernel, xs, ys) && o.value == Concat(ys)
  {
    var acc := [];
    ys := [];
    for t := 0 to count
      invariant |ys| == t && Mapped(kernel, xs, ys) && acc == Concat(ys)
    {
      RecordAt(xs, n, t);
      var y := kernel(flat[t * n..(t + 1) * n]);
      if y.None? {
        assert kernel(xs[t]).None?;
        return None, ys;
      }
      ConcatAppends(ys, y.value);
      acc := acc + y.value;
      ys := ys + [y.value];
    }
    o := Some(acc);
  }

  // ---------------------------------------------------------------- the routed part

  /** What the batch keeps of the routed parts: all of them, or zeros for every token. */
  ghost predicate KeptParts(f: FeedForward, norms: seq<seq<real>>, tokens: seq<int>, n: nat, kept: seq<seq<real>>) {
    |kept| == |norms| == |tokens| && Sized(kept, n)
    && if forall i :: 0 <= i < |norms| ==> M.Succeeds(f.routed, norms[i], tokens[i]) then
         forall i :: 0 <= i < |norms| ==> M.RoutedSum(f.routed, norms[i], tokens[i]) == Some(kept[i])
       else
         forall i :: 0 <= i < |norms| ==> kept[i] == M.Zeros(n)
  }

  lemma {:induction false} ZerosConcat(zs: seq<seq<real>>, n: nat)
    requires forall i :: 0 <= i < |zs| ==> zs[i] == M.Zeros(n)
    ensures Concat(zs) == M.Zeros(|zs| * n)
  {
    if zs == [] {
      assert 0 * n == 0;
    } else {
      ZerosConcat(Init(zs), n);
      assert |zs| * n == (|zs| - 1) * n + n;
      assert M.Zeros((|zs| - 1) * n) + M.Zeros(n) == M.Zeros((|zs| - 1) * n + n);
    }
  }

  method RouteOrZeros(f: FeedForward, normBatch: seq<real>, tokens: seq<int>, n: nat, ghost norms: seq<seq<real>>)
    returns (flat: seq<real>, ghost kept: seq<seq<real>>)
    requires FfnSized(f, n) && n > 0 && tokens != [] && |norms| == |tokens| && normBatch == Concat(norms) && Sized(norms, n)
    ensures flat == Concat(kept) && KeptParts(f, norms, tokens, n, kept)
  {
    RecordsOfConcat(norms, n);
    ConcatLength(norms, n);
    var routed := B.RouteBatch(f.routed, normBatch, tokens, n);
    if routed.Some? {
      flat := routed.value;
      kept :| B.AllRouted(f.routed, norms, tokens, kept) && flat == Concat(kept);
      AllRoutedKept(f, norms, tokens, n, kept);
    } else {
      flat := M.Zeros(|normBatch|);
      kept := seq(|tokens|, _ => M.Zeros(n));
      ZerosConcat(kept, n);
    }
  }

  lemma AllRoutedKept(f: FeedForward, norms: seq<seq<real>>, tokens: seq<int>, n: nat, kept: seq<seq<real>>)
    requires FfnSized(f, n) && B.AllRouted(f.routed, norms, tokens, kept)
    ensures KeptParts(f, norms, tokens, n, kept)
  {
    forall i | 0 <= i < |norms|
      ensures M.RoutedSum(f.routed, norms[i], tokens[i]) == Some(kept[i])
    {
      assert M.IsRouted(f.routed, norms[i], tokens[i], kept[i]);
      M.RoutedIsSum(f.routed, norms[i], tokens[i], kept[i]);
    }
  }

  // ---------------------------------------------------------------- the sum and the post step

  function Sums(a: seq<seq<real>>, b: seq<seq<real>>, n: nat): (r: seq<seq<real>>)
    requires |a| == |b| && Sized(a, n) && Sized(b, n)
    ensures |r| == |a| && Sized(r, n)
  {
    seq(|a|, i requires 0 <= i < |a| => M.Plus(a[i], b[i]))
  }

  lemma {:induction false} SumsConcat(a: seq<seq<real>>, b: seq<seq<real>>, n: nat)
    requires |a| == |b| && Sized(a, n) && Sized(b, n)
    ensures |Concat(a)| == |Concat(b)| && Concat(Sums(a, b, n)) == M.Plus(Concat(a), Concat(b))
  {
    if a == [] {
    } else {
      SumsConcat(Init(a), Init(b), n);
      assert Init(Sums(a, b, n)) == Sums(Init(a), Init(b), n);
    }
  }

  /** `hc_post_sum_batch` */
  method PostSumBatch(routed: seq<real>, shared: seq<real>, res: seq<real>, batch: HcPre, n: nat,
                      ghost kept: seq<seq<real>>, ghost shareds: seq<seq<real>>, ghost states: seq<State>, ghost pres: seq<HcPre>)
    returns (o: Option<seq<real>>)
    requires |kept| == |shareds| && Sized(kept, n) && Sized(shareds, n)
    requires routed == Concat(kept) && shared == Concat(shareds)
    requires PostBuffers(Concat(Sums(shareds, kept, n)), res, batch.post, batch.comb, n, Sums(shareds, kept, n), states, pres)
    ensures var m := Posts(Sums(shareds, kept, n), states, pres); if m.None? then o.None? else o == Some(Concat(m.value))
  {
    SumsConcat(shareds, kept, n);
    RecordsOfConcat(kept, n);
    if |routed| != |shared| || |routed| % n != 0 {
      return None;
    }
    var summed := M.Plus(shared, routed);
    o := HcPostBatch(summed, res, batch.post, batch.comb, n, Sums(shareds, kept, n), states, pres);
  }

  // ---------------------------------------------------------------- the batch

  /** What the phases of the batch have computed for its tokens. */
  ghost predicate Computed(f: FeedForward, states: seq<State>, tokens: seq<int>, n: nat,
                           pres: seq<HcPre>, norms: seq<seq<real>>, kept: seq<seq<real>>, shareds: seq<seq<real>>)
  {
    && |states| == |tokens| == |pres| == |norms| == |shareds| && Pres(f.mixer, states) == Some(pres)
    && Mapped(f.norm, Outs(pres), norms) && Mapped(f.shared, norms, shareds) && KeptParts(f, norms, tokens, n, kept)
  }

  lemma ComputedAt(f: FeedForward, states: seq<State>, tokens: seq<int>, n: nat,
                   pres: seq<HcPre>, norms: seq<seq<real>>, kept: seq<seq<real>>, shareds: seq<seq<real>>, i: nat)
    requires FfnSized(f, n) && Computed(f, states, tokens, n, pres, norms, kept, shareds) && i < |states|
    ensures f.mixer.pre(states[i]) == Some(pres[i]) && |pres[i].out| == n
    ensures f.norm(pres[i].out) == Some(norms[i]) && f.shared(norms[i]) == Some(shareds[i]) && |shareds[i]| == n
    ensures Routes(f, states[i], tokens[i]) <==> M.Succeeds(f.routed, norms[i], tokens[i])
  {
    PresAt(f.mixer, states, i);
    assert f.norm(Outs(pres)[i]) == Some(norms[i]);
  }

  /** The kept part is the routed part of the half that is heard. */
  lemma KeptIsHeard(f: FeedForward, states: seq<State>, tokens: seq<int>, n: nat,
                    pres: seq<HcPre>, norms: seq<seq<real>>, kept: seq<seq<real>>, shareds: seq<seq<real>>, i: nat)
    requires FfnSized(f, n) && Computed(f, states, tokens, n, pres, norms, kept, shareds) && i < |states|
    ensures kept[i] == RoutedOr(Heard(f, states, tokens), norms[i], tokens[i], n)
  {
    forall k | 0 <= k < |states|
      ensures Routes(f, states[k], tokens[k]) <==> M.Succeeds(f.routed, norms[k], tokens[k])
    {
      ComputedAt(f, states, tokens, n, pres, norms, kept, shareds, k);
    }
    MutedIsZero(f, norms[i], tokens[i], n);
  }

  lemma PhasesAtStep(f: FeedForward, states: seq<State>, tokens: seq<int>, n: nat, pres: seq<HcPre>, norms: seq<seq<real>>,
                     kept: seq<seq<real>>, shareds: seq<seq<real>>, g: FeedForward, sums: seq<seq<real>>, i: nat)
    requires FfnSized(f, n) && Computed(f, states, tokens, n, pres, norms, kept, shareds) && Sized(shareds, n)
    requires g == Heard(f, states, tokens) && sums == Sums(shareds, kept, n) && i < |states|
    ensures Step(g, states[i], tokens[i]) == PostOf(sums, states, pres, i)
  {
    ComputedAt(f, states, tokens, n, pres, norms, kept, shareds, i);
    KeptIsHeard(f, states, tokens, n, pres, norms, kept, shareds, i);
    assert g.mixer == f.mixer && g.norm == f.norm && g.shared == f.shared;
    assert BlockOut(g, pres[i].out, tokens[i]) == Some(M.Plus(shareds[i], kept[i]));
  }

  /** Steps that are post steps one by one are post steps all together. */
  lemma StepsArePosts(g: FeedForward, states: seq<State>, tokens: seq<int>, outs: seq<seq<real>>, pres: seq<HcPre>)
    requires |states| == |tokens| == |outs| == |pres|
    requires forall i :: 0 <= i < |states| ==> Step(g, states[i], tokens[i]) == PostOf(outs, states, pres, i)
    ensures Posts(outs, states, pres) == Steps(g, states, tokens)
  {
    StepsAt(g, states, tokens);
    PostsAt(outs, states, pres);
    var a, b := Posts(outs, states, pres), Steps(g, states, tokens);
    if a.Some? {
      forall i | 0 <= i < |states|
        ensures a.value[i] == b.value[i]
      {
        assert PostOf(outs, states, pres, i) == Some(a.value[i]);
      }
      assert a.value == b.value;
    }
  }

  lemma PhasesAreSteps(f: FeedForward, states: seq<State>, tokens: seq<int>, n: nat,
                       pres: seq<HcPre>, norms: seq<seq<real>>, kept: seq<seq<real>>, shareds: seq<seq<real>>)
    requires FfnSized(f, n) && Computed(f, states, tokens, n, pres, norms, kept, shareds) && Sized(shareds, n)
    ensures Posts(Sums(shareds, kept, n), states, pres) == BatchSteps(f, states, tokens)
  {
    var g, sums := Heard(f, states, tokens), Sums(shareds, kept, n);
    forall i | 0 <= i < |states|
      ensures Step(g, states[i], tokens[i]) == PostOf(sums, states, pres, i)
    {
      PhasesAtStep(f, states, tokens, n, pres, norms, kept, shareds, g, sums, i);
    }
    StepsArePosts(g, states, tokens, sums, pres);
  }

  /** A kernel that fails for one token fails the batch, heard or muted. */
  lemma OneFails(f: FeedForward, states: seq<State>, tokens: seq<int>, i: nat)
    requires |states| == |tokens| && i < |states|
    requires var p := f.mixer.pre(states[i]);
             p.None? || f.norm(p.value.out).None? || f.shared(f.norm(p.value.out).value).None?
    ensures BatchSteps(f, states, tokens).None?
  {
    var g := Heard(f, states, tokens);
    assert Step(g, states[i], tokens[i]).None?;
    StepsAt(g, states, tokens);
  }

  lemma MixerFails(f: FeedForward, states: seq<State>, tokens: seq<int>)
    requires |states| == |tokens| && Pres(f.mixer, states).None?
    ensures BatchSteps(f, states, tokens).None?
  {
    if forall i :: 0 <= i < |states| ==> f.mixer.pre(states[i]).Some? {
      PresAll(f.mixer, states);
      assert false;
    }
    var i :| 0 <= i < |states| && f.mixer.pre(states[i]).None?;
    OneFails(f, states, tokens, i);
  }

  /**
   `ffn_block_output_batch`. With the embedding width it gives every token its step, muted if routing
   fails for any of them; with another width it gives up.
   */
  method FfnBatch(f: FeedForward, flat: seq<real>, tokens: seq<int>, ghost n: nat, ghost states: seq<State>) returns (o: Option<seq<real>>)
    requires FfnSized(f, n) && n > 0 && |states| == |tokens| && flat == Concat(states) && Sized(states, N_HC * n)
    ensures tokens == [] || f.mixer.width != n ==> o.None?
    ensures tokens != [] && f.mixer.width == n ==>
              var r := BatchSteps(f, states, tokens); if r.None? then o.None? else o == Some(Concat(r.value))
  {
    if |tokens| == 0 {
      return None;
    }
    RecordsOfConcat(states, N_HC * n);
    BufferNotEmpty(states, N_HC * n);
    var pre := HcPreBatch(f.mixer, flat);
    if f.mixer.width != n {
      WrongWidthFails(f.mixer, flat, n);
    }
    if pre.None? {
      if f.mixer.width == n {
        MixerFails(f, states, tokens);
      }
      return None;
    }
    if |flat| / (N_HC * f.mixer.width) != |tokens| {
      return None;
    }
    o := AfterMixer(f, flat, tokens, f.mixer.width, pre.value, states);
  }

  lemma BufferNotEmpty(states: seq<State>, d: nat)
    requires states != [] && d > 0 && Sized(states, d)
    ensures |Concat(states)| > 0
  {
    assert |Last(states)| == d;
  }

  lemma NormFails(f: FeedForward, states: seq<State>, tokens: seq<int>, pres: seq<HcPre>)
    requires |states| == |tokens| && Pres(f.mixer, states) == Some(pres)
    requires exists i :: 0 <= i < |pres| && f.norm(Outs(pres)[i]).None?
    ensures BatchSteps(f, states, tokens).None?
  {
    var i :| 0 <= i < |pres| && f.norm(Outs(pres)[i]).None?;
    PresAt(f.mixer, states, i);
    OneFails(f, states, tokens, i);
  }

  lemma SharedFails(f: FeedForward, states: seq<State>, tokens: seq<int>, pres: seq<HcPre>, norms: seq<seq<real>>)
    requires |states| == |tokens| && Pres(f.mixer, states) == Some(pres)
    requires |norms| == |pres| && Mapped(f.norm, Outs(pres), norms)
    requires exists i :: 0 <= i < |norms| && f.shared(norms[i]).None?
    ensures BatchSteps(f, states, tokens).None?
  {
    var i :| 0 <= i < |norms| && f.shared(norms[i]).None?;
    PresAt(f.mixer, states, i);
    assert f.norm(Outs(pres)[i]) == Some(norms[i]);
    OneFails(f, states, tokens, i);
  }

  /** The phases behind the mixer. */
  method AfterMixer(f: FeedForward, flat: seq<real>, tokens: seq<int>, n: nat, pre: HcPre, ghost states: seq<State>)
    returns (o: Option<seq<real>>)
    requires FfnSized(f, n) && n > 0 && tokens != [] && |states| == |tokens| && flat == Concat(states) && Sized(states, N_HC * n)
    requires Pres(f.mixer, states).Some? && Packs(pre, Pres(f.mixer, states).value)
    ensures var r := BatchSteps(f, states, tokens); if r.None? then o.None? else o == Some(Concat(r.value))
  {
    ghost var pres := Pres(f.mixer, states).value;
    PresSized(f.mixer, states, n);
    var normBatch, norms := MapRecords(f.norm, pre.out, n, |tokens|, Outs(pres));
    if normBatch.None? {
      NormFails(f, states, tokens, pres);
      return None;
    }
    assert Sized(norms, n);
    o := AfterNorm(f, flat, normBatch.value, tokens, n, pre, states, pres, norms);
  }

  /** The phases behind the norm: routed and shared experts. */
  method AfterNorm(f: FeedForward, flat: seq<real>, normBatch: seq<real>, tokens: seq<int>, n: nat, pre: HcPre,
                   ghost states: seq<State>, ghost pres: seq<HcPre>, ghost norms: seq<seq<real>>)
    returns (o: Option<seq<real>>)
    requires FfnSized(f, n) && n > 0 && tokens != [] && |states| == |tokens| && flat == Concat(states) && Sized(states, N_HC * n)
    requires Pres(f.mixer, states) == Some(pres) && Packs(pre, pres) && Sized(Gates(pres), N_HC) && Sized(Mixers(pres), N_HC * N_HC)
    requires |norms| == |pres| && Mapped(f.norm, Outs(pres), norms) && normBatch == Concat(norms) && Sized(norms, n)
    ensures var r := BatchSteps(f, states, tokens); if r.None? then o.None? else o == Some(Concat(r.value))
  {
    var routed, kept := RouteOrZeros(f, normBatch, tokens, n, norms);
    var shared, shareds := MapRecords(f.shared, normBatch, n, |tokens|, norms);
    if shared.None? {
      SharedFails(f, states, tokens, pres, norms);
      return None;
    }
    o := AfterExperts(f, flat, routed, shared.value, tokens, n, pre, states, pres, norms, kept, shareds);
  }

  /** The last phases: the sum of both parts, and the post step. */
  method AfterExperts(f: FeedForward, flat: seq<real>, routed: seq<real>, shared: seq<real>, tokens: seq<int>, n: nat, pre: HcPre,
                      ghost states: seq<State>, ghost pres: seq<HcPre>, ghost norms: seq<seq<real>>,
                      ghost kept: seq<seq<real>>, ghost shareds: seq<seq<real>>)
    returns (o: Option<seq<real>>)
    requires FfnSized(f, n) && n > 0 && |states| == |tokens| && flat == Concat(states) && Sized(states, N_HC * n)
    requires Computed(f, states, tokens, n, pres, norms, kept, shareds)
    requires Packs(pre, pres) && Sized(Gates(pres), N_HC) && Sized(Mixers(pres), N_HC * N_HC)
    requires routed == Concat(kept) && shared == Concat(shareds)
    ensures var r := BatchSteps(f, states, tokens); if r.None? then o.None? else o == Some(Concat(r.value))
  {
    assert Sized(shareds, n);
    PhasesAreSteps(f, states, tokens, n, pres, norms, kept, shareds);
    o := PostSumBatch(routed, shared, flat, pre, n, kept, shareds, states, pres);
  }
}
