/**
 The batch forms of the hyper-connection steps: mixers and post steps over records laid end to end. The
 width of a record comes from the mixer, and a buffer of records of another width is refused.
 */
module HcBatch {
  import opened Wrappers
  import opened Flat
  import opened HyperConnection

  type State = seq<real>

  /**
   The mixer in front of a block. `pre` is uninterpreted; `None` is its failure. `width` is what the
   batch form takes for the embedding width: the length of the mixer's base divided by 24.
   */
  datatype Mixer = Mixer(width: nat, pre: State -> Option<HcPre>)

  /** The mixer takes and returns buffers of the model's sizes, and its output gates are positive. */
  ghost predicate MixerSized(mixer: Mixer, nEmbd: nat) {
    forall s :: mixer.pre(s).Some? ==>
      |s| == N_HC * nEmbd && |mixer.pre(s).value.out| == nEmbd
      && |mixer.pre(s).value.post| == N_HC && |mixer.pre(s).value.comb| == N_HC * N_HC
      && forall dst :: 0 <= dst < N_HC ==> mixer.pre(s).value.post[dst] > 0.0
  }

  function Pres(mixer: Mixer, states: seq<State>): (o: Option<seq<HcPre>>)
    ensures o.Some? ==> |o.value| == |states|
    decreases |states|
  {
    if states == [] then Some([])
    else
      var front :- Pres(mixer, Init(states));
      var p :- mixer.pre(Last(states));
      Some(front + [p])
  }

  function Posts(outs: seq<seq<real>>, states: seq<State>, pres: seq<HcPre>): (o: Option<seq<State>>)
    requires |outs| == |states| == |pres|
    ensures o.Some? ==> |o.value| == |states|
    decreases |states|
  {
    if states == [] then Some([])
    else
      var front :- Posts(Init(outs), Init(states), Init(pres));
      var s :- HcPost(Last(outs), Last(states), Last(pres).post, Last(pres).comb);
      Some(front + [s])
  }

  lemma PostsLast(outs: seq<seq<real>>, states: seq<State>, pres: seq<HcPre>, out: seq<real>, s: State, p: HcPre)
    requires |outs| == |states| == |pres|
    ensures var f := Posts(outs, states, pres);
            var m := HcPost(out, s, p.post, p.comb);
            Posts(outs + [out], states + [s], pres + [p]) == if f.None? || m.None? then None else Some(f.value + [m.value])
  {
    assert Init(outs + [out]) == outs && Init(states + [s]) == states && Init(pres + [p]) == pres;
  }

  lemma PresLast(mixer: Mixer, states: seq<State>, s: State)
    ensures var f := Pres(mixer, states);
            var p := mixer.pre(s);
            Pres(mixer, states + [s]) == if f.None? || p.None? then None else Some(f.value + [p.value])
  {
    assert Init(states + [s]) == states;
  }

  function Outs(ps: seq<HcPre>): (r: seq<seq<real>>)
    ensures |r| == |ps|
  {
    seq(|ps|, i requires 0 <= i < |ps| => ps[i].out)
  }

  function Gates(ps: seq<HcPre>): (r: seq<seq<real>>)
    ensures |r| == |ps|
  {
    seq(|ps|, i requires 0 <= i < |ps| => ps[i].post)
  }

  function Mixers(ps: seq<HcPre>): (r: seq<seq<real>>)
    ensures |r| == |ps|
  {
    seq(|ps|, i requires 0 <= i < |ps| => ps[i].comb)
  }

  /** A batch result holds the per-token results laid end to end. */
  ghost predicate Packs(batch: HcPre, ps: seq<HcPre>) {
    batch.out == Concat(Outs(ps)) && batch.post == Concat(Gates(ps)) && batch.comb == Concat(Mixers(ps))
  }

  /** One more result at the end of the three buffers. */
  function Joined(batch: HcPre, p: HcPre): HcPre {
    HcPre(batch.out + p.out, batch.post + p.post, batch.comb + p.comb)
  }

  lemma PacksAppend(batch: HcPre, ps: seq<HcPre>, p: HcPre)
    requires Packs(batch, ps)
    ensures Packs(Joined(batch, p), ps + [p])
  {
    assert Outs(ps + [p]) == Outs(ps) + [p.out];
    assert Gates(ps + [p]) == Gates(ps) + [p.post];
    assert Mixers(ps + [p]) == Mixers(ps) + [p.comb];
    ConcatAppends(Outs(ps), p.out);
    ConcatAppends(Gates(ps), p.post);
    ConcatAppends(Mixers(ps), p.comb);
  }

  lemma {:induction false} PresFail(mixer: Mixer, states: seq<State>, t: nat)
    requires t <= |states| && Pres(mixer, states[..t]).None?
    ensures Pres(mixer, states).None?
    decreases |states| - t
  {
    if t < |states| {
      assert Init(states[..t + 1]) == states[..t];
      PresFail(mixer, states, t + 1);
    } else {
      assert states[..t] == states;
    }
  }

  lemma {:induction false} PresAt(mixer: Mixer, states: seq<State>, i: nat)
    requires Pres(mixer, states).Some? && i < |states|
    ensures mixer.pre(states[i]) == Some(Pres(mixer, states).value[i])
    decreases |states|
  {
    if i == |states| - 1 {
    } else {
      PresAt(mixer, Init(states), i);
    }
  }

  /** The first `t` records have been mixed, and their results stand in the three buffers. */
  ghost predicate MixedTo(mixer: Mixer, states: seq<State>, t: nat, batch: HcPre) {
    t <= |states| && Pres(mixer, states[..t]).Some? && Packs(batch, Pres(mixer, states[..t]).value)
  }

  lemma MixNext(mixer: Mixer, states: seq<State>, t: nat, batch: HcPre, one: Option<HcPre>)
    requires t < |states| && MixedTo(mixer, states, t, batch) && one == mixer.pre(states[t])
    ensures if one.None? then Pres(mixer, states).None?
            else MixedTo(mixer, states, t + 1, Joined(batch, one.value))
  {
    PresLast(mixer, states[..t], states[t]);
    assert states[..t + 1] == states[..t] + [states[t]];
    if one.None? {
      PresFail(mixer, states, t + 1);
    } else {
      PacksAppend(batch, Pres(mixer, states[..t]).value, one.value);
    }
  }

  /** The loop over the records of the buffer. */
  method MixRecords(mixer: Mixer, flat: seq<real>, d: nat, n: nat) returns (o: Option<HcPre>)
    requires d > 0 && n == |flat| / d
    ensures var ps := Pres(mixer, Records(flat, d, n)); if ps.None? then o.None? else o.Some? && Packs(o.value, ps.value)
  {
    ghost var states := Records(flat, d, n);
    var batch := HcPre([], [], []);
    for t := 0 to n
      invariant MixedTo(mixer, states, t, batch)
    {
      RecordFits(flat, d, t);
      var one := mixer.pre(flat[t * d..(t + 1) * d]);
      MixNext(mixer, states, t, batch, one);
      if one.None? {
        return None;
      }
      batch := Joined(batch, one.value);
    }
    assert states[..n] == states;
    o := Some(batch);
  }

  /** `hc_pre_from_states_batch`: the record size comes from the mixer's width, not from the embedding. */
  method HcPreBatch(mixer: Mixer, flat: seq<real>) returns (o: Option<HcPre>)
    ensures var d := N_HC * mixer.width;
            if flat == [] || d == 0 || |flat| % d != 0 then o.None?
            else
              var ps := Pres(mixer, Records(flat, d, |flat| / d));
              if ps.None? then o.None? else o.Some? && Packs(o.value, ps.value)
  {
    if |flat| == 0 || |flat| % N_HC != 0 {
      if |flat| > 0 && mixer.width > 0 {
        StreamsDivide(|flat|, mixer.width);
      }
      return None;
    }
    if mixer.width == 0 {
      return None;
    }
    var hcDim := mixer.width * N_HC;
    if |flat| % hcDim != 0 {
      return None;
    }
    o := MixRecords(mixer, flat, hcDim, |flat| / hcDim);
  }

  lemma StreamsDivide(len: nat, w: nat)
    requires w > 0 && len % N_HC != 0
    ensures len % (N_HC * w) != 0
  {
    assert len == N_HC * (w * (len / (N_HC * w))) + len % (N_HC * w);
  }

  lemma {:induction false} PostsFail(outs: seq<seq<real>>, states: seq<State>, pres: seq<HcPre>, t: nat)
    requires |outs| == |states| == |pres| && t <= |pres| && Posts(outs[..t], states[..t], pres[..t]).None?
    ensures Posts(outs, states, pres).None?
    decreases |pres| - t
  {
    if t < |pres| {
      PrefixInit(outs, t);
      PrefixInit(states, t);
      PrefixInit(pres, t);
      PostsFail(outs, states, pres, t + 1);
    } else {
      assert outs[..t] == outs && states[..t] == states && pres[..t] == pres;
    }
  }

  lemma PrefixInit<T>(s: seq<T>, t: nat)
    requires t < |s|
    ensures Init(s[..t + 1]) == s[..t] && Last(s[..t + 1]) == s[t]
  {
  }

  /** The four buffers of a post step hold these records. */
  ghost predicate PostBuffers(out: seq<real>, res: seq<real>, post: seq<real>, comb: seq<real>, nEmbd: nat,
                              outs: seq<seq<real>>, states: seq<State>, pres: seq<HcPre>)
  {
    && nEmbd > 0 && |outs| == |states| == |pres|
    && out == Concat(outs) && res == Concat(states) && post == Concat(Gates(pres)) && comb == Concat(Mixers(pres))
    && Sized(outs, nEmbd) && Sized(states, N_HC * nEmbd) && Sized(Gates(pres), N_HC) && Sized(Mixers(pres), N_HC * N_HC)
  }

  /** `hc_post_batch` */
  method HcPostBatch(out: seq<real>, res: seq<real>, post: seq<real>, comb: seq<real>, nEmbd: nat,
                     ghost outs: seq<seq<real>>, ghost states: seq<State>, ghost pres: seq<HcPre>)
    returns (o: Option<seq<real>>)
    requires PostBuffers(out, res, post, comb, nEmbd, outs, states, pres)
    ensures var m := Posts(outs, states, pres); if m.None? then o.None? else o == Some(Concat(m.value))
  {
    RecordsOfConcat(outs, nEmbd);
    ConcatLength(states, N_HC * nEmbd);
    ConcatLength(Gates(pres), N_HC);
    ConcatLength(Mixers(pres), N_HC * N_HC);
    if nEmbd == 0 || |out| % nEmbd != 0 {
      return None;
    }
    var n := |out| / nEmbd;
    var hcDim := N_HC * nEmbd;
    if |res| != n * hcDim || |post| != n * N_HC || |comb| != n * (N_HC * N_HC) {
      return None;
    }
    var acc := [];
    for t := 0 to n
      invariant Posts(outs[..t], states[..t], pres[..t]).Some?
      invariant acc == Concat(Posts(outs[..t], states[..t], pres[..t]).value)
    {
      RecordAt(outs, nEmbd, t);
      RecordAt(states, hcDim, t);
      RecordAt(Gates(pres), N_HC, t);
      RecordAt(Mixers(pres), N_HC * N_HC, t);
      var one := HcPostOne(out[t * nEmbd..(t + 1) * nEmbd], res[t * hcDim..(t + 1) * hcDim],
                           post[t * N_HC..(t + 1) * N_HC], comb[t * (N_HC * N_HC)..(t + 1) * (N_HC * N_HC)]);
      PrefixInit(outs, t);
      PrefixInit(states, t);
      PrefixInit(pres, t);
      if one.None? {
        PostsFail(outs, states, pres, t + 1);
        return None;
      }
      ConcatAppends(Posts(outs[..t], states[..t], pres[..t]).value, one.value);
      acc := acc + one.value;
    }
    assert outs[..n] == outs && states[..n] == states && pres[..n] == pres;
    o := Some(acc);
  }

  lemma {:induction false} PresSized(mixer: Mixer, states: seq<State>, nEmbd: nat)
    requires MixerSized(mixer, nEmbd) && Pres(mixer, states).Some?
    ensures var ps := Pres(mixer, states).value;
            Sized(Outs(ps), nEmbd) && Sized(Gates(ps), N_HC) && Sized(Mixers(ps), N_HC * N_HC)
  {
    var ps := Pres(mixer, states).value;
    forall i | 0 <= i < |ps|
      ensures |ps[i].out| == nEmbd && |ps[i].post| == N_HC && |ps[i].comb| == N_HC * N_HC
    {
      PresAt(mixer, states, i);
    }
  }

  lemma {:induction false} PostsSized(outs: seq<seq<real>>, states: seq<State>, pres: seq<HcPre>, d: nat)
    requires |outs| == |states| == |pres| && Posts(outs, states, pres).Some? && Sized(states, d)
    ensures Sized(Posts(outs, states, pres).value, d)
    decreases |states|
  {
    if states == [] {
    } else {
      PostsSized(Init(outs), Init(states), Init(pres), d);
    }
  }

  /** With any other width than the embedding's, the first record already has the wrong size. */
  lemma WrongWidthFails(mixer: Mixer, flat: seq<real>, nEmbd: nat)
    requires MixerSized(mixer, nEmbd) && mixer.width != nEmbd && |flat| > 0
    ensures var d := N_HC * mixer.width; d > 0 && |flat| % d == 0 ==> Pres(mixer, Records(flat, d, |flat| / d)).None?
  {
    var d := N_HC * mixer.width;
    if d > 0 && |flat| % d == 0 {
      var rs := Records(flat, d, |flat| / d);
      assert |flat| / d > 0;
      RecordFits(flat, d, 0);
      assert |rs[0]| == d;
      if Pres(mixer, rs).Some? {
        PresAt(mixer, rs, 0);
      }
    }
  }

  lemma OneRecord(batch: HcPre, pres: seq<HcPre>, nEmbd: nat, t: nat)
    requires Packs(batch, pres) && Sized(Outs(pres), nEmbd) && t < |pres|
    ensures 0 <= t * nEmbd <= (t + 1) * nEmbd <= |batch.out| && batch.out[t * nEmbd..(t + 1) * nEmbd] == pres[t].out
  {
    RecordAt(Outs(pres), nEmbd, t);
  }

  lemma {:induction false} PresAll(mixer: Mixer, states: seq<State>)
    requires forall i :: 0 <= i < |states| ==> mixer.pre(states[i]).Some?
    ensures Pres(mixer, states).Some?
    decreases |states|
  {
    if states == [] {
    } else {
      assert mixer.pre(states[|states| - 1]).Some?;
      PresAll(mixer, Init(states));
    }
  }

  /** All post steps succeed exactly when each does, and give the single results in order. */
  lemma {:induction false} PostsAt(outs: seq<seq<real>>, states: seq<State>, pres: seq<HcPre>)
    requires |outs| == |states| == |pres|
    ensures Posts(outs, states, pres).Some? <==> forall i :: 0 <= i < |states| ==> PostOf(outs, states, pres, i).Some?
    ensures var m := Posts(outs, states, pres);
            m.Some? ==> forall i :: 0 <= i < |states| ==> PostOf(outs, states, pres, i) == Some(m.value[i])
    decreases |states|
  {
    if states == [] {
    } else {
      var n := |states| - 1;
      PostsAt(Init(outs), Init(states), Init(pres));
      forall i | 0 <= i < n
        ensures PostOf(Init(outs), Init(states), Init(pres), i) == PostOf(outs, states, pres, i)
      {
      }
      assert PostOf(outs, states, pres, n) == HcPost(Last(outs), Last(states), Last(pres).post, Last(pres).comb);
    }
  }

  function PostOf(outs: seq<seq<real>>, states: seq<State>, pres: seq<HcPre>, i: nat): Option<State>
    requires |outs| == |states| == |pres| && i < |states|
  {
    HcPost(outs[i], states[i], pres[i].post, pres[i].comb)
  }
}
