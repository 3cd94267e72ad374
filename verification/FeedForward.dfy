/** The feed-forward half of a layer, one token at a time and over a batch. */
module FeedForward {
  // The batch form mixes, normalises, routes and adds up the whole batch at once. When routing fails for
  // any token it drops the routed part of every token; the single form drops only the failing token's.

  import opened Wrappers
  import opened Flat
  import opened HyperConnection
  import opened HcBatch
  import M = RoutedMoe

  /** Its own mixer, a norm, routed experts, and the shared expert; `None` is their failure. */
  datatype FeedForward = FeedForward(
    mixer: Mixer,
    norm: seq<real> -> Option<seq<real>>,
    routed: M.Layer,
    shared: seq<real> -> Option<seq<real>>)

  /** The kernels take and return buffers of the model's sizes. */
  ghost predicate FfnSized(f: FeedForward, nEmbd: nat) {
    && MixerSized(f.mixer, nEmbd) && f.routed.Valid() && f.routed.downDim == nEmbd
    && (forall x :: f.norm(x).Some? ==> |f.norm(x).value| == nEmbd)
    && (forall x :: f.shared(x).Some? ==> |f.shared(x).value| == nEmbd)
  }

  // ---------------------------------------------------------------- one token

  /** The routed part of a token: zeros if routing it fails. */
  function RoutedOr(f: FeedForward, norm: seq<real>, token: int, n: nat): seq<real> {
    var r := M.RoutedSum(f.routed, norm, token);
    if r.Some? then r.value else M.Zeros(n)
  }

  function Sum(shared: seq<real>, routed: seq<real>): Option<seq<real>> {
    if |routed| != |shared| then None else Some(M.Plus(shared, routed))
  }

  function BlockOut(f: FeedForward, hidden: seq<real>, token: int): Option<seq<real>> {
    var norm :- f.norm(hidden);
    var shared :- f.shared(norm);
    Sum(shared, RoutedOr(f, norm, token, |hidden|))
  }

  /** A token's state after the feed-forward half. */
  function Step(f: FeedForward, s: State, token: int): (o: Option<State>)
    ensures o.Some? ==> |o.value| == |s|
  {
    var p :- f.mixer.pre(s);
    var out :- BlockOut(f, p.out, token);
    HcPost(out, s, p.post, p.comb)
  }

  /** `ffn_block_output` */
  method FfnBlockOutput(f: FeedForward, hidden: seq<real>, token: int) returns (o: Option<seq<real>>)
    ensures o == BlockOut(f, hidden, token)
    ensures o.Some? ==> f.norm(hidden).Some? && f.shared(f.norm(hidden).value).Some?
    ensures o.Some? ==>
              var norm := f.norm(hidden).value;
              var shared, routed := f.shared(norm).value, M.RoutedSum(f.routed, norm, token);
              && |o.value| == |shared| && (routed.Some? ==> |routed.value| == |shared|)
              && forall j :: 0 <= j < |shared| ==> o.value[j] == shared[j] + if routed.Some? then routed.value[j] else 0.0
  {
    var norm := f.norm(hidden);
    if norm.None? {
      return None;
    }
    var routed := M.RouteOne(f.routed, norm.value, token);
    var kept := if routed.Some? then routed.value else M.Zeros(|hidden|);
    var shared := f.shared(norm.value);
    if shared.None? || |kept| != |shared.value| {
      return None;
    }
    o := Some(M.Plus(shared.value, kept));
  }

  /** The feed-forward half of the token loop. */
  method FfnStep(f: FeedForward, s: State, token: int) returns (o: Option<State>)
    ensures o == Step(f, s, token)
  {
    var p := f.mixer.pre(s);
    if p.None? {
      return None;
    }
    var out := FfnBlockOutput(f, p.value.out, token);
    if out.None? {
      return None;
    }
    o := HcPostOne(out.value, s, p.value.post, p.value.comb);
  }

  /** A step is the mixer, the block on its output, and the post step on the state itself. */
  lemma StepIs(f: FeedForward, s: State, token: int, next: State)
    ensures Step(f, s, token) == Some(next) <==>
            && f.mixer.pre(s).Some? && BlockOut(f, f.mixer.pre(s).value.out, token).Some?
            && var p := f.mixer.pre(s).value;
               HcPost(BlockOut(f, p.out, token).value, s, p.post, p.comb) == Some(next)
  {
  }

  // ---------------------------------------------------------------- all tokens

  /** `step` at each state and token, one after another. */
  function Each(step: (State, int) -> Option<State>, states: seq<State>, tokens: seq<int>): (o: Option<seq<State>>)
    requires |states| == |tokens|
    ensures o.Some? ==> |o.value| == |states|
    decreases |states|
  {
    if states == [] then Some([])
    else
      var front :- Each(step, Init(states), Init(tokens));
      var s :- step(Last(states), Last(tokens));
      Some(front + [s])
  }

  /** All steps succeed exactly when each does, and give the single results in order. */
  lemma {:induction false} EachAt(step: (State, int) -> Option<State>, states: seq<State>, tokens: seq<int>)
    requires |states| == |tokens|
    ensures var r := Each(step, states, tokens);
            && (r.Some? <==> forall i :: 0 <= i < |states| ==> step(states[i], tokens[i]).Some?)
            && (r.Some? ==> forall i :: 0 <= i < |states| ==> step(states[i], tokens[i]) == Some(r.value[i]))
    decreases |states|
  {
    if states == [] {
    } else {
      EachAt(step, Init(states), Init(tokens));
      var n := |states| - 1;
      assert step(states[n], tokens[n]) == step(Last(states), Last(tokens));
    }
  }

  /** The tokens' steps, one after another. */
  function Steps(f: FeedForward, states: seq<State>, tokens: seq<int>): (o: Option<seq<State>>)
    requires |states| == |tokens|
    ensures o.Some? ==> |o.value| == |states|
  {
    Each((s, token) => Step(f, s, token), states, tokens)
  }

  lemma StepsAt(f: FeedForward, states: seq<State>, tokens: seq<int>)
    requires |states| == |tokens|
    ensures Steps(f, states, tokens).Some? <==> forall i :: 0 <= i < |states| ==> Step(f, states[i], tokens[i]).Some?
    ensures var r := Steps(f, states, tokens);
            r.Some? ==> forall i :: 0 <= i < |states| ==> Step(f, states[i], tokens[i]) == Some(r.value[i])
  {
    var step := (s, token) => Step(f, s, token);
    EachAt(step, states, tokens);
    assert forall i :: 0 <= i < |states| ==> step(states[i], tokens[i]) == Step(f, states[i], tokens[i]);
  }

  lemma StepKeepsSize(f: FeedForward, s: State, token: int)
    requires Step(f, s, token).Some?
    ensures |Step(f, s, token).value| == |s|
  {
  }

  lemma StepsSized(f: FeedForward, states: seq<State>, tokens: seq<int>, d: nat)
    requires |states| == |tokens| && Steps(f, states, tokens).Some? && Sized(states, d)
    ensures Sized(Steps(f, states, tokens).value, d)
  {
    StepsAt(f, states, tokens);
    var r := Steps(f, states, tokens).value;
    forall i | 0 <= i < |r|
      ensures |r[i]| == d
    {
      StepKeepsSize(f, states[i], tokens[i]);
    }
  }

  // ---------------------------------------------------------------- what the batch computes

  /** Routing this token succeeds. */
  predicate Routes(f: FeedForward, s: State, token: int) {
    var p := f.mixer.pre(s);
    p.Some? && f.norm(p.value.out).Some? && M.Succeeds(f.routed, f.norm(p.value.out).value, token)
  }

  ghost predicate EveryoneRoutes(f: FeedForward, states: seq<State>, tokens: seq<int>)
    requires |states| == |tokens|
  {
    forall i :: 0 <= i < |states| ==> Routes(f, states[i], tokens[i])
  }

  /** The same half with a router that always fails. */
  function Muted(f: FeedForward): FeedForward {
    f.(routed := f.routed.(select := (x, token) => None))
  }

  /** The half the batch form amounts to: as it is if routing succeeds for all tokens, else muted. */
  ghost function Heard(f: FeedForward, states: seq<State>, tokens: seq<int>): FeedForward
    requires |states| == |tokens|
  {
    if EveryoneRoutes(f, states, tokens) then f else Muted(f)
  }

  ghost function BatchSteps(f: FeedForward, states: seq<State>, tokens: seq<int>): (o: Option<seq<State>>)
    requires |states| == |tokens|
    ensures o.Some? ==> |o.value| == |states|
  {
    Steps(Heard(f, states, tokens), states, tokens)
  }

  lemma MutedIsZero(f: FeedForward, norm: seq<real>, token: int, n: nat)
    ensures RoutedOr(Muted(f), norm, token, n) == M.Zeros(n)
  {
    assert M.Prepare(Muted(f).routed, norm, token).None?;
  }

  // ---------------------------------------------------------------- when the two forms agree

  /** Dropping the routed part of this token changes nothing: routing it fails, or adds up to zeros. */
  predicate Silent(f: FeedForward, s: State, token: int) {
    Routes(f, s, token) ==>
      var norm := f.norm(f.mixer.pre(s).value.out).value;
      M.RoutedSum(f.routed, norm, token) == Some(M.Zeros(f.routed.downDim))
  }

  /** Routing succeeds for every token, or is silent for every token. */
  ghost predicate Alike(f: FeedForward, states: seq<State>, tokens: seq<int>)
    requires |states| == |tokens|
  {
    EveryoneRoutes(f, states, tokens) || forall i :: 0 <= i < |states| ==> Silent(f, states[i], tokens[i])
  }

  /** With positive gates a post step shows every difference of the block's output. */
  lemma PostShows(a: seq<real>, b: seq<real>, s: State, post: seq<real>, comb: seq<real>)
    requires PostFits(a, s, post, comb) && PostFits(b, s, post, comb) && post[0] > 0.0
    ensures HcPost(a, s, post, comb) == HcPost(b, s, post, comb) ==> a == b
  {
    if HcPost(a, s, post, comb) == HcPost(b, s, post, comb) {
      var n := |s| / N_HC;
      forall d | 0 <= d < n
        ensures a[d] == b[d]
      {
        StreamIndex(n, 0, d);
        assert HcPost(a, s, post, comb).value[d] == PostEntry(a, s, post, comb, n, 0, d);
        assert HcPost(b, s, post, comb).value[d] == PostEntry(b, s, post, comb, n, 0, d);
        SameFactor(a[d], b[d], post[0]);
      }
    }
  }

  lemma SameFactor(a: real, b: real, g: real)
    requires g > 0.0
    ensures a * g == b * g ==> a == b
  {
    assert (a - b) * g == a * g - b * g;
  }

  lemma PlusShows(shared: seq<real>, routed: seq<real>)
    requires |routed| == |shared|
    ensures M.Plus(shared, routed) == M.Plus(shared, M.Zeros(|shared|)) <==> routed == M.Zeros(|shared|)
  {
    if M.Plus(shared, routed) == M.Plus(shared, M.Zeros(|shared|)) {
      forall j | 0 <= j < |shared|
        ensures routed[j] == 0.0
      {
        assert M.Plus(shared, routed)[j] == M.Plus(shared, M.Zeros(|shared|))[j];
      }
    }
  }

  /** A token's muted step is its step exactly when its routed part is silent. */
  lemma MutedStep(f: FeedForward, nEmbd: nat, s: State, token: int)
    requires FfnSized(f, nEmbd) && nEmbd > 0 && Step(f, s, token).Some?
    ensures Step(Muted(f), s, token) == Step(f, s, token) <==> Silent(f, s, token)
  {
    var p := f.mixer.pre(s).value;
    var norm := f.norm(p.out).value;
    var shared := f.shared(norm).value;
    var routed := RoutedOr(f, norm, token, |p.out|);
    MutedIsZero(f, norm, token, |p.out|);
    PlusShows(shared, routed);
    var a, b := M.Plus(shared, routed), M.Plus(shared, M.Zeros(nEmbd));
    PostShows(b, a, s, p.post, p.comb);
    assert Step(f, s, token) == HcPost(a, s, p.post, p.comb);
    assert Step(Muted(f), s, token) == HcPost(b, s, p.post, p.comb);
  }

  /**
   Where the token loop succeeds, the batch gives the same states exactly when routing succeeds for
   every token, or is silent for every token.
   */
  lemma BatchAgrees(f: FeedForward, nEmbd: nat, states: seq<State>, tokens: seq<int>)
    requires FfnSized(f, nEmbd) && nEmbd > 0 && |states| == |tokens| && Steps(f, states, tokens).Some?
    ensures BatchSteps(f, states, tokens) == Steps(f, states, tokens) <==> Alike(f, states, tokens)
  {
    var g := Muted(f);
    StepsAt(f, states, tokens);
    StepsAt(g, states, tokens);
    forall i | 0 <= i < |states|
      ensures Step(g, states[i], tokens[i]) == Step(f, states[i], tokens[i]) <==> Silent(f, states[i], tokens[i])
    {
      MutedStep(f, nEmbd, states[i], tokens[i]);
    }
    if !EveryoneRoutes(f, states, tokens) {
      SameLists(f, g, states, tokens);
    }
  }

  lemma SameLists(f: FeedForward, g: FeedForward, states: seq<State>, tokens: seq<int>)
    requires |states| == |tokens| && Steps(f, states, tokens).Some?
    ensures Steps(g, states, tokens) == Steps(f, states, tokens)
       <==> forall i :: 0 <= i < |states| ==> Step(g, states[i], tokens[i]) == Step(f, states[i], tokens[i])
  {
    StepsAt(f, states, tokens);
    StepsAt(g, states, tokens);
    var a, b := Steps(f, states, tokens), Steps(g, states, tokens);
    if forall i :: 0 <= i < |states| ==> Step(g, states[i], tokens[i]) == Step(f, states[i], tokens[i]) {
      forall i | 0 <= i < |states|
        ensures Step(g, states[i], tokens[i]).Some? && a.value[i] == Step(g, states[i], tokens[i]).value
      {
        assert Step(f, states[i], tokens[i]) == Some(a.value[i]);
      }
      assert b.Some?;
      assert a.value == b.value;
    }
  }
}
