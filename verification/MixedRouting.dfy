/**
 A small net on which one token's failed routing changes the rows of the others. Two equal layers of width
 one. Attention keeps its input as the row and puts out zero; the router knows every token but token zero;
 the one expert puts out one, and the shared expert nothing.
 */
module MixedRouting {
  import opened Wrappers
  import opened Flat
  import opened HyperConnection
  import opened HcBatch
  import opened FeedForward
  import opened Schedule
  import opened LayerPhases
  import opened BatchSchedule
  import opened Prefill
  import opened PrefillDispatch
  import M = RoutedMoe

  const LOST: nat := 0

  function OneMixer(): Mixer {
    Mixer(1, (s: State) => if |s| == 4 then Some(HcPre([s[0]], [1.0, 1.0, 1.0, 1.0], M.Zeros(16))) else None)
  }

  function Router(): M.Layer {
    M.Layer(1, (x, t) => if t == LOST then None else Some([M.Choice(0, 1.0)]), x => Some([]), (x, e, w) => Some([1.0]))
  }

  function OneFfn(): FeedForward {
    FeedForward(OneMixer(), (x: seq<real>) => if |x| == 1 then Some(x) else None, Router(), x => Some([0.0]))
  }

  function OneBlock(): Block {
    Block(OneMixer(), (rows, x, pos) => if |x| == 1 then Some(Attended(x, [0.0])) else None, Some(OneFfn()))
  }

  function TwoLayers(): Net {
    Net(1, (t: int) => Some([1.0]), [OneBlock(), OneBlock()])
  }

  lemma OneMixerSized()
    ensures MixerSized(OneMixer(), 1)
  {
  }

  lemma OneFfnSized()
    ensures FfnSized(OneFfn(), 1)
  {
    assert Router().Valid();
    OneMixerSized();
  }

  lemma TwoLayersValid()
    ensures TwoLayers().Valid() && WidthsMatch(TwoLayers(), 2)
  {
    OneMixerSized();
    OneFfnSized();
    assert OneBlock() in TwoLayers().blocks;
  }

  /** A state whose four streams hold `x`. */
  function Full(x: real): State { [x, x, x, x] }

  ghost predicate AllFull(states: seq<State>, x: real) {
    forall i :: 0 <= i < |states| ==> states[i] == Full(x)
  }

  lemma FullPost(x: real, s: State)
    requires |s| == 4
    ensures HcPost([x], s, [1.0, 1.0, 1.0, 1.0], M.Zeros(16)) == Some(Full(x))
  {
    var r := HcPost([x], s, [1.0, 1.0, 1.0, 1.0], M.Zeros(16)).value;
    forall i | 0 <= i < 4
      ensures r[i] == x
    {
      assert r[i] == PostEntry([x], s, [1.0, 1.0, 1.0, 1.0], M.Zeros(16), 1, i, 0);
    }
    assert r == Full(x);
  }

  /** Attention leaves the streams' value as the row, and empty streams. */
  lemma {:induction false} AttentionRuns(rows: Rows, states: seq<State>, pos: nat)
    requires Sized(states, 4)
    ensures var a := AttnPhase(OneBlock(), rows, states, pos);
            && a.Some? && |a.value.0| == |rows| + |states| && AllFull(a.value.1, 0.0)
            && (states != [] ==> Last(a.value.0) == [Last(states)[0]])
    decreases |states|
  {
    if states == [] {
    } else {
      var s := Last(states);
      AttentionRuns(rows, Init(states), pos);
      assert states == Init(states) + [s];
      AttnPhaseLast(OneBlock(), rows, Init(states), pos, s);
      FullPost(0.0, s);
    }
  }

  lemma RouterSum(token: int)
    ensures M.RoutedSum(Router(), [0.0], token) == if token == LOST then None else Some([1.0])
  {
    if token != LOST {
      var choices := [M.Choice(0, 1.0)];
      assert Init(choices) == [];
      assert M.Outputs(Router(), [], []) == Some([]);
      assert [] + [[1.0]] == [[1.0]];
      assert M.Outputs(Router(), [], choices) == Some([[1.0]]);
      assert Init([[1.0]]) == [];
      assert M.Total(1, [[1.0]]) == [1.0];
    }
  }

  /** A step of a token whose streams are empty, with and without its routed part. */
  lemma StepRuns(token: int)
    ensures Step(OneFfn(), Full(0.0), token) == Some(Full(if token == LOST then 0.0 else 1.0))
    ensures Step(Muted(OneFfn()), Full(0.0), token) == Some(Full(0.0))
    ensures Routes(OneFfn(), Full(0.0), token) <==> token != LOST
  {
    RouterSum(token);
    MutedIsZero(OneFfn(), [0.0], token, 1);
    var x := if token == LOST then 0.0 else 1.0;
    assert RoutedOr(OneFfn(), [0.0], token, 1) == [x];
    assert M.Plus([0.0], [x]) == [x] && M.Plus([0.0], M.Zeros(1)) == [0.0];
    FullPost(x, Full(0.0));
    FullPost(0.0, Full(0.0));
  }

  lemma StepsRun(f: FeedForward, states: seq<State>, tokens: seq<int>)
    requires |states| == |tokens| > 0 && AllFull(states, 0.0) && (f == OneFfn() || f == Muted(OneFfn()))
    ensures var r := Steps(f, states, tokens);
            r.Some? && Sized(r.value, 4)
            && Last(r.value) == Full(if f == OneFfn() && Last(tokens) != LOST then 1.0 else 0.0)
  {
    forall i | 0 <= i < |states|
      ensures Step(f, states[i], tokens[i]) == Some(Full(if f == OneFfn() && tokens[i] != LOST then 1.0 else 0.0))
    {
      StepRuns(tokens[i]);
      MutedIsOther();
    }
    StepsAt(f, states, tokens);
    var n := |states| - 1;
    assert Step(f, states[n], tokens[n]) == Some(Steps(f, states, tokens).value[n]);
    forall i | 0 <= i < |states|
      ensures |Steps(f, states, tokens).value[i]| == 4
    {
      assert Step(f, states[i], tokens[i]) == Some(Steps(f, states, tokens).value[i]);
    }
  }

  lemma MutedIsOther()
    ensures Muted(OneFfn()) != OneFfn()
  {
    StepRuns(1);
    assert Full(0.0)[0] != Full(1.0)[0];
  }

  /** A layer in terms of what its attention gives. */
  lemma LayerIs(rows: Rows, states: seq<State>, tokens: seq<int>, pos: nat, rows': Rows, mixed: seq<State>)
    requires |states| == |tokens| && AttnPhase(OneBlock(), rows, states, pos) == Some((rows', mixed))
    ensures var l, steps := LayerOver(OneBlock(), rows, states, tokens, pos), Steps(OneFfn(), mixed, tokens);
            l == if steps.None? then None else Some((rows', steps.value))
    ensures var b, steps := BatchLayer(OneBlock(), rows, states, tokens, pos), BatchSteps(OneFfn(), mixed, tokens);
            b == if steps.None? then None else Some((rows', steps.value))
  {
    PhasesAreCells(OneBlock(), rows, states, tokens, pos);
  }

  /** The first layer leaves a last token that routes with full streams, muted with empty ones. */
  lemma FirstLayer(rows: Rows, states: seq<State>, tokens: seq<int>, pos: nat)
    requires |states| == |tokens| > 0 && Sized(states, 4) && tokens[0] == LOST && Last(tokens) != LOST
    ensures var l, b := LayerOver(OneBlock(), rows, states, tokens, pos), BatchLayer(OneBlock(), rows, states, tokens, pos);
            && l.Some? && Sized(l.value.1, 4) && Last(l.value.1) == Full(1.0)
            && b.Some? && Sized(b.value.1, 4) && Last(b.value.1) == Full(0.0)
  {
    AttentionRuns(rows, states, pos);
    var rows', mixed := AttnPhase(OneBlock(), rows, states, pos).value.0, AttnPhase(OneBlock(), rows, states, pos).value.1;
    LayerIs(rows, states, tokens, pos, rows', mixed);
    StepRuns(tokens[0]);
    assert !Routes(OneFfn(), mixed[0], tokens[0]);
    MutedIsOther();
    StepsRun(OneFfn(), mixed, tokens);
    StepsRun(Muted(OneFfn()), mixed, tokens);
  }

  /** The second layer keeps the last token's streams as its last row. */
  lemma SecondLayer(rows: Rows, states: seq<State>, tokens: seq<int>, pos: nat)
    requires |states| == |tokens| > 0 && Sized(states, 4)
    ensures var l, b := LayerOver(OneBlock(), rows, states, tokens, pos), BatchLayer(OneBlock(), rows, states, tokens, pos);
            && l.Some? && l.value.0 != [] && Last(l.value.0) == [Last(states)[0]]
            && b.Some? && b.value.0 != [] && Last(b.value.0) == [Last(states)[0]]
  {
    AttentionRuns(rows, states, pos);
    var rows', mixed := AttnPhase(OneBlock(), rows, states, pos).value.0, AttnPhase(OneBlock(), rows, states, pos).value.1;
    LayerIs(rows, states, tokens, pos, rows', mixed);
    StepsRun(OneFfn(), mixed, tokens);
    StepsRun(Muted(OneFfn()), mixed, tokens);
  }

  lemma {:induction false} EmbedsRun(tokens: seq<int>)
    ensures var e := Embeds(TwoLayers(), tokens); e.Some? && Sized(e.value, 4)
  {
    if tokens == [] {
    } else {
      EmbedsRun(Init(tokens));
    }
  }

  lemma TwoLayerMajor(kv: seq<Rows>, states: seq<State>, tokens: seq<int>, pos: nat, next: seq<State>)
    requires |kv| == 2 && |states| == |tokens| == |next|
    requires LayerOver(OneBlock(), kv[0], states, tokens, pos).Some? && next == LayerOver(OneBlock(), kv[0], states, tokens, pos).value.1
    requires LayerOver(OneBlock(), kv[1], next, tokens, pos).Some?
    ensures var l := LayerMajor(TwoLayers().blocks, kv, states, tokens, pos);
            l.Some? && l.value.0[1] == LayerOver(OneBlock(), kv[1], next, tokens, pos).value.0
  {
    var bs := TwoLayers().blocks;
    assert bs[1..] == [OneBlock()] && kv[1..][0] == kv[1];
    assert bs[1..][1..] == [] && kv[1..][1..] == [];
  }

  lemma TwoBatchMajor(kv: seq<Rows>, states: seq<State>, tokens: seq<int>, pos: nat, next: seq<State>)
    requires |kv| == 2 && |states| == |tokens| == |next|
    requires BatchLayer(OneBlock(), kv[0], states, tokens, pos).Some? && next == BatchLayer(OneBlock(), kv[0], states, tokens, pos).value.1
    requires BatchLayer(OneBlock(), kv[1], next, tokens, pos).Some?
    ensures var l := BatchMajor(TwoLayers().blocks, kv, states, tokens, pos);
            l.Some? && l.value.0[1] == BatchLayer(OneBlock(), kv[1], next, tokens, pos).value.0
  {
    var bs := TwoLayers().blocks;
    assert bs[1..] == [OneBlock()] && kv[1..][0] == kv[1];
    assert bs[1..][1..] == [] && kv[1..][1..] == [];
  }

  /**
   An input that fails: the first token cannot be routed and the last one can. The token loop gets
   through, every mixer fits, and the batch leaves other rows.
   */
  lemma OneLostTokenChangesRows(kv: seq<Rows>, tokens: seq<int>, pos: nat)
    requires |kv| == 2 && |tokens| >= 256 && tokens[0] == LOST && Last(tokens) != LOST
    ensures TwoLayers().Valid() && Batched(TwoLayers(), tokens) && Outcome(TwoLayers(), kv, tokens, pos).Some?
    ensures !SameRows(TwoLayers(), kv, tokens, pos)
  {
    var net := TwoLayers();
    TwoLayersValid();
    EmbedsRun(tokens);
    var states := Embeds(net, tokens).value;
    SchedulesAgree(net.blocks, kv, states, tokens, pos);
    FirstLayer(kv[0], states, tokens, pos);
    var l, b := LayerOver(OneBlock(), kv[0], states, tokens, pos).value.1, BatchLayer(OneBlock(), kv[0], states, tokens, pos).value.1;
    SecondLayer(kv[1], l, tokens, pos);
    SecondLayer(kv[1], b, tokens, pos);
    TwoLayerMajor(kv, states, tokens, pos, l);
    TwoBatchMajor(kv, states, tokens, pos, b);
    assert Last(LayerOver(OneBlock(), kv[1], l, tokens, pos).value.0)[0] == 1.0;
    assert Last(BatchLayer(OneBlock(), kv[1], b, tokens, pos).value.0)[0] == 0.0;
  }
}
