/**
 One layer over a run of tokens, phase by phase. The batch code runs all mixers, then all attentions, then
 the rest. That is the same as running the tokens one after another through the layer, rows and states.
 */
module LayerPhases {
  import opened Wrappers
  import opened Flat
  import opened HyperConnection
  import opened HcBatch
  import opened FeedForward
  import opened Schedule

  function Attns(b: Block, rows: Rows, pres: seq<HcPre>, pos: nat): (o: Option<(Rows, seq<seq<real>>)>)
    ensures o.Some? ==> |o.value.1| == |pres|
    decreases |pres|
  {
    if pres == [] then Some((rows, []))
    else
      var (rows', outs) :- Attns(b, rows, Init(pres), pos);
      var a :- b.attn(rows', Last(pres).out, pos + |pres| - 1);
      Some((rows' + [a.row], outs + [a.out]))
  }

  /** The phases up to the post step: the rows, and every token's state behind attention. */
  function AttnPhase(b: Block, rows: Rows, states: seq<State>, pos: nat): (o: Option<(Rows, seq<State>)>)
    ensures o.Some? ==> |o.value.1| == |states|
  {
    var pres :- Pres(b.mixer, states);
    var (rows', outs) :- Attns(b, rows, pres, pos);
    var mixed :- Posts(outs, states, pres);
    Some((rows', mixed))
  }

  /** The feed-forward half, token by token, if the layer has one. */
  function Ffns(b: Block, states: seq<State>, tokens: seq<int>): (o: Option<seq<State>>)
    requires |states| == |tokens|
    ensures o.Some? ==> |o.value| == |states|
  {
    if b.ffn.Some? then Steps(b.ffn.value, states, tokens) else Some(states)
  }

  function Phases(b: Block, rows: Rows, states: seq<State>, tokens: seq<int>, pos: nat): Option<(Rows, seq<State>)>
    requires |states| == |tokens|
  {
    FfnPhase(b, AttnPhase(b, rows, states, pos), tokens)
  }

  function FfnPhase(b: Block, a: Option<(Rows, seq<State>)>, tokens: seq<int>): Option<(Rows, seq<State>)>
    requires a.Some? ==> |a.value.1| == |tokens|
  {
    var x :- a;
    var done :- Ffns(b, x.1, tokens);
    Some((x.0, done))
  }

  lemma AttnsLast(b: Block, rows: Rows, front: seq<HcPre>, p: HcPre, pos: nat)
    ensures var f := Attns(b, rows, front, pos);
            var whole := Attns(b, rows, front + [p], pos);
            if f.None? then whole.None?
            else
              var a := b.attn(f.value.0, p.out, pos + |front|);
              if a.None? then whole.None? else whole == Some((f.value.0 + [a.value.row], f.value.1 + [a.value.out]))
  {
    assert Init(front + [p]) == front;
  }

  lemma FfnsLast(b: Block, states: seq<State>, tokens: seq<int>, s: State, token: int)
    requires |states| == |tokens|
    ensures var f := Ffns(b, states, tokens);
            var r := Ffn(b, s, token);
            Ffns(b, states + [s], tokens + [token]) == if f.None? || r.None? then None else Some(f.value + [r.value])
  {
    assert Init(states + [s]) == states && Init(tokens + [token]) == tokens;
  }

  /** What the mixer, attention and post step of one token do. */
  function AttnCell(b: Block, rows: Rows, s: State, pos: nat): Option<(Rows, State)> {
    var p :- b.mixer.pre(s);
    var a :- b.attn(rows, p.out, pos);
    var m :- HcPost(a.out, s, p.post, p.comb);
    Some((rows + [a.row], m))
  }

  /** One more token behind a list of tokens. */
  function ThenAttn(b: Block, front: Option<(Rows, seq<State>)>, s: State, pos: nat): Option<(Rows, seq<State>)> {
    var f :- front;
    var c :- AttnCell(b, f.0, s, pos);
    Some((c.0, f.1 + [c.1]))
  }

  lemma AttnPhaseLast(b: Block, rows: Rows, states: seq<State>, pos: nat, s: State)
    ensures AttnPhase(b, rows, states + [s], pos) == ThenAttn(b, AttnPhase(b, rows, states, pos), s, pos + |states|)
  {
    PresLast(b.mixer, states, s);
    var fp, p := Pres(b.mixer, states), b.mixer.pre(s);
    if fp.Some? && p.Some? {
      AttnsLast(b, rows, fp.value, p.value, pos);
      var fa := Attns(b, rows, fp.value, pos);
      if fa.Some? {
        var a := b.attn(fa.value.0, p.value.out, pos + |states|);
        if a.Some? {
          PostsLast(fa.value.1, states, fp.value, a.value.out, s, p.value);
        }
      }
    }
  }

  /** The phases over all tokens, from the phases over all but the last and the last token's cell. */
  lemma FfnPhaseLast(b: Block, front: Option<(Rows, seq<State>)>, tokens: seq<int>, s: State, token: int, pos: nat)
    requires front.Some? ==> |front.value.1| == |tokens|
    ensures FfnPhase(b, ThenAttn(b, front, s, pos), tokens + [token])
         == ThenCell(b, FfnPhase(b, front, tokens), s, token, pos)
  {
    if front.Some? {
      var c := AttnCell(b, front.value.0, s, pos);
      if c.Some? {
        FfnsLast(b, front.value.1, tokens, c.value.1, token);
      }
    }
  }

  /** A layer's result so far, then one more cell. */
  function ThenCell(b: Block, front: Option<(Rows, seq<State>)>, s: State, token: int, pos: nat): Option<(Rows, seq<State>)> {
    if front.None? then None
    else
      var c := Cell(b, front.value.0, s, token, pos);
      if c.None? then None else Some((c.value.0, front.value.1 + [c.value.1]))
  }

  lemma PhasesPeel(b: Block, rows: Rows, states: seq<State>, tokens: seq<int>, pos: nat, front: Option<(Rows, seq<State>)>)
    requires |states| == |tokens| && tokens != [] && front == Phases(b, rows, Init(states), Init(tokens), pos)
    ensures Phases(b, rows, states, tokens, pos) == ThenCell(b, front, Last(states), Last(tokens), pos + |tokens| - 1)
  {
    var attended := AttnPhase(b, rows, Init(states), pos);
    assert Init(states) + [Last(states)] == states && Init(tokens) + [Last(tokens)] == tokens;
    AttnPhaseLast(b, rows, Init(states), pos, Last(states));
    FfnPhaseLast(b, attended, Init(tokens), Last(states), Last(tokens), pos + |tokens| - 1);
  }

  /** Working in phases is the same as running the layer's cells one after another. */
  lemma {:induction false} PhasesAreCells(b: Block, rows: Rows, states: seq<State>, tokens: seq<int>, pos: nat)
    requires |states| == |tokens|
    ensures Phases(b, rows, states, tokens, pos) == LayerOver(b, rows, states, tokens, pos)
    decreases |tokens|
  {
    if tokens == [] {
    } else {
      var front := LayerOver(b, rows, Init(states), Init(tokens), pos);
      PhasesAreCells(b, rows, Init(states), Init(tokens), pos);
      PhasesPeel(b, rows, states, tokens, pos, front);
      LayerOverStep(b, rows, states, tokens, pos, front);
    }
  }

  lemma LayerOverStep(b: Block, rows: Rows, states: seq<State>, tokens: seq<int>, pos: nat, front: Option<(Rows, seq<State>)>)
    requires |states| == |tokens| && tokens != [] && front == LayerOver(b, rows, Init(states), Init(tokens), pos)
    ensures LayerOver(b, rows, states, tokens, pos) == ThenCell(b, front, Last(states), Last(tokens), pos + |tokens| - 1)
  {
  }

  lemma {:induction false} AttnsSized(b: Block, rows: Rows, pres: seq<HcPre>, pos: nat, nEmbd: nat)
    requires WellSized(b, nEmbd) && Attns(b, rows, pres, pos).Some?
    ensures Sized(Attns(b, rows, pres, pos).value.1, nEmbd)
    decreases |pres|
  {
    if pres == [] {
    } else {
      AttnsSized(b, rows, Init(pres), pos, nEmbd);
    }
  }

  lemma {:induction false} AttnsGrow(b: Block, rows: Rows, pres: seq<HcPre>, pos: nat)
    requires Attns(b, rows, pres, pos).Some?
    ensures |Attns(b, rows, pres, pos).value.0| == |rows| + |pres|
    decreases |pres|
  {
    if pres == [] {
    } else {
      AttnsGrow(b, rows, Init(pres), pos);
    }
  }

  /** Attention leaves one more row for every token, and states of the size they had. */
  lemma AttnPhaseShape(b: Block, rows: Rows, states: seq<State>, pos: nat, d: nat)
    requires AttnPhase(b, rows, states, pos).Some? && Sized(states, d)
    ensures |AttnPhase(b, rows, states, pos).value.0| == |rows| + |states|
    ensures Sized(AttnPhase(b, rows, states, pos).value.1, d)
  {
    var pres := Pres(b.mixer, states).value;
    AttnsGrow(b, rows, pres, pos);
    PostsSized(Attns(b, rows, pres, pos).value.1, states, pres, d);
  }
}
