/** The batch kernel: tokens routed, regrouped by expert, and run one expert after another. */
module RoutedMoeBatch {
  import opened Wrappers
  import opened Flat
  import opened RoutedMoe

  /** An expert's work on the token's own quantised row. */
  ghost function WorkOf(m: Layer, rows: seq<Row>): Work {
    (t: nat, e: nat, w: real) => if t < |rows| then m.expert(rows[t], e, w) else None
  }

  ghost predicate Works(work: Work, it: Item) {
    work(it.token, it.expert, it.weight).Some?
  }

  ghost predicate AllWork(work: Work, items: multiset<Item>) {
    forall it :: it in items ==> Works(work, it)
  }

  // ---------------------------------------------------------------- items

  lemma {:induction false} PickIsItem(e: nat, picks: seq<Pick>, k: nat)
    requires k < |picks|
    ensures Item(picks[k].token, e, picks[k].weight) in PickItems(e, picks)
    decreases |picks|
  {
    if k == |picks| - 1 {
    } else {
      PickIsItem(e, Init(picks), k);
    }
  }

  lemma {:induction false} GroupPickIsItem(groups: seq<Group>, i: nat, k: nat)
    requires i < |groups| && k < |groups[i].picks|
    ensures Item(groups[i].picks[k].token, groups[i].expert, groups[i].picks[k].weight) in GroupItems(groups)
    decreases |groups|
  {
    if i == 0 {
      PickIsItem(groups[0].expert, groups[0].picks, k);
    } else {
      GroupPickIsItem(groups[1..], i - 1, k);
    }
  }

  ghost predicate PicksWork(work: Work, e: nat, picks: seq<Pick>) {
    forall k :: 0 <= k < |picks| ==> work(picks[k].token, e, picks[k].weight).Some?
  }

  lemma {:induction false} PicksWorkItems(work: Work, e: nat, picks: seq<Pick>)
    requires PicksWork(work, e, picks)
    ensures AllWork(work, PickItems(e, picks))
    decreases |picks|
  {
    if picks == [] {
    } else {
      PicksWorkItems(work, e, Init(picks));
      assert work(Last(picks).token, e, Last(picks).weight).Some?;
    }
  }

  lemma {:induction false} GroupsWorkItems(work: Work, groups: seq<Group>)
    requires forall i :: 0 <= i < |groups| ==> PicksWork(work, groups[i].expert, groups[i].picks)
    ensures AllWork(work, GroupItems(groups))
    decreases |groups|
  {
    if groups == [] {
    } else {
      PicksWorkItems(work, groups[0].expert, groups[0].picks);
      GroupsWorkItems(work, groups[1..]);
    }
  }

  lemma {:induction false} ItemsOfToken(t: nat, choices: seq<Choice>)
    ensures forall it :: it in ItemsOf(t, choices) ==> it.token == t
    decreases |choices|
  {
    if choices == [] {
    } else {
      ItemsOfToken(t, Init(choices));
    }
  }

  lemma {:induction false} ItemTokens(choices: seq<seq<Choice>>)
    ensures forall it :: it in AllItems(choices) ==> it.token < |choices|
    decreases |choices|
  {
    if choices == [] {
    } else {
      ItemTokens(Init(choices));
      ItemsOfToken(|choices| - 1, Last(choices));
    }
  }

  /** A token's experts all succeed exactly when its items do. */
  lemma {:induction false} OutputsWork(m: Layer, work: Work, row: Row, t: nat, choices: seq<Choice>)
    requires forall e, w :: work(t, e, w) == m.expert(row, e, w)
    ensures Outputs(m, row, choices).Some? <==> AllWork(work, ItemsOf(t, choices))
    decreases |choices|
  {
    if choices == [] {
    } else {
      OutputsWork(m, work, row, t, Init(choices));
      var it := Item(t, Last(choices).expert, Last(choices).weight);
      assert it in ItemsOf(t, choices);
      assert work(t, it.expert, it.weight) == m.expert(row, it.expert, it.weight);
      assert Works(work, it) <==> m.expert(row, it.expert, it.weight).Some?;
    }
  }

  ghost predicate TokensWork(m: Layer, rows: seq<Row>, choices: seq<seq<Choice>>) {
    |choices| <= |rows| && forall t :: 0 <= t < |choices| ==> Outputs(m, rows[t], choices[t]).Some?
  }

  /** Every token succeeds exactly when every item of the batch does. */
  lemma {:induction false} BatchWorks(m: Layer, rows: seq<Row>, choices: seq<seq<Choice>>)
    requires |choices| <= |rows|
    ensures TokensWork(m, rows, choices) <==> AllWork(WorkOf(m, rows), AllItems(choices))
    decreases |choices|
  {
    if choices == [] {
    } else {
      var t, work := |choices| - 1, WorkOf(m, rows);
      BatchWorks(m, rows, Init(choices));
      OutputsWork(m, work, rows[t], t, choices[t]);
      assert TokensWork(m, rows, choices) <==> TokensWork(m, rows, Init(choices)) && Outputs(m, rows[t], choices[t]).Some?;
    }
  }

  /** The sum over a token's choices is the sum of its experts' outputs. */
  lemma {:induction false} ChoicesAreColumns(m: Layer, rows: seq<Row>, t: nat, choices: seq<Choice>, j: nat)
    requires m.Valid() && t < |rows| && j < m.downDim && Outputs(m, rows[t], choices).Some?
    requires Sized(Outputs(m, rows[t], choices).value, m.downDim)
    ensures ChoicesTotal(WorkOf(m, rows), t, choices, j) == Column(Outputs(m, rows[t], choices).value, j)
    decreases |choices|
  {
    if choices == [] {
    } else {
      OutputsSized(m, rows[t], Init(choices));
      ChoicesAreColumns(m, rows, t, Init(choices), j);
      assert Init(Outputs(m, rows[t], choices).value) == Outputs(m, rows[t], Init(choices)).value;
    }
  }

  // ---------------------------------------------------------------- the first loop

  ghost predicate Prepared(m: Layer, norms: seq<seq<real>>, tokens: seq<int>, rows: seq<Row>, choices: seq<seq<Choice>>)
    requires |norms| == |tokens|
  {
    |rows| == |choices| <= |tokens|
    && forall t :: 0 <= t < |rows| ==> Prepare(m, norms[t], tokens[t]) == Some((rows[t], choices[t]))
  }

  method PushChoices(groups: seq<Group>, t: nat, choices: seq<Choice>) returns (r: seq<Group>)
    ensures r == PushAll(groups, t, choices) && (ByExpert(groups) ==> ByExpert(r))
  {
    r := groups;
    for k := 0 to |choices|
      invariant r == PushAll(groups, t, choices[..k]) && (ByExpert(groups) ==> ByExpert(r))
    {
      assert Init(choices[..k + 1]) == choices[..k] && Last(choices[..k + 1]) == choices[k];
      r := Push(r, choices[k].expert, Pick(t, choices[k].weight));
    }
    assert choices[..|choices|] == choices;
  }

  method Regroup(m: Layer, norms: seq<seq<real>>, tokens: seq<int>)
    returns (o: Option<(seq<Row>, seq<Group>)>, ghost choices: seq<seq<Choice>>)
    requires |norms| == |tokens|
    ensures o.Some? ==> Prepared(m, norms, tokens, o.value.0, choices) && |choices| == |tokens|
    ensures o.Some? ==> o.value.1 == Regrouped(choices) && ByExpert(o.value.1)
    ensures o.None? ==> exists t :: 0 <= t < |tokens| && Prepare(m, norms[t], tokens[t]).None?
  {
    var rows := [];
    var groups := [];
    choices := [];
    for t := 0 to |tokens|
      invariant |rows| == t && Prepared(m, norms, tokens, rows, choices)
      invariant groups == Regrouped(choices) && ByExpert(groups)
    {
      var x := m.quantize(norms[t]);
      if x.None? {
        assert Prepare(m, norms[t], tokens[t]).None?;
        return None, choices;
      }
      var selected := m.select(norms[t], tokens[t]);
      if selected.None? {
        assert Prepare(m, norms[t], tokens[t]).None?;
        return None, choices;
      }
      rows := rows + [x.value];
      groups := PushChoices(groups, t, selected.value);
      choices := choices + [selected.value];
      assert Init(choices) == choices[..t];
    }
    o := Some((rows, groups));
  }

  // ---------------------------------------------------------------- the second loop

  ghost predicate HoldsTotals(work: Work, out: seq<seq<real>>, d: nat, groups: seq<Group>, e: nat, picks: seq<Pick>) {
    Sized(out, d)
    && forall t, j :: 0 <= t < |out| && 0 <= j < d ==>
         out[t][j] == GroupsTotal(work, groups, t, j) + PicksTotal(work, e, picks, t, j)
  }

  lemma AddPick(work: Work, out: seq<seq<real>>, d: nat, groups: seq<Group>, e: nat, picks: seq<Pick>, p: Pick, v: seq<real>)
    requires HoldsTotals(work, out, d, groups, e, picks) && p.token < |out| && |v| == d
    requires work(p.token, e, p.weight) == Some(v)
    ensures HoldsTotals(work, out[p.token := Plus(out[p.token], v)], d, groups, e, picks + [p])
  {
    var out' := out[p.token := Plus(out[p.token], v)];
    forall t, j | 0 <= t < |out| && 0 <= j < d
      ensures out'[t][j] == GroupsTotal(work, groups, t, j) + PicksTotal(work, e, picks + [p], t, j)
    {
      assert Init(picks + [p]) == picks;
      assert out[t][j] == GroupsTotal(work, groups, t, j) + PicksTotal(work, e, picks, t, j);
    }
  }

  lemma NextGroup(work: Work, out: seq<seq<real>>, d: nat, groups: seq<Group>, g: Group, e: nat)
    requires HoldsTotals(work, out, d, groups, g.expert, g.picks)
    ensures HoldsTotals(work, out, d, groups + [g], e, [])
  {
    forall t, j | 0 <= t < |out| && 0 <= j < d
      ensures out[t][j] == GroupsTotal(work, groups + [g], t, j) + PicksTotal(work, e, [], t, j)
    {
      assert Init(groups + [g]) == groups;
      assert out[t][j] == GroupsTotal(work, groups, t, j) + PicksTotal(work, g.expert, g.picks, t, j);
    }
  }

  /** The items of one expert, added to their tokens' outputs. */
  method RunGroup(m: Layer, rows: seq<Row>, g: Group, start: seq<seq<real>>, ghost done: seq<Group>) returns (o: Option<seq<seq<real>>>)
    requires m.Valid() && |start| == |rows| && forall k :: 0 <= k < |g.picks| ==> g.picks[k].token < |rows|
    requires HoldsTotals(WorkOf(m, rows), start, m.downDim, done, g.expert, [])
    ensures o.Some? <==> PicksWork(WorkOf(m, rows), g.expert, g.picks)
    ensures o.Some? ==> |o.value| == |rows| && HoldsTotals(WorkOf(m, rows), o.value, m.downDim, done, g.expert, g.picks)
  {
    var out := start;
    ghost var work := WorkOf(m, rows);
    for k := 0 to |g.picks|
      invariant |out| == |rows| && HoldsTotals(work, out, m.downDim, done, g.expert, g.picks[..k])
      invariant PicksWork(work, g.expert, g.picks[..k])
    {
      var p := g.picks[k];
      assert g.picks[..k + 1] == g.picks[..k] + [p];
      var pairOut := m.expert(rows[p.token], g.expert, p.weight);
      assert work(p.token, g.expert, p.weight) == pairOut;
      if pairOut.None? {
        return None;
      }
      AddPick(work, out, m.downDim, done, g.expert, g.picks[..k], p, pairOut.value);
      out := out[p.token := Plus(out[p.token], pairOut.value)];
    }
    assert g.picks[..|g.picks|] == g.picks;
    o := Some(out);
  }

  /** One turn of the loop over the groups. */
  method GroupTurn(m: Layer, rows: seq<Row>, groups: seq<Group>, i: nat, out: seq<seq<real>>, ghost work: Work)
    returns (next: Option<seq<seq<real>>>)
    requires m.Valid() && work == WorkOf(m, rows) && i < |groups| && |out| == |rows|
    requires forall it :: it in GroupItems(groups) ==> it.token < |rows|
    requires HoldsTotals(work, out, m.downDim, groups[..i], 0, [])
    ensures next.None? ==> !AllWork(work, GroupItems(groups))
    ensures next.Some? ==> PicksWork(work, groups[i].expert, groups[i].picks)
    ensures next.Some? ==> |next.value| == |rows| && HoldsTotals(work, next.value, m.downDim, groups[..i + 1], 0, [])
  {
    var g := groups[i];
    forall k | 0 <= k < |g.picks|
      ensures g.picks[k].token < |rows|
    {
      GroupPickIsItem(groups, i, k);
    }
    next := RunGroup(m, rows, g, out, groups[..i]);
    if next.None? {
      FailingItem(work, groups, i);
      return;
    }
    NextGroup(work, next.value, m.downDim, groups[..i], g, 0);
    assert groups[..i + 1] == groups[..i] + [g];
  }

  method RunGroups(m: Layer, rows: seq<Row>, groups: seq<Group>) returns (o: Option<seq<seq<real>>>)
    requires m.Valid() && forall it :: it in GroupItems(groups) ==> it.token < |rows|
    ensures o.Some? <==> AllWork(WorkOf(m, rows), GroupItems(groups))
    ensures o.Some? ==> |o.value| == |rows| && Sized(o.value, m.downDim)
    ensures o.Some? ==> forall t, j :: 0 <= t < |rows| && 0 <= j < m.downDim ==>
                          o.value[t][j] == GroupsTotal(WorkOf(m, rows), groups, t, j)
  {
    ghost var work := WorkOf(m, rows);
    var out := seq(|rows|, _ => Zeros(m.downDim));
    for i := 0 to |groups|
      invariant |out| == |rows| && HoldsTotals(work, out, m.downDim, groups[..i], 0, [])
      invariant forall l :: 0 <= l < i ==> PicksWork(work, groups[l].expert, groups[l].picks)
    {
      var next := GroupTurn(m, rows, groups, i, out, work);
      if next.None? {
        return None;
      }
      out := next.value;
    }
    GroupsWorkItems(work, groups);
    assert groups[..|groups|] == groups;
    o := Some(out);
  }

  lemma FailingItem(work: Work, groups: seq<Group>, i: nat)
    requires i < |groups| && !PicksWork(work, groups[i].expert, groups[i].picks)
    ensures !AllWork(work, GroupItems(groups))
  {
    var g := groups[i];
    var k :| 0 <= k < |g.picks| && work(g.picks[k].token, g.expert, g.picks[k].weight).None?;
    GroupPickIsItem(groups, i, k);
    assert !Works(work, Item(g.picks[k].token, g.expert, g.picks[k].weight));
  }

  // ---------------------------------------------------------------- the batch

  ghost predicate AllRouted(m: Layer, norms: seq<seq<real>>, tokens: seq<int>, outs: seq<seq<real>>) {
    |outs| == |tokens| == |norms| && forall t :: 0 <= t < |tokens| ==> IsRouted(m, norms[t], tokens[t], outs[t])
  }

  lemma RoutedFromTotals(m: Layer, norms: seq<seq<real>>, tokens: seq<int>, rows: seq<Row>, choices: seq<seq<Choice>>, outs: seq<seq<real>>)
    requires m.Valid() && |norms| == |tokens| == |rows| == |outs| && Prepared(m, norms, tokens, rows, choices)
    requires TokensWork(m, rows, choices) && Sized(outs, m.downDim)
    requires forall t, j :: 0 <= t < |rows| && 0 <= j < m.downDim ==> outs[t][j] == GroupsTotal(WorkOf(m, rows), Regrouped(choices), t, j)
    ensures AllRouted(m, norms, tokens, outs)
  {
    forall t | 0 <= t < |tokens|
      ensures IsRouted(m, norms[t], tokens[t], outs[t])
    {
      OutputsSized(m, rows[t], choices[t]);
      forall j | 0 <= j < m.downDim
        ensures outs[t][j] == Column(Outputs(m, rows[t], choices[t]).value, j)
      {
        RegroupingKeepsTotals(WorkOf(m, rows), choices, t, j);
        ChoicesAreColumns(m, rows, t, choices[t], j);
      }
    }
  }

  /**
   `routed_moe_batch`: fails on sizes that do not fit or when any single token fails, and otherwise
   gives every token, laid end to end, exactly what routing it alone gives.
   */
  method RouteBatch(m: Layer, normBatch: seq<real>, tokens: seq<int>, nEmbd: nat) returns (o: Option<seq<real>>)
    requires m.Valid()
    ensures var norms := Records(normBatch, nEmbd, |tokens|);
            o.Some? <==> nEmbd != 0 && tokens != [] && |normBatch| == |tokens| * nEmbd
                         && forall t :: 0 <= t < |tokens| ==> Succeeds(m, norms[t], tokens[t])
    ensures o.Some? ==> exists outs :: AllRouted(m, Records(normBatch, nEmbd, |tokens|), tokens, outs) && o.value == Concat(outs)
  {
    if nEmbd == 0 || |tokens| == 0 || |normBatch| != |tokens| * nEmbd {
      return None;
    }
    var norms := Records(normBatch, nEmbd, |tokens|);
    var prepared, choices := Regroup(m, norms, tokens);
    if prepared.None? {
      ghost var t :| 0 <= t < |tokens| && Prepare(m, norms[t], tokens[t]).None?;
      assert !Succeeds(m, norms[t], tokens[t]);
      return None;
    }
    var (rows, groups) := prepared.value;
    RegroupingKeepsItems(choices);
    ItemTokens(choices);
    BatchWorks(m, rows, choices);
    var outs := RunGroups(m, rows, groups);
    if outs.None? {
      ghost var t :| 0 <= t < |choices| && Outputs(m, rows[t], choices[t]).None?;
      assert !Succeeds(m, norms[t], tokens[t]);
      return None;
    }
    RoutedFromTotals(m, norms, tokens, rows, choices, outs.value);
    forall t | 0 <= t < |tokens|
      ensures Succeeds(m, norms[t], tokens[t])
    {
      assert Prepare(m, norms[t], tokens[t]) == Some((rows[t], choices[t]));
    }
    o := Some(Concat(outs.value));
  }
}
