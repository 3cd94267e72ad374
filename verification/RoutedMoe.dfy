/** Routed experts: one token at a time, and a batch regrouped by expert. */
module RoutedMoe {
  import opened Wrappers
  import opened Flat
  import opened Reals
  import Q8K

  /** A token's activations, quantised. */
  type Row = seq<Q8K.Block>

  /** A selected expert and its weight. */
  datatype Choice = Choice(expert: nat, weight: real)

  /**
   A layer. Routing, quantising and the output of one expert for one quantised input are left open;
   `None` is their failure. An expert's output has `downDim` entries.
   */
  datatype Layer = Layer(
    downDim: nat,
    select: (seq<real>, int) -> Option<seq<Choice>>,
    quantize: seq<real> -> Option<Row>,
    expert: (Row, nat, real) -> Option<seq<real>>)
  {
    ghost predicate Valid() {
      forall x, e, w :: expert(x, e, w).Some? ==> |expert(x, e, w).value| == downDim
    }
  }

  // ---------------------------------------------------------------- vectors

  function Zeros(d: nat): (z: seq<real>)
    ensures |z| == d && forall j :: 0 <= j < d ==> z[j] == 0.0
  {
    seq(d, _ => 0.0)
  }

  function Plus(a: seq<real>, b: seq<real>): (s: seq<real>)
    requires |a| == |b|
    ensures |s| == |a| && forall j :: 0 <= j < |a| ==> s[j] == a[j] + b[j]
  {
    seq(|a|, j requires 0 <= j < |a| => a[j] + b[j])
  }

  // ---------------------------------------------------------------- one token

  /** The outputs of the chosen experts; all must succeed. */
  function Outputs(m: Layer, x: Row, choices: seq<Choice>): (o: Option<seq<seq<real>>>)
    ensures o.Some? ==> |o.value| == |choices|
  {
    if choices == [] then Some([])
    else
      var front :- Outputs(m, x, Init(choices));
      var out :- m.expert(x, Last(choices).expert, Last(choices).weight);
      Some(front + [out])
  }

  /** Sum of column `j` over the first `n` outputs. */
  function Column(outs: seq<seq<real>>, j: nat): real
    requires forall i :: 0 <= i < |outs| ==> j < |outs[i]|
  {
    if outs == [] then 0.0 else Column(Init(outs), j) + Last(outs)[j]
  }

  ghost predicate IsTokenOutput(m: Layer, x: Row, choices: seq<Choice>, out: seq<real>) {
    var outs := Outputs(m, x, choices);
    outs.Some? && |out| == m.downDim && Sized(outs.value, m.downDim)
    && forall j :: 0 <= j < m.downDim ==> out[j] == Column(outs.value, j)
  }

  lemma {:induction false} OutputsSized(m: Layer, x: Row, choices: seq<Choice>)
    requires m.Valid() && Outputs(m, x, choices).Some?
    ensures Sized(Outputs(m, x, choices).value, m.downDim)
    decreases |choices|
  {
    if choices == [] {
    } else {
      OutputsSized(m, x, Init(choices));
    }
  }

  lemma {:induction false} OutputsFail(m: Layer, x: Row, choices: seq<Choice>, k: nat)
    requires k <= |choices| && Outputs(m, x, choices[..k]).None?
    ensures Outputs(m, x, choices).None?
    decreases |choices| - k
  {
    if k < |choices| {
      assert Init(choices[..k + 1]) == choices[..k];
      OutputsFail(m, x, choices, k + 1);
    } else {
      assert choices[..k] == choices;
    }
  }

  method ExpertOutputs(m: Layer, x: Row, choices: seq<Choice>) returns (o: Option<seq<seq<real>>>)
    ensures o == Outputs(m, x, choices)
  {
    var pairOut := [];
    for k := 0 to |choices|
      invariant Outputs(m, x, choices[..k]) == Some(pairOut)
    {
      assert Init(choices[..k + 1]) == choices[..k] && Last(choices[..k + 1]) == choices[k];
      var out := m.expert(x, choices[k].expert, choices[k].weight);
      if out.None? {
        OutputsFail(m, x, choices, k + 1);
        return None;
      }
      pairOut := pairOut + [out.value];
    }
    assert choices[..|choices|] == choices;
    o := Some(pairOut);
  }

  /** `x += y`, entry by entry as far as both go. */
  function Added(a: seq<real>, b: seq<real>): (s: seq<real>)
    ensures |s| == |a|
  {
    seq(|a|, j requires 0 <= j < |a| => if j < |b| then a[j] + b[j] else a[j])
  }

  /** The outputs added to zeros, one after another. */
  function Total(d: nat, outs: seq<seq<real>>): (s: seq<real>)
    ensures |s| == d
  {
    if outs == [] then Zeros(d) else Added(Total(d, Init(outs)), Last(outs))
  }

  lemma {:induction false} TotalColumns(d: nat, outs: seq<seq<real>>, j: nat)
    requires Sized(outs, d) && j < d
    ensures Total(d, outs)[j] == Column(outs, j)
  {
    if outs == [] {
    } else {
      TotalColumns(d, Init(outs), j);
      assert |Last(outs)| == d;
    }
  }

  method SumOutputs(outs: seq<seq<real>>, d: nat) returns (sum: seq<real>)
    ensures sum == Total(d, outs)
  {
    sum := Zeros(d);
    for k := 0 to |outs|
      invariant sum == Total(d, outs[..k])
    {
      assert Init(outs[..k + 1]) == outs[..k] && Last(outs[..k + 1]) == outs[k];
      sum := Added(sum, outs[k]);
    }
    assert outs[..|outs|] == outs;
  }

  /** The token's choices and quantised input, if routing and quantising succeed. */
  function Prepare(m: Layer, norm: seq<real>, token: int): Option<(Row, seq<Choice>)> {
    var choices :- m.select(norm, token);
    var x :- m.quantize(norm);
    Some((x, choices))
  }

  predicate Succeeds(m: Layer, norm: seq<real>, token: int) {
    var p := Prepare(m, norm, token);
    p.Some? && Outputs(m, p.value.0, p.value.1).Some?
  }

  ghost predicate IsRouted(m: Layer, norm: seq<real>, token: int, out: seq<real>) {
    var p := Prepare(m, norm, token);
    p.Some? && IsTokenOutput(m, p.value.0, p.value.1, out)
  }

  /** What routing one token gives. */
  function RoutedSum(m: Layer, norm: seq<real>, token: int): (o: Option<seq<real>>)
    ensures o.Some? <==> Succeeds(m, norm, token)
    ensures o.Some? ==> |o.value| == m.downDim
  {
    var p :- Prepare(m, norm, token);
    var outs :- Outputs(m, p.0, p.1);
    Some(Total(m.downDim, outs))
  }

  /** A routed output is the routed sum, and nothing else is. */
  lemma RoutedIsSum(m: Layer, norm: seq<real>, token: int, out: seq<real>)
    requires IsRouted(m, norm, token, out)
    ensures RoutedSum(m, norm, token) == Some(out)
  {
    var p := Prepare(m, norm, token).value;
    var outs := Outputs(m, p.0, p.1).value;
    forall j | 0 <= j < m.downDim
      ensures Total(m.downDim, outs)[j] == out[j]
    {
      TotalColumns(m.downDim, outs, j);
    }
    assert Total(m.downDim, outs) == out;
  }

  /** Entry `j` of what one choice adds to a token. */
  function Adds(m: Layer, x: Row, c: Choice, j: nat): real {
    var o := m.expert(x, c.expert, c.weight);
    if o.Some? && j < |o.value| then o.value[j] else 0.0
  }

  /** Every chosen expert has an output, and each entry of `out` is the sum of theirs over the choices. */
  ghost predicate SumsExperts(m: Layer, x: Row, choices: seq<Choice>, out: seq<real>) {
    && |out| == m.downDim
    && (forall k :: 0 <= k < |choices| ==> m.expert(x, choices[k].expert, choices[k].weight).Some?)
    && forall j :: 0 <= j < m.downDim ==>
         out[j] == SumTo(|choices|, (k: nat) => if k < |choices| then Adds(m, x, choices[k], j) else 0.0)
  }

  lemma {:induction false} OutputsAre(m: Layer, x: Row, choices: seq<Choice>)
    ensures var outs := Outputs(m, x, choices);
            && (outs.Some? <==> forall k :: 0 <= k < |choices| ==> m.expert(x, choices[k].expert, choices[k].weight).Some?)
            && (outs.Some? ==> forall k :: 0 <= k < |choices| ==>
                  m.expert(x, choices[k].expert, choices[k].weight) == Some(outs.value[k]))
    decreases |choices|
  {
    if choices == [] {
    } else {
      var n, front := |choices| - 1, Init(choices);
      OutputsAre(m, x, front);
      assert forall k :: 0 <= k < n ==> front[k] == choices[k];
      assert choices[n] == Last(choices);
    }
  }

  lemma {:induction false} ColumnIsSum(outs: seq<seq<real>>, j: nat, f: nat -> real)
    requires forall i :: 0 <= i < |outs| ==> j < |outs[i]|
    requires forall k: nat :: k < |outs| ==> f(k) == outs[k][j]
    ensures Column(outs, j) == SumTo(|outs|, f)
  {
    if outs == [] {
    } else {
      ColumnIsSum(Init(outs), j, f);
    }
  }

  /** What routing a token means, in terms of the router, the quantiser and the experts alone. */
  lemma RoutedIs(m: Layer, norm: seq<real>, token: int, out: seq<real>)
    requires m.Valid()
    ensures RoutedSum(m, norm, token) == Some(out)
       <==> m.select(norm, token).Some? && m.quantize(norm).Some?
            && SumsExperts(m, m.quantize(norm).value, m.select(norm, token).value, out)
  {
    if m.select(norm, token).Some? && m.quantize(norm).Some? {
      var x, choices := m.quantize(norm).value, m.select(norm, token).value;
      OutputsAre(m, x, choices);
      if Outputs(m, x, choices).Some? {
        TotalIs(m, x, choices, out);
      }
    }
  }

  lemma TotalIs(m: Layer, x: Row, choices: seq<Choice>, out: seq<real>)
    requires m.Valid() && Outputs(m, x, choices).Some?
    ensures Total(m.downDim, Outputs(m, x, choices).value) == out <==> SumsExperts(m, x, choices, out)
  {
    var outs, d := Outputs(m, x, choices).value, m.downDim;
    OutputsAre(m, x, choices);
    OutputsSized(m, x, choices);
    forall j: nat | j < d
      ensures Total(d, outs)[j] == SumTo(|choices|, (k: nat) => if k < |choices| then Adds(m, x, choices[k], j) else 0.0)
    {
      TotalColumns(d, outs, j);
      ColumnIsSum(outs, j, (k: nat) => if k < |choices| then Adds(m, x, choices[k], j) else 0.0);
    }
  }

  /** `routed_moe` */
  method RouteOne(m: Layer, norm: seq<real>, token: int) returns (o: Option<seq<real>>)
    ensures o == RoutedSum(m, norm, token)
    ensures m.Valid() && o.Some? ==> IsRouted(m, norm, token, o.value)
  {
    var selected := m.select(norm, token);
    if selected.None? {
      return None;
    }
    var x := m.quantize(norm);
    if x.None? {
      return None;
    }
    var pairOut := ExpertOutputs(m, x.value, selected.value);
    if pairOut.None? {
      return None;
    }
    var routedOut := SumOutputs(pairOut.value, m.downDim);
    o := Some(routedOut);
    if m.Valid() {
      OutputsSized(m, x.value, selected.value);
      forall j | 0 <= j < m.downDim
        ensures routedOut[j] == Column(pairOut.value, j)
      {
        TotalColumns(m.downDim, pairOut.value, j);
      }
    }
  }

  // ---------------------------------------------------------------- groups by expert

  /** One token's share of an expert's work. */
  datatype Pick = Pick(token: nat, weight: real)
  datatype Group = Group(expert: nat, picks: seq<Pick>)
  datatype Item = Item(token: nat, expert: nat, weight: real)

  /** The ordered map from experts to their picks. */
  ghost predicate ByExpert(groups: seq<Group>) {
    forall i, j :: 0 <= i < j < |groups| ==> groups[i].expert < groups[j].expert
  }

  /** `groups.entry(expert).or_default().push(pick)` */
  function Push(groups: seq<Group>, expert: nat, pick: Pick): (r: seq<Group>)
    ensures ByExpert(groups) ==> ByExpert(r)
    ensures forall g :: g in r ==> g.expert == expert || g in groups
  {
    if groups == [] || expert < groups[0].expert then [Group(expert, [pick])] + groups
    else if groups[0].expert == expert then [Group(expert, groups[0].picks + [pick])] + groups[1..]
    else [groups[0]] + Push(groups[1..], expert, pick)
  }

  function PickItems(expert: nat, picks: seq<Pick>): multiset<Item> {
    if picks == [] then multiset{}
    else PickItems(expert, Init(picks)) + multiset{Item(Last(picks).token, expert, Last(picks).weight)}
  }

  function GroupItems(groups: seq<Group>): multiset<Item> {
    if groups == [] then multiset{} else PickItems(groups[0].expert, groups[0].picks) + GroupItems(groups[1..])
  }

  /** Regrouping keeps every item, each once. */
  lemma {:induction false} PushKeepsItems(groups: seq<Group>, expert: nat, pick: Pick)
    ensures GroupItems(Push(groups, expert, pick)) == GroupItems(groups) + multiset{Item(pick.token, expert, pick.weight)}
    decreases |groups|
  {
    if groups == [] || expert < groups[0].expert {
      assert Push(groups, expert, pick)[1..] == groups;
      assert Init([pick]) == [];
      assert PickItems(expert, [pick]) == multiset{} + multiset{Item(pick.token, expert, pick.weight)};
    } else if groups[0].expert == expert {
      assert Push(groups, expert, pick)[1..] == groups[1..];
      assert Init(groups[0].picks + [pick]) == groups[0].picks;
    } else {
      PushKeepsItems(groups[1..], expert, pick);
      assert Push(groups, expert, pick)[1..] == Push(groups[1..], expert, pick);
    }
  }

  // ---------------------------------------------------------------- what the groups add up to

  /** An expert's output for a token's item. */
  type Work = (nat, nat, real) -> Option<seq<real>>

  function Entry(work: Work, t: nat, e: nat, w: real, j: nat): real {
    var o := work(t, e, w);
    if o.Some? && j < |o.value| then o.value[j] else 0.0
  }

  /** What these picks of an expert add to entry `j` of token `t`. */
  function PicksTotal(work: Work, e: nat, picks: seq<Pick>, t: nat, j: nat): real {
    if picks == [] then 0.0
    else PicksTotal(work, e, Init(picks), t, j) + if Last(picks).token == t then Entry(work, t, e, Last(picks).weight, j) else 0.0
  }

  function GroupsTotal(work: Work, groups: seq<Group>, t: nat, j: nat): real {
    if groups == [] then 0.0
    else GroupsTotal(work, Init(groups), t, j) + PicksTotal(work, Last(groups).expert, Last(groups).picks, t, j)
  }

  lemma {:induction false} GroupsTotalCons(work: Work, g: Group, rest: seq<Group>, t: nat, j: nat)
    ensures GroupsTotal(work, [g] + rest, t, j) == PicksTotal(work, g.expert, g.picks, t, j) + GroupsTotal(work, rest, t, j)
    decreases |rest|
  {
    if rest == [] {
      assert Init([g] + rest) == [];
    } else {
      assert Init([g] + rest) == [g] + Init(rest);
      GroupsTotalCons(work, g, Init(rest), t, j);
    }
  }

  function Share(work: Work, e: nat, pick: Pick, t: nat, j: nat): real {
    if pick.token == t then Entry(work, t, e, pick.weight, j) else 0.0
  }

  /** Pushing an item adds its output to its own token, and nothing to the others. */
  lemma {:induction false} PushAdds(work: Work, groups: seq<Group>, e: nat, pick: Pick, t: nat, j: nat)
    ensures GroupsTotal(work, Push(groups, e, pick), t, j) == GroupsTotal(work, groups, t, j) + Share(work, e, pick, t, j)
    decreases |groups|
  {
    if groups == [] || e < groups[0].expert {
      GroupsTotalCons(work, Group(e, [pick]), groups, t, j);
      assert Init([pick]) == [];
    } else {
      var rest := groups[1..];
      assert groups == [groups[0]] + rest;
      GroupsTotalCons(work, groups[0], rest, t, j);
      if groups[0].expert == e {
        GroupsTotalCons(work, Group(e, groups[0].picks + [pick]), rest, t, j);
        assert Init(groups[0].picks + [pick]) == groups[0].picks;
      } else {
        GroupsTotalCons(work, groups[0], Push(rest, e, pick), t, j);
        PushAdds(work, rest, e, pick, t, j);
      }
    }
  }

  /** What a token's choices add up to. */
  function ChoicesTotal(work: Work, t: nat, choices: seq<Choice>, j: nat): real {
    if choices == [] then 0.0
    else ChoicesTotal(work, t, Init(choices), j) + Entry(work, t, Last(choices).expert, Last(choices).weight, j)
  }

  /** All the items of a token pushed. */
  function PushAll(groups: seq<Group>, t: nat, choices: seq<Choice>): seq<Group> {
    if choices == [] then groups
    else Push(PushAll(groups, t, Init(choices)), Last(choices).expert, Pick(t, Last(choices).weight))
  }

  lemma {:induction false} PushAllAdds(work: Work, groups: seq<Group>, u: nat, choices: seq<Choice>, t: nat, j: nat)
    ensures GroupsTotal(work, PushAll(groups, u, choices), t, j)
         == GroupsTotal(work, groups, t, j) + if u == t then ChoicesTotal(work, t, choices, j) else 0.0
    decreases |choices|
  {
    if choices == [] {
    } else {
      PushAllAdds(work, groups, u, Init(choices), t, j);
      PushAdds(work, PushAll(groups, u, Init(choices)), Last(choices).expert, Pick(u, Last(choices).weight), t, j);
    }
  }

  /** The groups of the first tokens. */
  function Regrouped(choices: seq<seq<Choice>>): seq<Group> {
    if choices == [] then [] else PushAll(Regrouped(Init(choices)), |choices| - 1, Last(choices))
  }

  /** Each token's total is that of its own choices: the order of the groups does not matter. */
  lemma {:induction false} RegroupingKeepsTotals(work: Work, choices: seq<seq<Choice>>, t: nat, j: nat)
    ensures GroupsTotal(work, Regrouped(choices), t, j) == if t < |choices| then ChoicesTotal(work, t, choices[t], j) else 0.0
    decreases |choices|
  {
    if choices == [] {
    } else {
      RegroupingKeepsTotals(work, Init(choices), t, j);
      PushAllAdds(work, Regrouped(Init(choices)), |choices| - 1, Last(choices), t, j);
    }
  }

  function ItemsOf(t: nat, choices: seq<Choice>): multiset<Item> {
    if choices == [] then multiset{}
    else ItemsOf(t, Init(choices)) + multiset{Item(t, Last(choices).expert, Last(choices).weight)}
  }

  function AllItems(choices: seq<seq<Choice>>): multiset<Item> {
    if choices == [] then multiset{} else AllItems(Init(choices)) + ItemsOf(|choices| - 1, Last(choices))
  }

  lemma {:induction false} PushAllKeepsItems(groups: seq<Group>, t: nat, choices: seq<Choice>)
    ensures GroupItems(PushAll(groups, t, choices)) == GroupItems(groups) + ItemsOf(t, choices)
    decreases |choices|
  {
    if choices == [] {
    } else {
      PushAllKeepsItems(groups, t, Init(choices));
      PushKeepsItems(PushAll(groups, t, Init(choices)), Last(choices).expert, Pick(t, Last(choices).weight));
    }
  }

  /** Conservation: the groups hold exactly the (token, expert, weight) items that were selected. */
  lemma {:induction false} RegroupingKeepsItems(choices: seq<seq<Choice>>)
    ensures GroupItems(Regrouped(choices)) == AllItems(choices)
    decreases |choices|
  {
    if choices == [] {
    } else {
      RegroupingKeepsItems(Init(choices));
      PushAllKeepsItems(Regrouped(Init(choices)), |choices| - 1, Last(choices));
    }
  }
}
