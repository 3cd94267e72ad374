/** Byte-pair encoding of one piece over a vocabulary, and decoding of tokens. */
module Bpe {
  import opened Wrappers
  import opened Utf8
  import opened ByteAlphabet
  import opened Seqs

  const BOS: string := "<\U{FF5C}begin\U{2581}of\U{2581}sentence\U{FF5C}>"
  const EOS: string := "<\U{FF5C}end\U{2581}of\U{2581}sentence\U{FF5C}>"
  const USER: string := "<\U{FF5C}User\U{FF5C}>"
  const ASSISTANT: string := "<\U{FF5C}Assistant\U{FF5C}>"
  const THINK_START: string := "<think>"
  const THINK_END: string := "</think>"
  const DSML: string := "\U{FF5C}DSML\U{FF5C}"

  const I32_MAX: int := 0x7fff_ffff

  datatype Vocab = Vocab(
    tokens: seq<string>,
    tokenToId: map<string, int>,
    merges: map<string, int>,
    bos: int,
    eos: int,
    user: int,
    assistant: int,
    thinkStart: int,
    thinkEnd: int,
    dsml: int)

  predicate Special(s: string) {
    s == BOS || s == EOS || s == USER || s == ASSISTANT || s == THINK_START || s == THINK_END || s == DSML
  }

  /** `is_control_token` */
  predicate Control(v: Vocab, t: int) {
    t == v.bos || t == v.eos || t == v.user || t == v.assistant
    || t == v.thinkStart || t == v.thinkEnd || t == v.dsml
  }

  ghost predicate IdOf(v: Vocab, s: string, t: int) {
    s in v.tokenToId && v.tokenToId[s] == t
  }

  /** Ids index the token table, and the control ids are those of their texts. */
  ghost predicate Valid(v: Vocab) {
    (forall s :: s in v.tokenToId ==> 0 <= v.tokenToId[s] < |v.tokens| && v.tokens[v.tokenToId[s]] == s)
    && IdOf(v, BOS, v.bos) && IdOf(v, EOS, v.eos) && IdOf(v, USER, v.user) && IdOf(v, ASSISTANT, v.assistant)
    && IdOf(v, THINK_START, v.thinkStart) && IdOf(v, THINK_END, v.thinkEnd) && IdOf(v, DSML, v.dsml)
  }

  /** The symbol of every byte is a token. */
  ghost predicate KnowsBytes(v: Vocab) {
    forall b: byte :: [ByteChar(b)] in v.tokenToId
  }

  // ---------------------------------------------------------------- merging

  /** The rank of merging two symbols, if it can be chosen. */
  function Rank(v: Vocab, a: string, b: string): Option<int> {
    var key := a + " " + b;
    if key in v.merges && v.merges[key] < I32_MAX then Some(v.merges[key]) else None
  }

  function RankAt(v: Vocab, sym: seq<string>, i: nat): Option<int> {
    if i + 1 < |sym| then Rank(v, sym[i], sym[i + 1]) else None
  }

  /** `i` is the leftmost pair of the least rank among the first `n`. */
  ghost predicate BestOf(v: Vocab, sym: seq<string>, i: nat, n: nat) {
    i < n && RankAt(v, sym, i).Some?
    && forall j: nat :: j < n && RankAt(v, sym, j).Some? ==>
         RankAt(v, sym, i).value <= RankAt(v, sym, j).value
         && (j < i ==> RankAt(v, sym, i).value < RankAt(v, sym, j).value)
  }

  ghost predicate Stuck(v: Vocab, sym: seq<string>, n: nat) {
    forall j: nat :: j < n ==> RankAt(v, sym, j).None?
  }

  /** The pair at `i` made one symbol. */
  function MergeAt(sym: seq<string>, i: nat): (r: seq<string>)
    requires i + 1 < |sym|
    ensures |r| == |sym| - 1
  {
    sym[..i] + ([sym[i] + sym[i + 1]] + sym[i + 2..])
  }

  /** Merging the best pair until there is none. */
  ghost function MergeAll(v: Vocab, sym: seq<string>): seq<string>
    decreases |sym|
  {
    if exists i: nat :: BestOf(v, sym, i, |sym|) then
      var i: nat :| BestOf(v, sym, i, |sym|);
      MergeAll(v, MergeAt(sym, i))
    else sym
  }

  lemma BestUnique(v: Vocab, sym: seq<string>, i: nat, j: nat, n: nat)
    requires BestOf(v, sym, i, n) && BestOf(v, sym, j, n)
    ensures i == j
  {
    var ri, rj := RankAt(v, sym, i), RankAt(v, sym, j);
    assert ri.Some? && rj.Some? && ri.value == rj.value;
  }

  /** The same, read off the merge table: "left right" is the key of a pair, its entry the rank. */
  ghost predicate BestInList(merges: map<string, int>, sym: seq<string>, best: Option<nat>) {
    match best
    case None =>
      forall j: nat :: j + 1 < |sym| ==>
        sym[j] + [' '] + sym[j + 1] !in merges || merges[sym[j] + [' '] + sym[j + 1]] >= 0x7fff_ffff
    case Some(i) =>
      && i + 1 < |sym| && sym[i] + [' '] + sym[i + 1] in merges && merges[sym[i] + [' '] + sym[i + 1]] < 0x7fff_ffff
      && forall j: nat :: j + 1 < |sym| && sym[j] + [' '] + sym[j + 1] in merges ==>
           && merges[sym[i] + [' '] + sym[i + 1]] <= merges[sym[j] + [' '] + sym[j + 1]]
           && (j < i ==> merges[sym[i] + [' '] + sym[i + 1]] < merges[sym[j] + [' '] + sym[j + 1]])
  }

  lemma RankIsEntry(v: Vocab, a: string, b: string)
    ensures Rank(v, a, b).Some? <==> a + [' '] + b in v.merges && v.merges[a + [' '] + b] < 0x7fff_ffff
    ensures Rank(v, a, b).Some? ==> Rank(v, a, b).value == v.merges[a + [' '] + b]
  {
    assert " " == [' '];
  }

  lemma BestIsInList(v: Vocab, sym: seq<string>, best: Option<nat>)
    requires if best.Some? then BestOf(v, sym, best.value, |sym|) else Stuck(v, sym, |sym|)
    ensures BestInList(v.merges, sym, best)
  {
    forall j: nat | j + 1 < |sym|
      ensures RankAt(v, sym, j).Some? <==>
              sym[j] + [' '] + sym[j + 1] in v.merges && v.merges[sym[j] + [' '] + sym[j + 1]] < 0x7fff_ffff
      ensures RankAt(v, sym, j).Some? ==> RankAt(v, sym, j).value == v.merges[sym[j] + [' '] + sym[j + 1]]
    {
      RankIsEntry(v, sym[j], sym[j + 1]);
    }
  }

  /** The inner loop: one scan for the best pair. */
  method FindBest(v: Vocab, sym: seq<string>) returns (best: Option<nat>)
    ensures best.Some? ==> BestOf(v, sym, best.value, |sym|)
    ensures best.None? ==> Stuck(v, sym, |sym|)
    ensures BestInList(v.merges, sym, best)
  {
    best := None;
    var bestRank := I32_MAX;
    var i := 0;
    while i + 1 < |sym|
      invariant i <= |sym|
      invariant best.Some? ==> BestOf(v, sym, best.value, i) && RankAt(v, sym, best.value) == Some(bestRank)
      invariant best.None? ==> bestRank == I32_MAX && Stuck(v, sym, i)
    {
      var key := sym[i] + " " + sym[i + 1];
      if key in v.merges && v.merges[key] < bestRank {
        bestRank := v.merges[key];
        best := Some(i);
      }
      i := i + 1;
    }
    BestIsInList(v, sym, best);
  }

  /** The outer loop: merge until no pair is left. */
  method MergeSymbols(v: Vocab, start: seq<string>) returns (sym: seq<string>)
    ensures sym == MergeAll(v, start) && Stuck(v, sym, |sym|)
  {
    sym := start;
    while true
      invariant MergeAll(v, start) == MergeAll(v, sym)
      decreases |sym|
    {
      var best := FindBest(v, sym);
      if best.None? {
        MergeAllStops(v, sym);
        break;
      }
      MergeAllStep(v, sym, best.value);
      var i := best.value;
      var merged := sym[i] + sym[i + 1];
      ghost var next := MergeAt(sym, i);
      sym := sym[i := merged];
      sym := sym[..i + 1] + sym[i + 2..];
      assert sym == next;
    }
  }

  lemma MergeAllStops(v: Vocab, sym: seq<string>)
    requires Stuck(v, sym, |sym|)
    ensures MergeAll(v, sym) == sym
  {
  }

  lemma MergeAllStep(v: Vocab, sym: seq<string>, i: nat)
    requires BestOf(v, sym, i, |sym|)
    ensures i + 1 < |sym| && MergeAll(v, sym) == MergeAll(v, MergeAt(sym, i))
  {
    forall j: nat | BestOf(v, sym, j, |sym|)
      ensures j == i
    {
      BestUnique(v, sym, i, j, |sym|);
    }
  }

  // ---------------------------------------------------------------- the text of symbols

  function Join(sym: seq<string>): string {
    if sym == [] then "" else sym[0] + Join(sym[1..])
  }

  lemma {:induction false} JoinConcat(a: seq<string>, b: seq<string>)
    ensures Join(a + b) == Join(a) + Join(b)
  {
    if a == [] {
      assert a + b == b;
    } else {
      assert (a + b)[1..] == a[1..] + b;
      JoinConcat(a[1..], b);
    }
  }

  lemma JoinCons(s: string, rest: seq<string>)
    ensures Join([s] + rest) == s + Join(rest)
  {
    assert ([s] + rest)[1..] == rest;
  }

  lemma MergeAtKeepsText(sym: seq<string>, i: nat)
    requires i + 1 < |sym|
    ensures Join(MergeAt(sym, i)) == Join(sym)
  {
    var a, x, y, b := sym[..i], sym[i], sym[i + 1], sym[i + 2..];
    TwoInOne(x, y, b);
    SplitAt(sym, i);
    JoinConcat(a, [x] + ([y] + b));
    JoinConcat(a, [x + y] + b);
  }

  lemma SplitAt<T>(sym: seq<T>, i: nat)
    requires i + 1 < |sym|
    ensures sym == sym[..i] + ([sym[i]] + ([sym[i + 1]] + sym[i + 2..]))
  {
  }

  lemma TwoInOne(x: string, y: string, b: seq<string>)
    ensures Join([x] + ([y] + b)) == Join([x + y] + b)
  {
    JoinCons(x, [y] + b);
    JoinCons(y, b);
    JoinCons(x + y, b);
    assert x + (y + Join(b)) == (x + y) + Join(b);
  }

  /** Merging never changes the text, and goes on until no pair can be merged. */
  lemma {:induction false} MergingKeepsText(v: Vocab, sym: seq<string>)
    ensures Join(MergeAll(v, sym)) == Join(sym)
    decreases |sym|
  {
    if exists i: nat :: BestOf(v, sym, i, |sym|) {
      var i: nat :| BestOf(v, sym, i, |sym|);
      MergeAllStep(v, sym, i);
      MergeAtKeepsText(sym, i);
      MergingKeepsText(v, MergeAt(sym, i));
    }
  }

  ghost predicate Slice(s: string, t: string, a: nat, b: nat) {
    a <= b <= |t| && s == t[a..b]
  }

  ghost predicate Within(s: string, t: string) {
    exists a: nat, b: nat :: Slice(s, t, a, b)
  }

  lemma {:induction false} SymbolWithinText(sym: seq<string>, i: nat)
    requires i < |sym|
    ensures Within(sym[i], Join(sym))
  {
    var a, b := sym[..i], sym[i + 1..];
    assert sym == a + ([sym[i]] + b) && ([sym[i]] + b)[1..] == b;
    JoinConcat(a, [sym[i]] + b);
    var t := Join(sym);
    assert t == Join(a) + (sym[i] + Join(b));
    assert Slice(sym[i], t, |Join(a)|, |Join(a)| + |sym[i]|);
  }

  function Singles(s: string): (r: seq<string>)
    ensures |r| == |s|
  {
    seq(|s|, i requires 0 <= i < |s| => [s[i]])
  }

  lemma {:induction false} JoinSingles(s: string)
    ensures Join(Singles(s)) == s
  {
    if s == "" {
    } else {
      assert Singles(s)[1..] == Singles(s[1..]);
      JoinSingles(s[1..]);
    }
  }

  // ---------------------------------------------------------------- emitting tokens

  /** Tokens of the single characters of a symbol that is no token itself; unknown ones are dropped. */
  function EmitChars(v: Vocab, s: string): seq<int> {
    if s == "" then []
    else (if [s[0]] in v.tokenToId then [v.tokenToId[[s[0]]]] else []) + EmitChars(v, s[1..])
  }

  function EmitSymbol(v: Vocab, s: string): seq<int> {
    if s in v.tokenToId then [v.tokenToId[s]] else EmitChars(v, s)
  }

  function EmitAll(v: Vocab, sym: seq<string>): seq<int> {
    if sym == [] then [] else EmitSymbol(v, sym[0]) + EmitAll(v, sym[1..])
  }

  lemma {:induction false} EmitAllConcat(v: Vocab, a: seq<string>, b: seq<string>)
    ensures EmitAll(v, a + b) == EmitAll(v, a) + EmitAll(v, b)
  {
    if a == [] {
      assert a + b == b;
    } else {
      assert (a + b)[1..] == a[1..] + b;
      EmitAllConcat(v, a[1..], b);
    }
  }

  lemma EmitAllStep(v: Vocab, sym: seq<string>, k: nat)
    requires k < |sym|
    ensures EmitAll(v, sym[..k + 1]) == EmitAll(v, sym[..k]) + EmitSymbol(v, sym[k])
  {
    assert sym[..k + 1] == sym[..k] + [sym[k]];
    assert EmitAll(v, [sym[k]]) == EmitSymbol(v, sym[k]) + [];
    EmitAllConcat(v, sym[..k], [sym[k]]);
  }

  /** The tokens of one piece. */
  ghost function PieceTokens(v: Vocab, raw: seq<byte>): seq<int> {
    EmitAll(v, MergeAll(v, Singles(ByteEncode(raw))))
  }

  /** `ps` lists the places from `k` on of the characters that are tokens, and `out` their tokens. */
  ghost predicate Emits(v: Vocab, s: string, k: nat, ps: seq<nat>, out: seq<int>) {
    && |ps| == |out| && (forall i, j :: 0 <= i < j < |ps| ==> ps[i] < ps[j])
    && (forall i :: 0 <= i < |ps| ==>
          k <= ps[i] < |s| && [s[ps[i]]] in v.tokenToId && out[i] == v.tokenToId[[s[ps[i]]]])
    && forall m :: k <= m < |s| && [s[m]] in v.tokenToId ==> m in ps
  }

  lemma EmitsOneMore(v: Vocab, s: string, k: nat, ps: seq<nat>, out: seq<int>)
    requires k < |s| && Emits(v, s, k + 1, ps, out)
    ensures if [s[k]] in v.tokenToId then Emits(v, s, k, [k] + ps, [v.tokenToId[[s[k]]]] + out) else Emits(v, s, k, ps, out)
  {
    var qs := [k] + ps;
    assert qs[0] == k;
    assert forall m :: m in ps ==> m in qs;
  }

  lemma {:induction false} EmitsFrom(v: Vocab, s: string, k: nat) returns (ps: seq<nat>)
    requires k <= |s|
    ensures Emits(v, s, k, ps, EmitChars(v, s[k..]))
    decreases |s| - k
  {
    if k == |s| {
      ps := [];
    } else {
      ps := EmitsFrom(v, s, k + 1);
      EmitsOneMore(v, s, k, ps, EmitChars(v, s[k + 1..]));
      assert s[k..][1..] == s[k + 1..];
      if [s[k]] in v.tokenToId {
        ps := [k] + ps;
      }
    }
  }

  /** A symbol that is no token is emitted character by character: known ones as their tokens, no other at all. */
  lemma EmitCharsAre(v: Vocab, s: string) returns (ps: seq<nat>)
    ensures Emits(v, s, 0, ps, EmitChars(v, s))
  {
    ps := EmitsFrom(v, s, 0);
    assert s[0..] == s;
  }

  method EmitOneByOne(v: Vocab, s: string, before: seq<int>) returns (out: seq<int>)
    ensures out == before + EmitChars(v, s)
  {
    out := before;
    var k := 0;
    while k < |s|
      invariant k <= |s| && before + EmitChars(v, s) == out + EmitChars(v, s[k..])
    {
      var one := [s[k]];
      assert s[k..][1..] == s[k + 1..];
      if one in v.tokenToId {
        out := out + [v.tokenToId[one]];
      }
      k := k + 1;
    }
  }

  /** `bpe_emit_piece` */
  method EmitPiece(v: Vocab, raw: seq<byte>, before: seq<int>) returns (out: seq<int>)
    ensures out == before + PieceTokens(v, raw)
  {
    var sym := MergeSymbols(v, Singles(ByteEncode(raw)));
    out := EmitSymbols(v, sym, before);
  }

  method EmitSymbols(v: Vocab, sym: seq<string>, before: seq<int>) returns (out: seq<int>)
    ensures out == before + EmitAll(v, sym)
  {
    out := before;
    var k := 0;
    while k < |sym|
      invariant k <= |sym| && out == before + EmitAll(v, sym[..k])
    {
      EmitAllStep(v, sym, k);
      var symbol := sym[k];
      Regroup(before, EmitAll(v, sym[..k]), EmitSymbol(v, symbol));
      if symbol in v.tokenToId {
        out := out + [v.tokenToId[symbol]];
      } else {
        out := EmitOneByOne(v, symbol, out);
      }
      k := k + 1;
    }
    assert sym[..k] == sym;
  }

  // ---------------------------------------------------------------- decoding tokens

  /** One token's bytes: control tokens and ids outside the table are skipped. */
  function DecodeToken(v: Vocab, t: int): seq<byte> {
    if !(0 <= t < |v.tokens|) || Control(v, t) then [] else DecodePiece(v.tokens[t])
  }

  function Decode(v: Vocab, ts: seq<int>): seq<byte> {
    if ts == [] then [] else DecodeToken(v, ts[0]) + Decode(v, ts[1..])
  }

  /** A token's bytes are those of its own text; the seven control tokens and ids outside the table have none. */
  lemma TokenBytes(v: Vocab, t: int)
    ensures Decode(v, [t]) ==
            if t < 0 || t >= |v.tokens| || t in [v.bos, v.eos, v.user, v.assistant, v.thinkStart, v.thinkEnd, v.dsml] then []
            else DecodePiece(v.tokens[t])
  {
    assert [t][1..] == [] && Decode(v, []) == [];
    assert Decode(v, [t]) == DecodeToken(v, t) + [];
  }

  lemma {:induction false} DecodeTokensConcat(v: Vocab, a: seq<int>, b: seq<int>)
    ensures Decode(v, a + b) == Decode(v, a) + Decode(v, b)
  {
    if a == [] {
      assert a + b == b;
    } else {
      var ab := a + b;
      assert ab[1..] == a[1..] + b && ab[0] == a[0];
      DecodeTokensConcat(v, a[1..], b);
      assert Decode(v, ab) == DecodeToken(v, a[0]) + Decode(v, ab[1..]);
      Regroup(DecodeToken(v, a[0]), Decode(v, a[1..]), Decode(v, b));
    }
  }

  lemma DecodeStep(v: Vocab, ts: seq<int>, k: nat)
    requires k < |ts|
    ensures Decode(v, ts[..k + 1]) == Decode(v, ts[..k]) + DecodeToken(v, ts[k])
  {
    assert ts[..k + 1] == ts[..k] + [ts[k]];
    assert Decode(v, [ts[k]]) == DecodeToken(v, ts[k]) + [];
    DecodeTokensConcat(v, ts[..k], [ts[k]]);
  }

  /** `append_decoded_piece` */
  method AppendDecodedPiece(piece: string, before: seq<byte>) returns (out: seq<byte>)
    ensures out == before + DecodePiece(piece)
  {
    out := before;
    var k := 0;
    while k < |piece|
      invariant k <= |piece| && out == before + DecodePiece(piece[..k])
    {
      var ch := piece[k];
      DecodePieceStep(piece, k);
      Regroup(before, DecodePiece(piece[..k]), DecodeChar(ch));
      var o := CodepointToByte(ch as int);
      if o.Some? {
        out := out + [o.value];
      } else {
        out := out + Encode(ch);
      }
      k := k + 1;
    }
    assert piece[..k] == piece;
  }

  lemma DecodePieceStep(s: string, k: nat)
    requires k < |s|
    ensures DecodePiece(s[..k + 1]) == DecodePiece(s[..k]) + DecodeChar(s[k])
  {
    assert s[..k + 1] == s[..k] + [s[k]];
    assert DecodePiece([s[k]]) == DecodeChar(s[k]) + [];
    DecodeConcat(s[..k], [s[k]]);
  }

  /** `decode_tokens_vocab`, up to the bytes. */
  method DecodeTokens(v: Vocab, ts: seq<int>) returns (out: seq<byte>)
    ensures out == Decode(v, ts)
  {
    out := [];
    var k := 0;
    while k < |ts|
      invariant k <= |ts| && out == Decode(v, ts[..k])
    {
      DecodeStep(v, ts, k);
      var t := ts[k];
      if 0 <= t < |v.tokens| && !Control(v, t) {
        out := AppendDecodedPiece(v.tokens[t], out);
      }
      k := k + 1;
    }
    assert ts[..k] == ts;
  }

  // ---------------------------------------------------------------- round trip of one piece

  /** Among vocabulary texts exactly the special ones are control tokens. */
  lemma ControlIsSpecial(v: Vocab, s: string)
    requires Valid(v) && s in v.tokenToId
    ensures Control(v, v.tokenToId[s]) <==> Special(s)
  {
    var t := v.tokenToId[s];
    assert v.tokens[t] == s;
    assert v.tokens[v.bos] == BOS && v.tokens[v.eos] == EOS && v.tokens[v.user] == USER;
    assert v.tokens[v.assistant] == ASSISTANT && v.tokens[v.dsml] == DSML;
    assert v.tokens[v.thinkStart] == THINK_START && v.tokens[v.thinkEnd] == THINK_END;
  }

  /** No text of the byte alphabet without a letter before punctuation holds a special text. */
  ghost predicate Plainly(s: string) {
    forall k :: 0 <= k < |s| ==> s[k] != '\U{FF5C}' && (k + 1 < |s| ==> !(s[k] == 'k' && s[k + 1] == '>'))
  }

  lemma SpecialIsNotPlain(s: string)
    requires Special(s)
    ensures !Plainly(s)
  {
    if s == THINK_START {
      assert s[5] == 'k' && s[6] == '>';
    } else if s == THINK_END {
      assert s[6] == 'k' && s[7] == '>';
    } else if s == DSML {
      assert s[0] == '\U{FF5C}';
    } else {
      assert s[1] == '\U{FF5C}';
    }
  }

  lemma PlainWithin(s: string, t: string)
    requires Plainly(t) && Within(s, t)
    ensures Plainly(s)
  {
    var a: nat, b: nat :| Slice(s, t, a, b);
    forall k | 0 <= k < |s|
      ensures s[k] != '\U{FF5C}' && (k + 1 < |s| ==> !(s[k] == 'k' && s[k + 1] == '>'))
    {
      assert s[k] == t[a + k] && (k + 1 < |s| ==> s[k + 1] == t[a + k + 1]);
    }
  }

  ghost predicate CharDecodes(v: Vocab, c: char) {
    [c] in v.tokenToId && DecodeToken(v, v.tokenToId[[c]]) == DecodeChar(c)
  }

  ghost predicate SymbolDecodes(v: Vocab, s: string) {
    Decode(v, EmitSymbol(v, s)) == DecodePiece(s)
  }

  lemma {:induction false} EmitCharsDecodes(v: Vocab, s: string)
    requires forall c :: c in s ==> CharDecodes(v, c)
    ensures Decode(v, EmitChars(v, s)) == DecodePiece(s)
  {
    if s == "" {
    } else {
      var c, rest := s[0], s[1..];
      EmitCharsDecodes(v, rest);
      assert CharDecodes(v, c);
      var t, ts := v.tokenToId[[c]], EmitChars(v, rest);
      assert EmitChars(v, s) == [t] + ts;
      assert ([t] + ts)[1..] == ts;
    }
  }

  lemma KnownCharDecodes(v: Vocab, c: char)
    requires Valid(v) && [c] in v.tokenToId
    ensures CharDecodes(v, c)
  {
    var one := [c];
    ControlIsSpecial(v, one);
    assert |one| == 1 && !Special(one);
    assert DecodePiece(one) == DecodeChar(c) + [];
  }

  /** Characters of the byte alphabet. */
  ghost predicate Encoded(s: string) {
    forall c :: c in s ==> InAlphabet(c)
  }

  ghost predicate InAlphabet(c: char) {
    exists b: byte :: ByteChar(b) == c
  }

  lemma ByteInAlphabet(b: byte)
    ensures InAlphabet(ByteChar(b))
  {
  }

  lemma PlainSymbolDecodes(v: Vocab, s: string)
    requires Valid(v) && KnowsBytes(v) && Encoded(s) && !Special(s)
    ensures SymbolDecodes(v, s)
  {
    if s in v.tokenToId {
      ControlIsSpecial(v, s);
      var t := v.tokenToId[s];
      assert Decode(v, [t]) == DecodeToken(v, t) + [];
    } else {
      forall c | c in s
        ensures CharDecodes(v, c)
      {
        var b: byte :| ByteChar(b) == c;
        assert [ByteChar(b)] in v.tokenToId;
        KnownCharDecodes(v, c);
      }
      EmitCharsDecodes(v, s);
    }
  }

  lemma SymbolNoControl(v: Vocab, s: string)
    requires Valid(v) && !Special(s)
    ensures forall t :: t in EmitSymbol(v, s) ==> !Control(v, t)
  {
    if s in v.tokenToId {
      ControlIsSpecial(v, s);
    } else {
      EmitCharsNoControl(v, s);
    }
  }

  lemma {:induction false} EmitCharsNoControl(v: Vocab, s: string)
    requires Valid(v)
    ensures forall t :: t in EmitChars(v, s) ==> !Control(v, t)
  {
    if s == "" {
    } else {
      EmitCharsNoControl(v, s[1..]);
      if [s[0]] in v.tokenToId {
        ControlIsSpecial(v, [s[0]]);
        assert |[s[0]]| == 1;
      }
    }
  }

  lemma {:induction false} SymbolsDecode(v: Vocab, sym: seq<string>)
    requires forall s :: s in sym ==> SymbolDecodes(v, s)
    ensures Decode(v, EmitAll(v, sym)) == DecodePiece(Join(sym))
  {
    if sym == [] {
    } else {
      var s, rest := sym[0], sym[1..];
      SymbolsDecode(v, rest);
      DecodeTokensConcat(v, EmitSymbol(v, s), EmitAll(v, rest));
      DecodeConcat(s, Join(rest));
      assert SymbolDecodes(v, s);
    }
  }

  lemma {:induction false} SymbolsNoControl(v: Vocab, sym: seq<string>)
    requires Valid(v) && forall s :: s in sym ==> !Special(s)
    ensures forall t :: t in EmitAll(v, sym) ==> !Control(v, t)
  {
    if sym == [] {
    } else {
      SymbolNoControl(v, sym[0]);
      SymbolsNoControl(v, sym[1..]);
    }
  }

  /** A piece whose alphabet text holds no special text decodes to itself, without control tokens. */
  lemma PieceRoundTrip(v: Vocab, raw: seq<byte>)
    requires Valid(v) && KnowsBytes(v) && Plainly(ByteEncode(raw))
    ensures Decode(v, PieceTokens(v, raw)) == raw
    ensures forall t :: t in PieceTokens(v, raw) ==> !Control(v, t)
  {
    var start := Singles(ByteEncode(raw));
    var sym := MergeAll(v, start);
    JoinSingles(ByteEncode(raw));
    MergingKeepsText(v, start);
    DecodeUndoesEncode(raw);
    forall s | s in sym
      ensures SymbolDecodes(v, s) && !Special(s)
    {
      var i :| 0 <= i < |sym| && sym[i] == s;
      SymbolWithinText(sym, i);
      PlainWithin(s, ByteEncode(raw));
      EncodedWithin(s, raw);
      if Special(s) {
        SpecialIsNotPlain(s);
      }
      PlainSymbolDecodes(v, s);
    }
    SymbolsDecode(v, sym);
    SymbolsNoControl(v, sym);
  }

  lemma EncodedWithin(s: string, raw: seq<byte>)
    requires Within(s, ByteEncode(raw))
    ensures Encoded(s)
  {
    var t := ByteEncode(raw);
    var a: nat, b: nat :| Slice(s, t, a, b);
    forall c | c in s
      ensures InAlphabet(c)
    {
      var k :| 0 <= k < |s| && s[k] == c;
      assert t[a + k] == c;
      ByteInAlphabet(raw[a + k]);
    }
  }
}
