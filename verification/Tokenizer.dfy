/** Text to tokens and back over a whole vocabulary, and rendered chats with control tokens. */
module Tokenizer {
  import opened Wrappers
  import opened Utf8
  import opened ByteAlphabet
  import opened JoyaiPieces
  import opened Bpe
  import opened Seqs

  // ---------------------------------------------------------------- building a vocabulary

  /** Every text of the list, mapped to the last index it stands at. */
  ghost predicate LastIndexOf(m: map<string, int>, xs: seq<string>) {
    forall s :: (s in m <==> s in xs) && (s in m ==> 0 <= m[s] < |xs| && xs[m[s]] == s && s !in xs[m[s] + 1..])
  }

  /** An index as a 32-bit id: from 2^31 on it wraps. */
  function AsId(i: nat): (id: int)
    ensures -0x8000_0000 <= id < 0x8000_0000 && (i - id) % 0x1_0000_0000 == 0
  {
    var low := i % 0x1_0000_0000;
    if low <= I32_MAX then low else low - 0x1_0000_0000
  }

  ghost predicate Wraps(m: map<string, int>, last: map<string, int>) {
    m.Keys == last.Keys && forall s :: s in m ==> last[s] >= 0 && m[s] == AsId(last[s])
  }

  lemma LastIndexNext(last: map<string, int>, xs: seq<string>, i: nat)
    requires i < |xs| && LastIndexOf(last, xs[..i])
    ensures LastIndexOf(last[xs[i] := i], xs[..i + 1])
  {
    var next := last[xs[i] := i];
    forall s
      ensures (s in next <==> s in xs[..i + 1])
      ensures s in next ==> 0 <= next[s] < i + 1 && xs[next[s]] == s && s !in xs[..i + 1][next[s] + 1..]
    {
      assert xs[..i + 1] == xs[..i] + [xs[i]];
      if s in last && s != xs[i] {
        assert xs[..i + 1][next[s] + 1..] == xs[..i][next[s] + 1..] + [xs[i]];
      }
    }
  }

  method IndexTexts(xs: seq<string>) returns (m: map<string, int>, ghost last: map<string, int>)
    ensures LastIndexOf(last, xs) && Wraps(m, last)
  {
    m, last := map[], map[];
    var i := 0;
    while i < |xs|
      invariant i <= |xs| && LastIndexOf(last, xs[..i]) && Wraps(m, last)
    {
      LastIndexNext(last, xs, i);
      m, last := m[xs[i] := AsId(i)], last[xs[i] := i];
      i := i + 1;
    }
    assert xs[..i] == xs;
  }

  /** Tables of at most 2^31 texts get their indices as ids. */
  lemma SmallTable(m: map<string, int>, last: map<string, int>, xs: seq<string>)
    requires LastIndexOf(last, xs) && Wraps(m, last) && |xs| <= I32_MAX + 1
    ensures m == last
  {
  }

  /** `required_token_id` */
  function RequiredId(m: map<string, int>, s: string): Option<int> {
    if s in m then Some(m[s]) else None
  }

  /** `from_gguf`: fails exactly when the table lacks a special text. Ids are last indices in 32 bits. */
  method FromGguf(tokens: seq<string>, merges: seq<string>)
    returns (o: Option<Vocab>, ghost last: map<string, int>, ghost lastMerge: map<string, int>)
    ensures o.Some? <==> forall s :: Special(s) ==> s in tokens
    ensures o.Some? ==> o.value.tokens == tokens
    ensures o.Some? ==> LastIndexOf(last, tokens) && Wraps(o.value.tokenToId, last)
    ensures o.Some? ==> LastIndexOf(lastMerge, merges) && Wraps(o.value.merges, lastMerge)
    ensures o.Some? && |tokens| <= I32_MAX + 1 ==> Valid(o.value) && o.value.tokenToId == last
    ensures o.Some? && |merges| <= I32_MAX + 1 ==> o.value.merges == lastMerge
  {
    last, lastMerge := map[], map[];
    if |tokens| == 0 {
      assert Special(BOS);
      return None, last, lastMerge;
    }
    var tokenToId, ranks;
    tokenToId, last := IndexTexts(tokens);
    ranks, lastMerge := IndexTexts(merges);
    if |tokens| <= I32_MAX + 1 {
      SmallTable(tokenToId, last, tokens);
    }
    if |merges| <= I32_MAX + 1 {
      SmallTable(ranks, lastMerge, merges);
    }
    assert Special(BOS) && Special(EOS) && Special(USER) && Special(ASSISTANT);
    assert Special(THINK_START) && Special(THINK_END) && Special(DSML);
    var bos :- RequiredId(tokenToId, BOS);
    var eos :- RequiredId(tokenToId, EOS);
    var user :- RequiredId(tokenToId, USER);
    var assistant :- RequiredId(tokenToId, ASSISTANT);
    var thinkStart :- RequiredId(tokenToId, THINK_START);
    var thinkEnd :- RequiredId(tokenToId, THINK_END);
    var dsml :- RequiredId(tokenToId, DSML);
    o := Some(Vocab(tokens, tokenToId, ranks, bos, eos, user, assistant, thinkStart, thinkEnd, dsml));
  }

  /** With a merge list of any usual size two symbols become one exactly when "left right" is in the list. */
  lemma TwoSymbolsMerge(v: Vocab, merges: seq<string>, x: string, y: string)
    requires LastIndexOf(v.merges, merges) && |merges| <= I32_MAX
    ensures MergeAll(v, [x, y]) == if x + [' '] + y in merges then [x + y] else [x, y]
  {
    var sym := [x, y];
    RankIsEntry(v, x, y);
    assert sym[0] == x && sym[1] == y;
    if x + [' '] + y in merges {
      assert BestOf(v, sym, 0, |sym|);
      MergeAllStep(v, sym, 0);
      assert MergeAt(sym, 0) == [x + y];
      MergeAllStops(v, [x + y]);
    } else {
      MergeAllStops(v, sym);
    }
  }

  // ---------------------------------------------------------------- plain text

  ghost predicate InRange(text: seq<byte>, pieces: seq<Piece>) {
    forall i :: 0 <= i < |pieces| ==> pieces[i].start <= pieces[i].end <= |text|
  }

  ghost function PiecesTokens(v: Vocab, text: seq<byte>, pieces: seq<Piece>): seq<int>
    requires InRange(text, pieces)
  {
    if pieces == [] then []
    else PieceTokens(v, text[pieces[0].start..pieces[0].end]) + PiecesTokens(v, text, pieces[1..])
  }

  lemma {:induction false} PartitionInRange(text: seq<byte>, p: nat, pieces: seq<Piece>)
    requires p <= |text| && Partition(text, p, pieces)
    ensures InRange(text, pieces)
    decreases pieces
  {
    if pieces == [] {
    } else {
      PartitionInRange(text, pieces[0].end, pieces[1..]);
      forall i | 0 <= i < |pieces|
        ensures pieces[i].start <= pieces[i].end <= |text|
      {
        assert i > 0 ==> pieces[i] == pieces[1..][i - 1];
      }
    }
  }

  ghost function PieceList(text: seq<byte>): (pieces: seq<Piece>)
    requires WellFormed(text)
    ensures Partition(text, 0, pieces) && InRange(text, pieces)
  {
    PiecesPartition(text, 0);
    PartitionInRange(text, 0, Pieces(text, 0));
    Pieces(text, 0)
  }

  /** The tokens of a text: one token if it is a vocabulary entry, else those of its pieces. */
  ghost function TextTokens(v: Vocab, text: string): seq<int> {
    BytesWellFormed(text);
    if text == "" then []
    else if text in v.tokenToId then [v.tokenToId[text]]
    else PiecesTokens(v, Bytes(text), PieceList(Bytes(text)))
  }

  lemma PiecesTokensStep(v: Vocab, text: seq<byte>, pieces: seq<Piece>, k: nat)
    requires InRange(text, pieces) && k < |pieces|
    ensures PiecesTokens(v, text, pieces[k..])
         == PieceTokens(v, text[pieces[k].start..pieces[k].end]) + PiecesTokens(v, text, pieces[k + 1..])
  {
    assert pieces[k..][1..] == pieces[k + 1..];
  }

  /** `tokenize_text_bpe` */
  method TokenizeText(v: Vocab, text: string) returns (out: seq<int>)
    ensures out == TextTokens(v, text)
  {
    BytesWellFormed(text);
    if |text| == 0 {
      return [];
    }
    if text in v.tokenToId {
      return [v.tokenToId[text]];
    }
    var pieces := Cut(Bytes(text));
    PartitionInRange(Bytes(text), 0, pieces);
    out := EmitPieces(v, Bytes(text), pieces);
  }

  method EmitPieces(v: Vocab, text: seq<byte>, pieces: seq<Piece>) returns (out: seq<int>)
    requires InRange(text, pieces)
    ensures out == PiecesTokens(v, text, pieces)
  {
    out := [];
    var k := 0;
    while k < |pieces|
      invariant k <= |pieces| && PiecesTokens(v, text, pieces) == out + PiecesTokens(v, text, pieces[k..])
    {
      var start, end := pieces[k].start, pieces[k].end;
      PiecesTokensStep(v, text, pieces, k);
      Regroup(out, PieceTokens(v, text[start..end]), PiecesTokens(v, text, pieces[k + 1..]));
      out := EmitPiece(v, text[start..end], out);
      k := k + 1;
    }
  }

  // ---------------------------------------------------------------- the round trip

  lemma AlphabetChar(b: byte)
    ensures ByteChar(b) != '\U{FF5C}' && (ByteChar(b) == 'k' ==> b == 107) && (ByteChar(b) == '>' ==> b == 62)
  {
    ByteCodeRange(b);
  }

  /** No piece can be or hold a special text. */
  lemma GoodPieceIsPlain(text: seq<byte>, p: nat, q: nat)
    requires Good(text, p, q)
    ensures Plainly(ByteEncode(text[p..q]))
  {
    var raw := text[p..q];
    var s := ByteEncode(raw);
    forall k | 0 <= k < |s|
      ensures s[k] != '\U{FF5C}' && (k + 1 < |s| ==> !(s[k] == 'k' && s[k + 1] == '>'))
    {
      var m := p + k;
      AlphabetChar(text[m]);
      assert s[k] == ByteChar(text[m]);
      if k + 1 < |s| {
        AlphabetChar(text[m + 1]);
        assert s[k + 1] == ByteChar(text[m + 1]);
      }
    }
  }

  ghost predicate NoControl(v: Vocab, ts: seq<int>) {
    forall t :: t in ts ==> !Control(v, t)
  }

  /** The piece survives: its tokens decode to it and none is a control token. */
  ghost predicate PieceKept(v: Vocab, text: seq<byte>, g: Piece) {
    g.start <= g.end <= |text|
    && Decode(v, PieceTokens(v, text[g.start..g.end])) == text[g.start..g.end]
    && NoControl(v, PieceTokens(v, text[g.start..g.end]))
  }

  lemma {:induction false} EveryPieceKept(v: Vocab, text: seq<byte>, p: nat, pieces: seq<Piece>)
    requires Valid(v) && KnowsBytes(v) && p <= |text| && Partition(text, p, pieces)
    ensures forall g :: g in pieces ==> PieceKept(v, text, g)
    decreases pieces
  {
    if pieces == [] {
    } else {
      var q := pieces[0].end;
      GoodPieceIsPlain(text, p, q);
      PieceRoundTrip(v, text[p..q]);
      EveryPieceKept(v, text, q, pieces[1..]);
    }
  }

  lemma {:induction false} PiecesDecode(v: Vocab, text: seq<byte>, p: nat, pieces: seq<Piece>)
    requires InRange(text, pieces) && p <= |text| && Partition(text, p, pieces)
    requires forall g :: g in pieces ==> PieceKept(v, text, g)
    ensures Decode(v, PiecesTokens(v, text, pieces)) == text[p..]
    decreases pieces
  {
    if pieces == [] {
    } else {
      var q, rest := pieces[0].end, pieces[1..];
      assert PieceKept(v, text, pieces[0]);
      PiecesDecode(v, text, q, rest);
      FirstPieceTokens(v, text, pieces);
      DecodeTokensConcat(v, PieceTokens(v, text[p..q]), PiecesTokens(v, text, rest));
      SplitAt(text, p, q);
    }
  }

  lemma FirstPieceTokens(v: Vocab, text: seq<byte>, pieces: seq<Piece>)
    requires InRange(text, pieces) && pieces != []
    ensures PiecesTokens(v, text, pieces)
         == PieceTokens(v, text[pieces[0].start..pieces[0].end]) + PiecesTokens(v, text, pieces[1..])
  {
  }

  lemma SplitAt(text: seq<byte>, p: nat, q: nat)
    requires p <= q <= |text|
    ensures text[p..] == text[p..q] + text[q..]
  {
  }

  lemma {:induction false} PiecesNoControl(v: Vocab, text: seq<byte>, pieces: seq<Piece>)
    requires InRange(text, pieces) && forall g :: g in pieces ==> PieceKept(v, text, g)
    ensures NoControl(v, PiecesTokens(v, text, pieces))
  {
    if pieces == [] {
    } else {
      assert PieceKept(v, text, pieces[0]);
      PiecesNoControl(v, text, pieces[1..]);
    }
  }

  /** The tokens of all pieces decode to the whole text and hold no control token. */
  lemma PiecesRoundTrip(v: Vocab, text: seq<byte>)
    requires Valid(v) && KnowsBytes(v) && WellFormed(text)
    ensures Decode(v, PiecesTokens(v, text, PieceList(text))) == text
    ensures NoControl(v, PiecesTokens(v, text, PieceList(text)))
  {
    var pieces := PieceList(text);
    EveryPieceKept(v, text, 0, pieces);
    PiecesDecode(v, text, 0, pieces);
    PiecesNoControl(v, text, pieces);
    assert text[0..] == text;
  }

  /** The guard of the early return and what its token decodes to. */
  predicate Faithful(v: Vocab, text: string) {
    text == "" || text !in v.tokenToId || (!Special(text) && Unambiguous(text))
  }

  lemma SingleTokenDecodes(v: Vocab, text: string)
    requires Valid(v) && text in v.tokenToId && text != ""
    ensures |Decode(v, [v.tokenToId[text]])| <= |Bytes(text)|
    ensures Decode(v, [v.tokenToId[text]]) == Bytes(text) <==> !Special(text) && Unambiguous(text)
    ensures |Decode(v, [v.tokenToId[text]])| == |Bytes(text)| ==> !Special(text) && Unambiguous(text)
  {
    var t := v.tokenToId[text];
    ControlIsSpecial(v, text);
    DecodesToItself(text);
    assert |Bytes(text)| > 0;
    assert Decode(v, [t]) == DecodeToken(v, t) + [];
  }

  /**
   * Round trip: with every byte symbol in the vocabulary, the tokens of a text decode to the text
   * exactly when the early return is not taken on a control text or on one with an ambiguous character.
   */
  lemma TextRoundTrip(v: Vocab, text: string)
    requires Valid(v) && KnowsBytes(v)
    ensures Decode(v, TextTokens(v, text)) == Bytes(text) <==> Faithful(v, text)
    ensures |Decode(v, TextTokens(v, text))| < |Bytes(text)| <==> !Faithful(v, text)
  {
    BytesWellFormed(text);
    var bytes := Bytes(text);
    if text == "" {
    } else if text in v.tokenToId {
      SingleTokenDecodes(v, text);
    } else {
      PiecesRoundTrip(v, bytes);
    }
  }

  lemma SpecialIsEntry(v: Vocab, text: string)
    requires Valid(v) && text !in v.tokenToId
    ensures !Special(text)
  {
  }

  lemma NoControlMeans(v: Vocab, tokens: seq<int>)
    requires NoControl(v, tokens)
    ensures !exists t :: t in tokens && Control(v, t)
  {
  }

  lemma EntryEmitsControl(v: Vocab, text: string)
    requires Valid(v) && text in v.tokenToId
    ensures (exists t :: t in TextTokens(v, text) && Control(v, t)) <==> Special(text)
  {
    ControlIsSpecial(v, text);
    assert text != "" ==> v.tokenToId[text] in TextTokens(v, text);
  }

  /** Tokenizing a text gives a control token only if the text is exactly a special text. */
  lemma TextEmitsControl(v: Vocab, text: string)
    requires Valid(v) && KnowsBytes(v)
    ensures (exists t :: t in TextTokens(v, text) && Control(v, t)) <==> Special(text)
  {
    BytesWellFormed(text);
    if text in v.tokenToId {
      EntryEmitsControl(v, text);
    } else {
      SpecialIsEntry(v, text);
      if text != "" {
        PiecesRoundTrip(v, Bytes(text));
        NoControlMeans(v, TextTokens(v, text));
      }
    }
  }

  /** An entry of the vocabulary that is not given back: the alphabet's name of the space. */
  lemma SpaceNameIsLost(v: Vocab)
    requires Valid(v) && KnowsBytes(v)
    ensures Decode(v, TextTokens(v, "\U{120}")) == Bytes(" ")
  {
    var space := "\U{120}";
    OddBeforeClosed(32);
    assert ByteChar(32) == '\U{120}';
    assert [ByteChar(32)] in v.tokenToId && [ByteChar(32)] == space;
    KnownCharDecodes(v, '\U{120}');
    ByteCodeRoundTrip(32);
    var t := v.tokenToId[space];
    assert Decode(v, [t]) == DecodeToken(v, t) + [];
  }
}
