/** Rendered chats: texts between special texts, which become control tokens. */
module Chat {
  import opened Wrappers
  import opened Utf8
  import opened Bpe
  import opened Tokenizer
  import opened Seqs

  /** A special text and its token. */
  datatype Special = Special(text: string, id: int)

  function Specials(v: Vocab): seq<Special> {
    [Special(BOS, v.bos), Special(EOS, v.eos), Special(USER, v.user), Special(ASSISTANT, v.assistant),
     Special(THINK_START, v.thinkStart), Special(THINK_END, v.thinkEnd), Special(DSML, v.dsml)]
  }

  /** The texts the scan looks for, in its order. */
  lemma SpecialsAre(v: Vocab)
    ensures Specials(v) == [
      Special("<\U{FF5C}begin\U{2581}of\U{2581}sentence\U{FF5C}>", v.bos),
      Special("<\U{FF5C}end\U{2581}of\U{2581}sentence\U{FF5C}>", v.eos),
      Special("<\U{FF5C}User\U{FF5C}>", v.user), Special("<\U{FF5C}Assistant\U{FF5C}>", v.assistant),
      Special("<think>", v.thinkStart), Special("</think>", v.thinkEnd), Special("\U{FF5C}DSML\U{FF5C}", v.dsml)]
  {
  }

  /** Two special texts differ within three characters: no text starts with both, so their order is no matter. */
  lemma SpecialsDiffer(v: Vocab, i: nat, j: nat) returns (k: nat)
    requires i < j < 7
    ensures k < 3 && k < |Specials(v)[i].text| && k < |Specials(v)[j].text| && Specials(v)[i].text[k] != Specials(v)[j].text[k]
  {
    k := if j == 6 then 0 else if j >= 4 then 1 else 2;
  }

  /** A rendered chat is plain text cut by special texts. */
  datatype Segment = Text(s: string) | Mark(t: Special)

  /** `special_token_at`: the first of the list whose text starts here. */
  function SpecialAt(sp: seq<Special>, text: string): (o: Option<Special>)
    ensures o.Some? ==> o.value in sp && o.value.text <= text
    ensures o.None? ==> forall t :: t in sp ==> !(t.text <= text)
  {
    if sp == [] then None
    else if sp[0].text <= text then Some(sp[0])
    else SpecialAt(sp[1..], text)
  }

  ghost predicate NonEmpty(sp: seq<Special>) {
    forall t :: t in sp ==> t.text != ""
  }

  function Span(s: string): seq<Segment> {
    if s == "" then [] else [Text(s)]
  }

  function MarkAt(sp: seq<Special>, text: string, p: nat): (o: Option<Special>)
    requires p <= |text|
  {
    SpecialAt(sp, text[p..])
  }

  /** The first position from `p` on where a special text starts; the end if there is none. */
  function NextMark(sp: seq<Special>, text: string, p: nat): (q: nat)
    requires p <= |text|
    ensures p <= q <= |text| && (q < |text| ==> MarkAt(sp, text, q).Some?)
    ensures forall k :: p <= k < q ==> MarkAt(sp, text, k).None?
    decreases |text| - p
  {
    if p == |text| || MarkAt(sp, text, p).Some? then p else NextMark(sp, text, p + 1)
  }

  /** Where the text goes on after the special text at `q`. */
  function AfterMark(sp: seq<Special>, text: string, q: nat): (r: nat)
    requires NonEmpty(sp) && q <= |text| && MarkAt(sp, text, q).Some?
    ensures q < r <= |text| && text[q..r] == MarkAt(sp, text, q).value.text
  {
    var t := MarkAt(sp, text, q).value;
    assert text[q..][..|t.text|] == t.text;
    q + |t.text|
  }

  function Segments(sp: seq<Special>, text: string, start: nat): seq<Segment>
    requires NonEmpty(sp) && start <= |text|
    decreases |text| - start
  {
    var q := NextMark(sp, text, start);
    if q == |text| then Span(text[start..q])
    else Span(text[start..q]) + ([Mark(MarkAt(sp, text, q).value)] + Segments(sp, text, AfterMark(sp, text, q)))
  }

  ghost function SegmentTokens(v: Vocab, g: Segment): seq<int> {
    match g
    case Text(s) => TextTokens(v, s)
    case Mark(t) => [t.id]
  }

  ghost function ChatTokens(v: Vocab, gs: seq<Segment>): seq<int> {
    if gs == [] then [] else SegmentTokens(v, gs[0]) + ChatTokens(v, gs[1..])
  }

  lemma {:induction false} ChatTokensConcat(v: Vocab, a: seq<Segment>, b: seq<Segment>)
    ensures ChatTokens(v, a + b) == ChatTokens(v, a) + ChatTokens(v, b)
  {
    if a == [] {
      assert a + b == b;
    } else {
      assert (a + b)[1..] == a[1..] + b;
      ChatTokensConcat(v, a[1..], b);
      Regroup(SegmentTokens(v, a[0]), ChatTokens(v, a[1..]), ChatTokens(v, b));
    }
  }

  lemma SpanTokens(v: Vocab, s: string)
    ensures ChatTokens(v, Span(s)) == TextTokens(v, s)
  {
    if s != "" {
      assert ChatTokens(v, [Text(s)]) == TextTokens(v, s) + [];
    }
  }

  /** `tokenize_span` */
  method TokenizeSpan(v: Vocab, span: string, before: seq<int>) returns (out: seq<int>)
    ensures out == before + ChatTokens(v, Span(span))
  {
    SpanTokens(v, span);
    if |span| == 0 {
      return before;
    }
    var tokens := TokenizeText(v, span);
    out := before + tokens;
  }

  /** The span before a special text, then its token, then the rest. */
  lemma MarkStep(v: Vocab, before: seq<int>, span: seq<Segment>, t: Special, rest: seq<Segment>)
    ensures before + ChatTokens(v, span + ([Mark(t)] + rest))
         == (before + ChatTokens(v, span) + [t.id]) + ChatTokens(v, rest)
  {
    ChatTokensConcat(v, span, [Mark(t)] + rest);
    assert ([Mark(t)] + rest)[1..] == rest;
    FourParts(before, ChatTokens(v, span), [t.id], ChatTokens(v, rest));
  }

  lemma FourParts<T>(a: seq<T>, b: seq<T>, c: seq<T>, d: seq<T>)
    ensures a + (b + (c + d)) == ((a + b) + c) + d
  {
  }

  /** The loop of `tokenize_rendered_chat_vocab`, moving one character at a time. */
  method TokenizeSegments(v: Vocab, sp: seq<Special>, text: string) returns (out: seq<int>)
    requires NonEmpty(sp)
    ensures out == ChatTokens(v, Segments(sp, text, 0))
  {
    out := [];
    if |text| == 0 {
      return;
    }
    var spanStart: nat, pos: nat := 0, 0;
    while pos < |text|
      invariant spanStart <= pos <= |text| && NextMark(sp, text, spanStart) == NextMark(sp, text, pos)
      invariant ChatTokens(v, Segments(sp, text, 0)) == out + ChatTokens(v, Segments(sp, text, spanStart))
      decreases |text| - pos
    {
      var found := MarkAt(sp, text, pos);
      if found.Some? {
        var next := AfterMark(sp, text, pos);
        MarkStep(v, out, Span(text[spanStart..pos]), found.value, Segments(sp, text, next));
        out := TokenizeSpan(v, text[spanStart..pos], out);
        out := out + [found.value.id];
        pos := next;
        spanStart := pos;
        continue;
      }
      pos := pos + 1;
    }
    out := TokenizeSpan(v, text[spanStart..pos], out);
  }

  /** `tokenize_rendered_chat_vocab` */
  method TokenizeRenderedChat(v: Vocab, text: string) returns (out: seq<int>)
    ensures NonEmpty(Specials(v)) && out == ChatTokens(v, Segments(Specials(v), text, 0))
  {
    SpecialsNonEmpty(v);
    out := TokenizeSegments(v, Specials(v), text);
  }

  lemma SpecialsNonEmpty(v: Vocab)
    ensures NonEmpty(Specials(v))
  {
  }

  // ---------------------------------------------------------------- what the segments are

  function Written(g: Segment): string {
    match g
    case Text(s) => s
    case Mark(t) => t.text
  }

  function Rendered(gs: seq<Segment>): string {
    if gs == [] then "" else Written(gs[0]) + Rendered(gs[1..])
  }

  /** No special text starts anywhere in it. */
  ghost predicate MarkFree(sp: seq<Special>, s: string) {
    forall p :: 0 <= p < |s| ==> SpecialAt(sp, s[p..]).None?
  }

  /** The marks are special texts and nonempty plain texts lie between them. */
  ghost predicate Wellcut(sp: seq<Special>, gs: seq<Segment>) {
    forall g :: g in gs ==> if g.Mark? then g.t in sp else g.s != "" && MarkFree(sp, g.s)
  }

  lemma {:induction false} RenderedConcat(a: seq<Segment>, b: seq<Segment>)
    ensures Rendered(a + b) == Rendered(a) + Rendered(b)
  {
    if a == [] {
      assert a + b == b;
    } else {
      assert (a + b)[1..] == a[1..] + b;
      RenderedConcat(a[1..], b);
    }
  }

  lemma SpanRenders(s: string)
    ensures Rendered(Span(s)) == s
  {
    if s != "" {
      assert Rendered([Text(s)]) == s + "";
    }
  }

  lemma FoundInLonger(sp: seq<Special>, s: string, longer: string)
    requires s <= longer
    ensures SpecialAt(sp, longer).None? ==> SpecialAt(sp, s).None?
  {
    var o := SpecialAt(sp, s);
    if o.Some? {
      assert o.value.text <= longer;
    }
  }

  lemma SpanMarkFree(sp: seq<Special>, text: string, start: nat)
    requires start <= |text|
    ensures MarkFree(sp, text[start..NextMark(sp, text, start)])
  {
    var q := NextMark(sp, text, start);
    var s := text[start..q];
    forall p | 0 <= p < |s|
      ensures SpecialAt(sp, s[p..]).None?
    {
      var k := start + p;
      assert MarkAt(sp, text, k).None?;
      FoundInLonger(sp, s[p..], text[k..]);
    }
  }

  ghost predicate Spells(sp: seq<Special>, gs: seq<Segment>, text: string) {
    Rendered(gs) == text && Wellcut(sp, gs)
  }

  /** The segments spell the text, and the plain ones hold no special text. */
  lemma {:induction false} SegmentsSpellText(sp: seq<Special>, text: string, start: nat)
    requires NonEmpty(sp) && start <= |text|
    ensures Spells(sp, Segments(sp, text, start), text[start..])
    decreases |text| - start
  {
    var q := NextMark(sp, text, start);
    SpanMarkFree(sp, text, start);
    if q == |text| {
      SpanRenders(text[start..q]);
      assert text[start..q] == text[start..];
    } else {
      var t, next := MarkAt(sp, text, q).value, AfterMark(sp, text, q);
      SegmentsSpellText(sp, text, next);
      MarkSpells(sp, text[start..q], t, Segments(sp, text, next), text[next..]);
      ThreeSlices(text, start, q, next);
    }
  }

  lemma ThreeSlices(text: string, a: nat, b: nat, c: nat)
    requires a <= b <= c <= |text|
    ensures text[a..b] + (text[b..c] + text[c..]) == text[a..]
  {
  }

  lemma MarkSpells(sp: seq<Special>, span: string, t: Special, rest: seq<Segment>, after: string)
    requires MarkFree(sp, span) && t in sp && Spells(sp, rest, after)
    ensures Spells(sp, Span(span) + ([Mark(t)] + rest), span + (t.text + after))
  {
    SpanRenders(span);
    RenderedConcat(Span(span), [Mark(t)] + rest);
    assert ([Mark(t)] + rest)[1..] == rest;
    assert Rendered([Mark(t)] + rest) == t.text + Rendered(rest);
  }

  // ---------------------------------------------------------------- control tokens of a chat

  /** The control tokens of a list, in order. */
  function Controls(v: Vocab, ts: seq<int>): seq<int> {
    if ts == [] then [] else (if Control(v, ts[0]) then [ts[0]] else []) + Controls(v, ts[1..])
  }

  function Marks(v: Vocab, gs: seq<Segment>): seq<int> {
    if gs == [] then [] else (if gs[0].Mark? then [gs[0].t.id] else []) + Marks(v, gs[1..])
  }

  lemma {:induction false} ControlsConcat(v: Vocab, a: seq<int>, b: seq<int>)
    ensures Controls(v, a + b) == Controls(v, a) + Controls(v, b)
  {
    if a == [] {
      assert a + b == b;
    } else {
      assert (a + b)[1..] == a[1..] + b;
      ControlsConcat(v, a[1..], b);
    }
  }

  lemma {:induction false} NoControls(v: Vocab, ts: seq<int>)
    requires forall t :: t in ts ==> !Control(v, t)
    ensures Controls(v, ts) == []
  {
    if ts == [] {
    } else {
      NoControls(v, ts[1..]);
    }
  }

  /** What a text segment and a mark contribute to the control tokens. */
  ghost predicate ControlsKept(v: Vocab, g: Segment) {
    Controls(v, SegmentTokens(v, g)) == if g.Mark? then [g.t.id] else []
  }

  lemma MarkControls(v: Vocab, t: Special)
    requires Valid(v) && t in Specials(v)
    ensures ControlsKept(v, Mark(t))
  {
    assert Control(v, t.id);
    assert Controls(v, [t.id]) == [t.id] + [];
  }

  lemma TextControls(v: Vocab, s: string)
    requires Valid(v) && KnowsBytes(v) && s != "" && MarkFree(Specials(v), s)
    ensures ControlsKept(v, Text(s))
  {
    MarkFreeIsNotSpecial(v, s);
    TextEmitsControl(v, s);
    NoControls(v, TextTokens(v, s));
  }

  lemma MarkFreeIsNotSpecial(v: Vocab, s: string)
    requires s != "" && MarkFree(Specials(v), s)
    ensures !Bpe.Special(s)
  {
    var sp := Specials(v);
    assert s[0..] == s;
    assert SpecialAt(sp, s[0..]).None?;
    forall m | Bpe.Special(m)
      ensures m != s
    {
      SpecialListed(v, m);
    }
  }

  lemma SpecialListed(v: Vocab, m: string)
    requires Bpe.Special(m)
    ensures exists t :: t in Specials(v) && t.text == m
  {
    var sp := Specials(v);
    assert sp[0] in sp && sp[1] in sp && sp[2] in sp && sp[3] in sp && sp[4] in sp && sp[5] in sp && sp[6] in sp;
  }

  lemma {:induction false} SegmentsControls(v: Vocab, gs: seq<Segment>)
    requires forall g :: g in gs ==> ControlsKept(v, g)
    ensures Controls(v, ChatTokens(v, gs)) == Marks(v, gs)
  {
    if gs == [] {
    } else {
      assert ControlsKept(v, gs[0]);
      SegmentsControls(v, gs[1..]);
      ControlsConcat(v, SegmentTokens(v, gs[0]), ChatTokens(v, gs[1..]));
    }
  }

  /** Plain text never makes a control token: those of a chat are its special texts, in order. */
  lemma ChatControls(v: Vocab, gs: seq<Segment>)
    requires Valid(v) && KnowsBytes(v) && Wellcut(Specials(v), gs)
    ensures Controls(v, ChatTokens(v, gs)) == Marks(v, gs)
  {
    forall g | g in gs
      ensures ControlsKept(v, g)
    {
      if g.Mark? {
        MarkControls(v, g.t);
      } else {
        TextControls(v, g.s);
      }
    }
    SegmentsControls(v, gs);
  }

  // ---------------------------------------------------------------- decoding a chat

  function Shown(g: Segment): string {
    if g.Text? then g.s else ""
  }

  /** The text of a chat without its special texts. */
  function Visible(gs: seq<Segment>): string {
    if gs == [] then "" else Shown(gs[0]) + Visible(gs[1..])
  }

  ghost predicate AllFaithful(v: Vocab, gs: seq<Segment>) {
    forall g :: g in gs && g.Text? ==> Faithful(v, g.s)
  }

  /** Whether a segment decodes to what it shows; if not, it decodes to less. */
  ghost predicate ShowsOrShrinks(v: Vocab, g: Segment) {
    var d, b := Decode(v, SegmentTokens(v, g)), Bytes(Shown(g));
    if g.Text? && !Faithful(v, g.s) then |d| < |b| else d == b
  }

  lemma {:induction false} SegmentsDecode(v: Vocab, gs: seq<Segment>)
    requires forall g :: g in gs ==> ShowsOrShrinks(v, g)
    ensures AllFaithful(v, gs) ==> Decode(v, ChatTokens(v, gs)) == Bytes(Visible(gs))
    ensures if AllFaithful(v, gs) then |Decode(v, ChatTokens(v, gs))| == |Bytes(Visible(gs))|
            else |Decode(v, ChatTokens(v, gs))| < |Bytes(Visible(gs))|
  {
    if gs == [] {
    } else {
      var g, rest := gs[0], gs[1..];
      assert ShowsOrShrinks(v, g);
      SegmentsDecode(v, rest);
      DecodeTokensConcat(v, SegmentTokens(v, g), ChatTokens(v, rest));
      BytesConcat(Shown(g), Visible(rest));
      assert AllFaithful(v, gs) <==> (g.Text? ==> Faithful(v, g.s)) && AllFaithful(v, rest);
    }
  }

  lemma SegmentShows(v: Vocab, g: Segment)
    requires Valid(v) && KnowsBytes(v) && (g.Mark? ==> g.t in Specials(v))
    ensures ShowsOrShrinks(v, g)
  {
    if g.Text? {
      TextRoundTrip(v, g.s);
    } else {
      var t := g.t.id;
      assert Control(v, t);
      assert Decode(v, [t]) == DecodeToken(v, t) + [];
    }
  }

  /** Decoding a chat gives its visible text exactly when every plain span is given back. */
  lemma ChatRoundTrip(v: Vocab, gs: seq<Segment>)
    requires Valid(v) && KnowsBytes(v) && Wellcut(Specials(v), gs)
    ensures Decode(v, ChatTokens(v, gs)) == Bytes(Visible(gs)) <==> AllFaithful(v, gs)
  {
    forall g | g in gs
      ensures ShowsOrShrinks(v, g)
    {
      SegmentShows(v, g);
    }
    SegmentsDecode(v, gs);
  }

  /** Whole chats: what becomes control tokens, and what decodes back. */
  lemma RenderedChat(v: Vocab, text: string)
    requires Valid(v) && KnowsBytes(v)
    ensures NonEmpty(Specials(v))
    ensures var gs := Segments(Specials(v), text, 0);
            Spells(Specials(v), gs, text)
            && Controls(v, ChatTokens(v, gs)) == Marks(v, gs)
            && (Decode(v, ChatTokens(v, gs)) == Bytes(Visible(gs)) <==> AllFaithful(v, gs))
  {
    SpecialsNonEmpty(v);
    var gs := Segments(Specials(v), text, 0);
    SegmentsSpellText(Specials(v), text, 0);
    assert text[0..] == text;
    ChatControls(v, gs);
    ChatRoundTrip(v, gs);
  }
}
