/** Objects printed with white space between their tokens, and the two tables of characters the scanner rests on. */
module JsonSpacing {
  import opened Wrappers
  import opened Json
  import opened JsonArguments
  import opened JsonRoundTrip
  import opened Seqs

  // ---------------------------------------------------------------- tables

  /** What a character becomes inside a string. */
  lemma EscapeIs(c: char)
    ensures c == '\"' ==> EscapeTo([c], "") == "\\\""
    ensures c == '\\' ==> EscapeTo([c], "") == "\\\\"
    ensures c == '\n' ==> EscapeTo([c], "") == "\\n"
    ensures c == '\r' ==> EscapeTo([c], "") == "\\r"
    ensures c == '\t' ==> EscapeTo([c], "") == "\\t"
    ensures c as int < 32 && c !in "\n\r\t" ==>
              EscapeTo([c], "") == "\\u00" + ["0123456789abcdef"[c as int / 16], "0123456789abcdef"[c as int % 16]]
    ensures c as int >= 32 && c !in "\"\\" ==> EscapeTo([c], "") == [c]
  {
    if Odd(c) {
      HexIs(c as int / 16);
      HexIs(c as int % 16);
    }
  }

  lemma HexIs(n: nat)
    requires n < 16
    ensures HexDigit(n) == "0123456789abcdef"[n]
  {
  }

  /** What a character behind a backslash stands for; `k` is what follows the string. */
  lemma UnescapeIs(c: char, k: string)
    ensures StringBody(['\\'] + ([c] + (['\"'] + k)), false)
         == Some(Scanned([if c == 'n' then '\n' else if c == 'r' then '\r' else if c == 't' then '\t' else c], k))
  {
    EscapedCharScans(c, ['\"'] + k);
    assert (['\"'] + k)[1..] == k && [Unescaped(c)] + "" == [Unescaped(c)];
  }

  /** The white space of Unicode. */
  lemma WhitespaceIs(c: char)
    ensures Whitespace(c) <==> c as int in [
      9, 10, 11, 12, 13, 32, 133, 160, 5760, 8192, 8193, 8194, 8195, 8196, 8197, 8198, 8199, 8200, 8201, 8202,
      8232, 8233, 8239, 8287, 12288]
  {
  }

  // ---------------------------------------------------------------- white space between tokens

  predicate Blank(w: string) {
    forall i :: 0 <= i < |w| ==> Whitespace(w[i])
  }

  lemma {:induction false} SkipBlank(w: string, t: string)
    requires Blank(w)
    ensures SkipWs(w + t) == SkipWs(t)
  {
    if w == "" {
      assert w + t == t;
    } else {
      assert (w + t)[1..] == w[1..] + t;
      SkipBlank(w[1..], t);
    }
  }

  lemma {:induction false} TrimBlankEnd(t: string, w: string)
    requires Blank(w) && t != "" && !Whitespace(t[|t| - 1])
    ensures TrimEnd(t + w) == t
  {
    if w == "" {
      assert t + w == t;
    } else {
      var n := |w| - 1;
      assert (t + w)[..|t| + n] == t + w[..n];
      TrimBlankEnd(t, w[..n]);
    }
  }

  /** A member with the white space around its four tokens. */
  datatype Spaced = Spaced(before: string, key: string, afterKey: string, beforeValue: string, v: Value, afterValue: string)

  predicate ValidSpaced(m: Spaced) {
    Blank(m.before) && Blank(m.afterKey) && Blank(m.beforeValue) && Blank(m.afterValue) && ValidValue(m.v)
  }

  /** The value of a member and what follows it. */
  function ValueText(m: Spaced, tail: string): string {
    m.beforeValue + PrintTo(m.v, m.afterValue + tail)
  }

  function KeyText(m: Spaced, tail: string): string {
    ['\"'] + EscapeTo(m.key, ['\"'] + (m.afterKey + ([':'] + ValueText(m, tail))))
  }

  /** The members in front of the closing brace; the last one may be followed by a comma. */
  function SpacedTo(ms: seq<Spaced>, comma: bool, last: string): string {
    if ms == [] then last + ['}']
    else ms[0].before + KeyText(ms[0], if |ms| == 1 && !comma then ['}'] else [','] + SpacedTo(ms[1..], comma, last))
  }

  function SpacedArgs(ms: seq<Spaced>): seq<Arg> {
    if ms == [] then [] else [ArgOf(ms[0].key, ms[0].v)] + SpacedArgs(ms[1..])
  }

  predicate EndsMember(tail: string) { tail != "" && (tail[0] == ',' || tail[0] == '}') }

  lemma SpacedName(m: Spaced, tail: string)
    requires ValidSpaced(m)
    ensures ScanName(KeyText(m, tail)) == Some(Scanned(Mangled(m.key), PrintTo(m.v, m.afterValue + tail)))
  {
    var value := ValueText(m, tail);
    var left := m.afterKey + ([':'] + value);
    StringScans(m.key, left);
    SkipBlank(m.afterKey, [':'] + value);
    NoSpace([':'] + value);
    assert ([':'] + value)[1..] == value;
    SkipBlank(m.beforeValue, PrintTo(m.v, m.afterValue + tail));
    ValueReads(m.v, m.afterValue + tail);
    AfterKey(KeyText(m, tail), Scanned(Mangled(m.key), left));
  }

  lemma SpacedRest(m: Spaced, tail: string, after: string, t: string, text: string)
    requires ValidSpaced(m) && EndsMember(tail) && after == m.afterValue + tail
    requires t == PrintTo(m.v, after) && text == ArgText(m.v)
    ensures ScanRest(Mangled(m.key), t) == Then(Arg(Mangled(m.key), text, m.v.Str?), tail)
  {
    assert Stop(after[0]);
    ValueScans(m.v, after, t, text);
    SkipBlank(m.afterValue, tail);
    NoSpace(tail);
    RestIs(Mangled(m.key), t, after, text, m.v.Str?, tail);
  }

  lemma SpacedMember(m: Spaced, tail: string)
    requires ValidSpaced(m) && EndsMember(tail)
    ensures ScanMember(m.before + KeyText(m, tail)) == Then(ArgOf(m.key, m.v), tail)
  {
    SkipBlank(m.before, KeyText(m, tail));
    NoSpace(KeyText(m, tail));
    SpacedName(m, tail);
    SpacedRest(m, tail, m.afterValue + tail, PrintTo(m.v, m.afterValue + tail), ArgText(m.v));
    MemberIs(m.before + KeyText(m, tail), KeyText(m, tail), Mangled(m.key), PrintTo(m.v, m.afterValue + tail));
  }

  lemma MemberIs(t: string, atKey: string, name: string, left: string)
    requires SkipWs(t) == atKey && !Starts(atKey, '}') && ScanName(atKey) == Some(Scanned(name, left))
    ensures ScanMember(t) == ScanRest(name, left)
  {
  }

  lemma BraceIs(t: string, atKey: string)
    requires SkipWs(t) == atKey && Starts(atKey, '}')
    ensures ScanMember(t) == Done(Some([]))
  {
  }

  lemma NoMembers(t: string, atKey: string)
    requires t != "" && SkipWs(t) == atKey && Starts(atKey, '}')
    ensures ScansTo(t, [])
  {
    BraceIs(t, atKey);
    LastTurn(t, []);
  }

  lemma LastSpaced(m: Spaced, t: string)
    requires ValidSpaced(m) && t == m.before + KeyText(m, ['}'])
    ensures ScansTo(t, [ArgOf(m.key, m.v)])
  {
    SpacedMember(m, ['}']);
    LastTurn(t, [ArgOf(m.key, m.v)]);
  }

  lemma NextSpaced(m: Spaced, next: string, rest: seq<Arg>, t: string)
    requires ValidSpaced(m) && ScansTo(next, rest) && t == m.before + KeyText(m, [','] + next)
    ensures ScansTo(t, [ArgOf(m.key, m.v)] + rest)
  {
    var tail := [','] + next;
    assert tail[1..] == next;
    SpacedMember(m, tail);
    MoreTurn(t, ArgOf(m.key, m.v), next, rest);
  }

  /** Wrapped twice, so that an obligation to show it is not unfolded. */
  predicate ScansTo(t: string, args: seq<Arg>) { ScanIs(t, args) }

  predicate ScanIs(t: string, args: seq<Arg>) { ScanMembers(t) == Some(args) }

  lemma OneArg(ms: seq<Spaced>, m: Spaced)
    requires ms == [m]
    ensures SpacedArgs(ms) == [ArgOf(m.key, m.v)]
  {
    assert SpacedArgs(ms[1..]) == [];
  }

  lemma MoreSpaced(ms: seq<Spaced>, next: string, t: string)
    requires ms != [] && ValidSpaced(ms[0]) && t == ms[0].before + KeyText(ms[0], [','] + next)
    requires ScansTo(next, SpacedArgs(ms[1..]))
    ensures ScansTo(t, SpacedArgs(ms))
  {
    NextSpaced(ms[0], next, SpacedArgs(ms[1..]), t);
  }

  lemma {:induction false} SpacedMembers(ms: seq<Spaced>, comma: bool, last: string, t: string)
    requires Blank(last) && (forall m :: m in ms ==> ValidSpaced(m)) && t == SpacedTo(ms, comma, last)
    ensures ScansTo(t, SpacedArgs(ms))
    decreases |ms|
  {
    if ms == [] {
      SkipBlank(last, ['}']);
      NoSpace(['}']);
      NoMembers(t, ['}']);
    } else if |ms| == 1 && !comma {
      OneArg(ms, ms[0]);
      LastSpaced(ms[0], t);
    } else {
      var next := SpacedTo(ms[1..], comma, last);
      SpacedMembers(ms[1..], comma, last, next);
      MoreSpaced(ms, next, t);
    }
  }

  lemma {:induction false} SpacedEnds(ms: seq<Spaced>, comma: bool, last: string)
    ensures var t := SpacedTo(ms, comma, last); t != "" && t[|t| - 1] == '}'
    decreases |ms|
  {
    if ms == [] {
    } else {
      var tail := if |ms| == 1 && !comma then ['}'] else [','] + SpacedTo(ms[1..], comma, last);
      if !(|ms| == 1 && !comma) {
        SpacedEnds(ms[1..], comma, last);
      }
      KeyTextEnds(ms[0], tail);
    }
  }

  lemma KeyTextEnds(m: Spaced, tail: string)
    requires tail != ""
    ensures var t := KeyText(m, tail); t != "" && t[|t| - 1] == tail[|tail| - 1]
  {
    PrintSplits(m.v, m.afterValue + tail);
    EndsAs(m.afterValue, tail);
    EndsAs(Print(m.v), m.afterValue + tail);
    var value := ValueText(m, tail);
    var behind := m.afterKey + ([':'] + value);
    EscapeEnds(m.key, ['\"'] + behind);
  }

  lemma EndsAs(a: string, b: string)
    requires b != ""
    ensures a + b != "" && (a + b)[|a + b| - 1] == b[|b| - 1]
  {
  }

  lemma EscapeEnds(s: string, k: string)
    requires k != ""
    ensures var t := EscapeTo(s, k); t != "" && t[|t| - 1] == k[|k| - 1]
  {
    EscapeAppends(s, "", k);
    assert "" + k == k;
    EndsAs(EscapeTo(s, ""), k);
  }

  /**
   White space of any kind anywhere between the tokens at the top, also around the object, and a comma
   behind the last member make no difference to what the scanner returns.
   */
  lemma ScannerSkipsSpace(ms: seq<Spaced>, comma: bool, last: string, lead: string, trail: string)
    requires Blank(last) && Blank(lead) && Blank(trail) && forall m :: m in ms ==> ValidSpaced(m)
    ensures ScanArguments(lead + ((['{'] + SpacedTo(ms, comma, last)) + trail)) == Some(SpacedArgs(ms))
  {
    var inner := SpacedTo(ms, comma, last);
    var t := ['{'] + inner;
    SpacedEnds(ms, comma, last);
    SkipBlank(lead, t + trail);
    NoSpace(t + trail);
    TrimBlankEnd(t, trail);
    SpacedMembers(ms, comma, last, inner);
    TrimmedScan(lead + (t + trail), t, inner);
  }

  lemma TrimmedScan(input: string, t: string, inner: string)
    requires Trim(input) == t && t == ['{'] + inner && inner != "" && inner[|inner| - 1] == '}'
    ensures ScanArguments(input) == ScanMembers(inner)
  {
    assert t[1..] == inner;
  }

  // ---------------------------------------------------------------- what ends a literal, and what is refused

  /** A value that is no string, object or array ends at the first comma, brace or white space. */
  lemma {:induction false} LiteralRuns(a: string, b: string)
    requires forall i :: 0 <= i < |a| ==> a[i] != ',' && a[i] != '}' && !Whitespace(a[i])
    requires b == "" || b[0] == ',' || b[0] == '}' || Whitespace(b[0])
    ensures LiteralEnd(a + b) == b
  {
    if a == "" {
      assert a + b == b;
    } else {
      assert (a + b)[1..] == a[1..] + b;
      LiteralRuns(a[1..], b);
    }
  }

  /** Without a colon behind the key there is no member. */
  lemma NoColon(key: string, w: string, rest: string)
    requires Blank(w) && (rest == "" || (rest[0] != ':' && !Whitespace(rest[0])))
    ensures ScanName(['\"'] + EscapeTo(key, ['\"'] + (w + rest))).None?
  {
    StringScans(key, w + rest);
    SkipBlank(w, rest);
    assert SkipWs(rest) == rest;
    AfterKey(['\"'] + EscapeTo(key, ['\"'] + (w + rest)), Scanned(Mangled(key), w + rest));
  }

  /** Behind a value comes a comma or the closing brace, or the whole object is refused. */
  lemma NoSeparator(name: string, v: Value, w: string, rest: string, t: string)
    requires ValidValue(v) && Blank(w) && w != "" && t == PrintTo(v, w + rest)
    requires rest == "" || (rest[0] != ',' && rest[0] != '}' && !Whitespace(rest[0]))
    ensures ScanRest(name, t) == Done(None)
  {
    assert Stop((w + rest)[0]);
    ValueScans(v, w + rest, t, ArgText(v));
    SkipBlank(w, rest);
    assert SkipWs(rest) == rest;
    RefusedBehind(name, t, w + rest, rest);
  }

  lemma RefusedBehind(name: string, t: string, after: string, next: string)
    requires ValueEnd(t) == Some(after) && SkipWs(after) == next && !Starts(next, ',') && !Starts(next, '}')
    ensures ScanRest(name, t) == Done(None)
  {
  }
}
