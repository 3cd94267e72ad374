/** The hand-written scanner of tool-call arguments, and the compact printer it should undo. */
module Json {
  import opened Wrappers
  import opened Seqs

  // ---------------------------------------------------------------- values and their compact text

  /** JSON values as in RFC 8259; numbers and the three names are literals. */
  datatype Value =
    | Str(s: string)
    | Literal(text: string)
    | Arr(elems: Elems)
    | Obj(members: Members)
  datatype Elems = NoElem | Elem(v: Value, rest: Elems)
  datatype Members = NoMember | Member(key: string, value: Value, more: Members)

  predicate LiteralChar(c: char) {
    'a' <= c <= 'z' || 'A' <= c <= 'Z' || '0' <= c <= '9' || c == '-' || c == '+' || c == '.'
  }

  predicate ValidValue(v: Value) {
    match v
    case Str(_) => true
    case Literal(t) => t != "" && forall i :: 0 <= i < |t| ==> LiteralChar(t[i])
    case Arr(es) => ValidElems(es)
    case Obj(ms) => ValidMembers(ms)
  }

  predicate ValidElems(es: Elems) {
    match es
    case NoElem => true
    case Elem(v, rest) => ValidValue(v) && ValidElems(rest)
  }

  predicate ValidMembers(ms: Members) {
    match ms
    case NoMember => true
    case Member(_, v, more) => ValidValue(v) && ValidMembers(more)
  }

  /** Control characters that are written as `\u00XX`. */
  predicate Odd(c: char) {
    (c as int) < 0x20 && c != '\n' && c != '\r' && c != '\t'
  }

  function HexDigit(n: nat): char
    requires n < 16
  {
    if n < 10 then '0' + n as char else 'a' + (n - 10) as char
  }

  function UnicodeEscape(c: char): (e: string)
    requires Odd(c)
    ensures |e| == 5
  {
    ['u', '0', '0', HexDigit(c as int / 16), HexDigit(c as int % 16)]
  }

  /** What follows the backslash for a character that needs one. */
  function Short(c: char): Option<char> {
    if c == '\\' then Some('\\')
    else if c == '\"' then Some('\"')
    else if c == '\n' then Some('n')
    else if c == '\r' then Some('r')
    else if c == '\t' then Some('t')
    else None
  }

  /** The escape of one character, in front of what follows. */
  function EscapeCharTo(c: char, k: string): string {
    if Short(c).Some? then ['\\'] + ([Short(c).value] + k)
    else if Odd(c) then ['\\'] + (UnicodeEscape(c) + k)
    else [c] + k
  }

  /** `json_escape(s)` in front of `k`. */
  function EscapeTo(s: string, k: string): string {
    if s == "" then k else EscapeCharTo(s[0], EscapeTo(s[1..], k))
  }

  /** A value's compact text in front of `k`. */
  function PrintTo(v: Value, k: string): string {
    match v
    case Str(s) => ['\"'] + EscapeTo(s, ['\"'] + k)
    case Literal(t) => t + k
    case Arr(es) => ['['] + ElemsTo(es, [']'] + k)
    case Obj(ms) => ['{'] + MembersTo(ms, ['}'] + k)
  }

  function ElemsTo(es: Elems, k: string): string {
    match es
    case NoElem => k
    case Elem(v, rest) => PrintTo(v, if rest.NoElem? then k else [','] + ElemsTo(rest, k))
  }

  function MembersTo(ms: Members, k: string): string {
    match ms
    case NoMember => k
    case Member(key, v, more) =>
      ['\"'] + EscapeTo(key, ['\"'] + ([':'] + PrintTo(v, if more.NoMember? then k else [','] + MembersTo(more, k))))
  }

  function Print(v: Value): string {
    PrintTo(v, "")
  }

  /** The text one character becomes. */
  method EscapeChar(ch: char) returns (e: string)
    ensures forall k :: EscapeCharTo(ch, k) == e + k
  {
    if Short(ch).Some? {
      e := ['\\', Short(ch).value];
    } else if Odd(ch) {
      e := ['\\'] + UnicodeEscape(ch);
    } else {
      e := [ch];
    }
  }

  /** `json_escape` */
  method JsonEscape(input: string) returns (out: string)
    ensures out == EscapeTo(input, "")
  {
    out := "";
    for i := 0 to |input|
      invariant EscapeTo(input, "") == out + EscapeTo(input[i..], "")
    {
      ghost var k := EscapeTo(input[i + 1..], "");
      assert input[i..][1..] == input[i + 1..];
      var e := EscapeChar(input[i]);
      assert EscapeCharTo(input[i], k) == e + k;
      Regroup(out, e, k);
      out := out + e;
    }
  }

  // ---------------------------------------------------------------- scanning strings

  /** A suffix of `t`: what is left to read. */
  predicate Left(r: string, t: string) {
    |r| <= |t| && t[|t| - |r|..] == r
  }

  lemma LeftTrans(a: string, b: string, c: string)
    requires Left(a, b) && Left(b, c)
    ensures Left(a, c)
  {
    assert c[|c| - |b|..][|b| - |a|..] == c[|c| - |a|..];
  }

  datatype Scanned = Scanned(text: string, left: string)

  function Unescaped(c: char): char {
    if c == 'n' then '\n' else if c == 'r' then '\r' else if c == 't' then '\t' else c
  }

  /** A string's characters up to the closing quote; `None` if there is none. */
  function StringBody(t: string, escaped: bool): (o: Option<Scanned>)
    ensures o.Some? ==> Left(o.value.left, t) && |o.value.left| < |t|
  {
    if t == "" then None
    else if escaped then
      var rest :- StringBody(t[1..], false);
      Some(Scanned([Unescaped(t[0])] + rest.text, rest.left))
    else if t[0] == '\\' then StringBody(t[1..], true)
    else if t[0] == '\"' then Some(Scanned("", t[1..]))
    else
      var rest :- StringBody(t[1..], false);
      Some(Scanned([t[0]] + rest.text, rest.left))
  }

  /** `parse_json_string_at` */
  function ScanString(t: string): (o: Option<Scanned>)
    ensures o.Some? ==> Left(o.value.left, t) && |o.value.left| < |t|
  {
    if t == "" || t[0] != '\"' then None else StringBody(t[1..], false)
  }

  ghost function Behind(done: string, rest: Option<Scanned>): Option<Scanned> {
    if rest.None? then None else Some(Scanned(done + rest.value.text, rest.value.left))
  }

  method ParseStringAt(input: string, start: nat) returns (o: Option<Scanned>)
    requires start <= |input|
    ensures o == ScanString(input[start..])
  {
    if start == |input| || input[start] != '\"' {
      return None;
    }
    var out := "";
    var escaped := false;
    assert input[start..][1..] == input[start + 1..];
    BehindNothing(ScanString(input[start..]));
    for pos := start + 1 to |input|
      invariant ScanString(input[start..]) == Behind(out, StringBody(input[pos..], escaped))
    {
      var ch := input[pos];
      assert input[pos..][1..] == input[pos + 1..];
      BehindOne(out, if escaped then Unescaped(ch) else ch, StringBody(input[pos + 1..], false));
      if escaped {
        out := out + [Unescaped(ch)];
        escaped := false;
        continue;
      }
      if ch == '\\' {
        escaped := true;
      } else if ch == '\"' {
        assert out + "" == out;
        return Some(Scanned(out, input[pos + 1..]));
      } else {
        out := out + [ch];
      }
    }
    o := None;
  }

  lemma BehindNothing(rest: Option<Scanned>)
    ensures Behind("", rest) == rest
  {
    if rest.Some? {
      assert "" + rest.value.text == rest.value.text;
    }
  }

  lemma BehindOne(done: string, c: char, rest: Option<Scanned>)
    ensures rest.Some? ==> Behind(done, Some(Scanned([c] + rest.value.text, rest.value.left))) == Behind(done + [c], rest)
  {
    if rest.Some? {
      assert done + ([c] + rest.value.text) == (done + [c]) + rest.value.text;
    }
  }

  /** What the scanner makes of an escaped string: `\u00XX` loses its backslash. */
  function Mangled(s: string): string {
    if s == "" then "" else (if Odd(s[0]) then UnicodeEscape(s[0]) else [s[0]]) + Mangled(s[1..])
  }

  predicate Plain(s: string) {
    forall i :: 0 <= i < |s| ==> !Odd(s[i])
  }

  /** Strings are given back exactly when they hold no odd control character. */
  lemma {:induction false} MangledIsSame(s: string)
    ensures |Mangled(s)| >= |s|
    ensures if Plain(s) then Mangled(s) == s else |Mangled(s)| > |s|
  {
    if s == "" {
    } else {
      MangledIsSame(s[1..]);
      assert Plain(s) <==> !Odd(s[0]) && Plain(s[1..]);
    }
  }

  lemma PlainCharsScan(c: char, k: string)
    requires c != '\\' && c != '\"'
    ensures StringBody([c] + k, false) == Behind([c], StringBody(k, false))
  {
    assert ([c] + k)[1..] == k;
  }

  lemma EscapedCharScans(c: char, k: string)
    ensures StringBody(['\\'] + ([c] + k), false) == Behind([Unescaped(c)], StringBody(k, false))
  {
    assert (['\\'] + ([c] + k))[1..] == [c] + k && ([c] + k)[1..] == k;
  }

  lemma BehindTwice(a: string, b: string, rest: Option<Scanned>)
    ensures Behind(a, Behind(b, rest)) == Behind(a + b, rest)
  {
    if rest.Some? {
      assert a + (b + rest.value.text) == (a + b) + rest.value.text;
    }
  }

  /** A plain character before text that is taken as it stands. */
  lemma PlainThenScan(c: char, t: string, k: string)
    requires c != '\\' && c != '\"' && StringBody(t + k, false) == Behind(t, StringBody(k, false))
    ensures StringBody(([c] + t) + k, false) == Behind([c] + t, StringBody(k, false))
  {
    assert ([c] + t) + k == [c] + (t + k);
    PlainCharsScan(c, t + k);
    BehindTwice([c], t, StringBody(k, false));
  }

  lemma TwoCharsScan(a: char, b: char, k: string)
    requires a != '\\' && a != '\"' && b != '\\' && b != '\"'
    ensures StringBody(([a] + [b]) + k, false) == Behind([a] + [b], StringBody(k, false))
  {
    PlainCharsScan(b, k);
    PlainThenScan(a, [b], k);
  }

  lemma DigitsScan(h1: char, h2: char, k: string)
    requires h1 != '\\' && h1 != '\"' && h2 != '\\' && h2 != '\"'
    ensures StringBody(['\\'] + (['u', '0', '0', h1, h2] + k), false) == Behind(['u', '0', '0', h1, h2], StringBody(k, false))
  {
    var one := [h1] + [h2];
    var two := ['0'] + one;
    var three := ['0'] + two;
    assert ['u', '0', '0', h1, h2] == ['u'] + three && ['u', '0', '0', h1, h2] + k == ['u'] + (three + k);
    TwoCharsScan(h1, h2, k);
    PlainThenScan('0', one, k);
    PlainThenScan('0', two, k);
    EscapedCharScans('u', three + k);
    BehindTwice(['u'], three, StringBody(k, false));
  }

  lemma HexScans(c: char, k: string)
    requires Odd(c)
    ensures StringBody(['\\'] + (UnicodeEscape(c) + k), false) == Behind(UnicodeEscape(c), StringBody(k, false))
  {
    var h1, h2 := HexDigit(c as int / 16), HexDigit(c as int % 16);
    assert UnicodeEscape(c) == ['u', '0', '0', h1, h2];
    DigitsScan(h1, h2, k);
  }

  lemma CharScans(c: char, k: string)
    ensures StringBody(EscapeCharTo(c, k), false) == Behind(if Odd(c) then UnicodeEscape(c) else [c], StringBody(k, false))
  {
    if Short(c).Some? {
      EscapedCharScans(Short(c).value, k);
    } else if Odd(c) {
      HexScans(c, k);
    } else {
      PlainCharsScan(c, k);
    }
  }

  /** Scanning what was escaped. */
  lemma {:induction false} BodyScans(s: string, k: string)
    ensures StringBody(EscapeTo(s, ['\"'] + k), false) == Some(Scanned(Mangled(s), k))
  {
    if s == "" {
      assert (['\"'] + k)[1..] == k;
    } else {
      CharScans(s[0], EscapeTo(s[1..], ['\"'] + k));
      BodyScans(s[1..], k);
    }
  }

  lemma StringScans(s: string, k: string)
    ensures ScanString(['\"'] + EscapeTo(s, ['\"'] + k)) == Some(Scanned(Mangled(s), k))
  {
    BodyScans(s, k);
    assert (['\"'] + EscapeTo(s, ['\"'] + k))[1..] == EscapeTo(s, ['\"'] + k);
  }
}
