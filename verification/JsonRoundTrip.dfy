/** The scanner undoes the compact printer, at any nesting depth. */
module JsonRoundTrip {
  import opened Wrappers
  import opened Json
  import opened JsonArguments
  import opened Seqs

  // ---------------------------------------------------------------- delimiters pass over whole values

  /** Inside a string every escape is passed over. */
  lemma PassEscape(c: char, k: string, d: Delims, depth: nat)
    ensures MatchDelim(['\\'] + ([c] + k), d, depth, true, false) == MatchDelim(k, d, depth, true, false)
  {
    assert (['\\'] + ([c] + k))[1..] == [c] + k && ([c] + k)[1..] == k;
  }

  lemma PassPlain(c: char, k: string, d: Delims, depth: nat)
    requires c != '\\' && c != '\"'
    ensures MatchDelim([c] + k, d, depth, true, false) == MatchDelim(k, d, depth, true, false)
  {
    assert ([c] + k)[1..] == k;
  }

  lemma PassHex(c: char, k: string, d: Delims, depth: nat)
    requires Odd(c)
    ensures MatchDelim(['\\'] + (UnicodeEscape(c) + k), d, depth, true, false) == MatchDelim(k, d, depth, true, false)
  {
    var h1, h2 := HexDigit(c as int / 16), HexDigit(c as int % 16);
    var k2 := [h2] + k;
    var k1 := [h1] + k2;
    var k0 := ['0'] + k1;
    assert UnicodeEscape(c) + k == ['u'] + (['0'] + k0);
    PassEscape('u', ['0'] + k0, d, depth);
    PassPlain('0', k0, d, depth);
    PassPlain('0', k1, d, depth);
    PassPlain(h1, k2, d, depth);
    PassPlain(h2, k, d, depth);
  }

  lemma {:induction false} PassBody(s: string, k: string, d: Delims, depth: nat)
    ensures MatchDelim(EscapeTo(s, ['\"'] + k), d, depth, true, false) == MatchDelim(k, d, depth, false, false)
  {
    if s == "" {
      assert (['\"'] + k)[1..] == k;
    } else {
      var c, more := s[0], EscapeTo(s[1..], ['\"'] + k);
      if Short(c).Some? {
        PassEscape(Short(c).value, more, d, depth);
      } else if Odd(c) {
        PassHex(c, more, d, depth);
      } else {
        PassPlain(c, more, d, depth);
      }
      PassBody(s[1..], k, d, depth);
    }
  }

  lemma PassString(s: string, k: string, d: Delims, depth: nat)
    ensures MatchDelim(['\"'] + EscapeTo(s, ['\"'] + k), d, depth, false, false) == MatchDelim(k, d, depth, false, false)
  {
    assert (['\"'] + EscapeTo(s, ['\"'] + k))[1..] == EscapeTo(s, ['\"'] + k);
    PassBody(s, k, d, depth);
  }

  predicate Neutral(c: char) {
    c != '\"' && c != '{' && c != '}' && c != '[' && c != ']'
  }

  lemma PassNeutral(c: char, k: string, d: Delims, depth: nat)
    requires Neutral(c)
    ensures MatchDelim([c] + k, d, depth, false, false) == MatchDelim(k, d, depth, false, false)
  {
    assert ([c] + k)[1..] == k;
  }

  lemma {:induction false} PassLiteral(t: string, k: string, d: Delims, depth: nat)
    requires forall i :: 0 <= i < |t| ==> LiteralChar(t[i])
    ensures MatchDelim(t + k, d, depth, false, false) == MatchDelim(k, d, depth, false, false)
  {
    if t == "" {
      assert t + k == k;
    } else {
      assert t + k == [t[0]] + (t[1..] + k);
      PassNeutral(t[0], t[1..] + k, d, depth);
      PassLiteral(t[1..], k, d, depth);
    }
  }

  /** Below the top, a pair of delimiters and a balanced inside leave the depth as it was. */
  lemma PassPair(own: Delims, inside: string, k: string, d: Delims, depth: nat)
    requires depth >= 1
    requires forall n: nat {:trigger MatchDelim(inside, d, n, false, false)} :: n >= 1 ==>
      MatchDelim(inside, d, n, false, false) == MatchDelim([Close(own)] + k, d, n, false, false)
    ensures MatchDelim([Open(own)] + inside, d, depth, false, false) == MatchDelim(k, d, depth, false, false)
  {
    assert ([Open(own)] + inside)[1..] == inside && ([Close(own)] + k)[1..] == k;
    var deeper := if own == d then depth + 1 else depth;
    assert MatchDelim(inside, d, deeper, false, false) == MatchDelim([Close(own)] + k, d, deeper, false, false);
  }

  lemma {:induction false} PassValue(v: Value, k: string, d: Delims, depth: nat)
    requires ValidValue(v) && depth >= 1
    ensures MatchDelim(PrintTo(v, k), d, depth, false, false) == MatchDelim(k, d, depth, false, false)
    decreases v
  {
    match v
    case Str(s) => PassString(s, k, d, depth);
    case Literal(t) => PassLiteral(t, k, d, depth);
    case Arr(es) =>
      forall n: nat | n >= 1
        ensures MatchDelim(ElemsTo(es, [']'] + k), d, n, false, false) == MatchDelim([']'] + k, d, n, false, false)
      {
        PassElems(es, [']'] + k, d, n);
      }
      PassPair(Brackets, ElemsTo(es, [']'] + k), k, d, depth);
    case Obj(ms) =>
      forall n: nat | n >= 1
        ensures MatchDelim(MembersTo(ms, ['}'] + k), d, n, false, false) == MatchDelim(['}'] + k, d, n, false, false)
      {
        PassMembers(ms, ['}'] + k, d, n);
      }
      PassPair(Braces, MembersTo(ms, ['}'] + k), k, d, depth);
  }

  lemma {:induction false} PassElems(es: Elems, k: string, d: Delims, depth: nat)
    requires ValidElems(es) && depth >= 1
    ensures MatchDelim(ElemsTo(es, k), d, depth, false, false) == MatchDelim(k, d, depth, false, false)
    decreases es
  {
    match es
    case NoElem =>
    case Elem(v, rest) =>
      if rest.NoElem? {
        PassValue(v, k, d, depth);
      } else {
        PassValue(v, [','] + ElemsTo(rest, k), d, depth);
        PassNeutral(',', ElemsTo(rest, k), d, depth);
        PassElems(rest, k, d, depth);
      }
  }

  /** The text after a member's key. */
  function AfterKeyText(v: Value, more: Members, k: string): string {
    PrintTo(v, if more.NoMember? then k else [','] + MembersTo(more, k))
  }

  lemma {:induction false} PassMembers(ms: Members, k: string, d: Delims, depth: nat)
    requires ValidMembers(ms) && depth >= 1
    ensures MatchDelim(MembersTo(ms, k), d, depth, false, false) == MatchDelim(k, d, depth, false, false)
    decreases ms
  {
    match ms
    case NoMember =>
    case Member(key, v, more) =>
      var body := AfterKeyText(v, more, k);
      PassString(key, [':'] + body, d, depth);
      PassNeutral(':', body, d, depth);
      if more.NoMember? {
        PassValue(v, k, d, depth);
      } else {
        PassValue(v, [','] + MembersTo(more, k), d, depth);
        PassNeutral(',', MembersTo(more, k), d, depth);
        PassMembers(more, k, d, depth);
      }
  }

  // ---------------------------------------------------------------- the end of a printed value

  lemma OwnPairEnds(own: Delims, inside: string, k: string)
    requires MatchDelim(inside, own, 1, false, false) == MatchDelim([Close(own)] + k, own, 1, false, false)
    ensures MatchDelim([Open(own)] + inside, own, 0, false, false) == Some(k)
  {
    assert ([Open(own)] + inside)[1..] == inside && ([Close(own)] + k)[1..] == k;
  }

  lemma LiteralCharGoesOn(c: char)
    requires LiteralChar(c)
    ensures !Stop(c) && !Whitespace(c) && c != '\"' && c != '{' && c != '['
  {
  }

  lemma LiteralStep(c: char, k: string)
    requires !Stop(c)
    ensures LiteralEnd([c] + k) == LiteralEnd(k)
  {
    assert ([c] + k)[1..] == k;
  }

  lemma {:induction false} LiteralEnds(t: string, k: string)
    requires (forall i :: 0 <= i < |t| ==> LiteralChar(t[i])) && k != "" && Stop(k[0])
    ensures LiteralEnd(t + k) == k
  {
    if t == "" {
      assert t + k == k;
    } else {
      LiteralCharGoesOn(t[0]);
      assert t + k == [t[0]] + (t[1..] + k);
      LiteralEnds(t[1..], k);
      LiteralStep(t[0], t[1..] + k);
    }
  }

  /** The end that is found is the end of the value, when a comma, a brace or white space follows. */
  lemma ValueEnds(v: Value, k: string)
    requires ValidValue(v) && k != "" && Stop(k[0])
    ensures ValueEnd(PrintTo(v, k)) == Some(k)
  {
    match v
    case Str(s) => StringScans(s, k);
    case Literal(t) =>
      LiteralCharGoesOn(t[0]);
      LiteralEnds(t, k);
    case Arr(es) =>
      PassElems(es, [']'] + k, Brackets, 1);
      OwnPairEnds(Brackets, ElemsTo(es, [']'] + k), k);
    case Obj(ms) =>
      PassMembers(ms, ['}'] + k, Braces, 1);
      OwnPairEnds(Braces, MembersTo(ms, ['}'] + k), k);
  }

  // ---------------------------------------------------------------- the text of a printed value

  lemma {:induction false} EscapeAppends(s: string, k: string, l: string)
    ensures EscapeTo(s, k + l) == EscapeTo(s, k) + l
  {
    if s == "" {
    } else {
      EscapeAppends(s[1..], k, l);
      var m := EscapeTo(s[1..], k);
      EscapeCharAppends(s[0], m, l);
    }
  }

  lemma EscapeCharAppends(c: char, m: string, l: string)
    ensures EscapeCharTo(c, m + l) == EscapeCharTo(c, m) + l
  {
    if Short(c).Some? {
      Cons(Short(c).value, m, l);
      Cons('\\', [Short(c).value] + m, l);
    } else if Odd(c) {
      Regroup(UnicodeEscape(c), m, l);
      Cons('\\', UnicodeEscape(c) + m, l);
    } else {
      Cons(c, m, l);
    }
  }

  lemma Cons(c: char, m: string, l: string)
    ensures ([c] + m) + l == [c] + (m + l)
  {
  }

  /** Printing in front of a text is printing, then the text. */
  lemma {:induction false} PrintAppends(v: Value, k: string, l: string)
    ensures PrintTo(v, k + l) == PrintTo(v, k) + l
    decreases v
  {
    match v
    case Str(s) =>
      Cons('\"', k, l);
      EscapeAppends(s, ['\"'] + k, l);
      Cons('\"', EscapeTo(s, ['\"'] + k), l);
    case Literal(t) => Regroup(t, k, l);
    case Arr(es) =>
      Cons(']', k, l);
      ElemsAppend(es, [']'] + k, l);
      Cons('[', ElemsTo(es, [']'] + k), l);
    case Obj(ms) =>
      Cons('}', k, l);
      MembersAppend(ms, ['}'] + k, l);
      Cons('{', MembersTo(ms, ['}'] + k), l);
  }

  lemma {:induction false} ElemsAppend(es: Elems, k: string, l: string)
    ensures ElemsTo(es, k + l) == ElemsTo(es, k) + l
    decreases es
  {
    match es
    case NoElem =>
    case Elem(v, rest) =>
      if rest.NoElem? {
        PrintAppends(v, k, l);
      } else {
        ElemsAppend(rest, k, l);
        Cons(',', ElemsTo(rest, k), l);
        PrintAppends(v, [','] + ElemsTo(rest, k), l);
      }
  }

  lemma {:induction false} MembersAppend(ms: Members, k: string, l: string)
    ensures MembersTo(ms, k + l) == MembersTo(ms, k) + l
    decreases ms
  {
    match ms
    case NoMember =>
    case Member(key, v, more) =>
      var body := AfterKeyText(v, more, k);
      if more.NoMember? {
        PrintAppends(v, k, l);
      } else {
        MembersAppend(more, k, l);
        Cons(',', MembersTo(more, k), l);
        PrintAppends(v, [','] + MembersTo(more, k), l);
      }
      Cons(':', body, l);
      Cons('\"', [':'] + body, l);
      EscapeAppends(key, ['\"'] + ([':'] + body), l);
      Cons('\"', EscapeTo(key, ['\"'] + ([':'] + body)), l);
  }

  lemma PrintSplits(v: Value, k: string)
    ensures PrintTo(v, k) == Print(v) + k
  {
    PrintAppends(v, "", k);
    assert "" + k == k;
  }

  /** No white space at either end, so that trimming changes nothing. */
  lemma NotTrimmed(s: string)
    requires s != "" && !Whitespace(s[0]) && !Whitespace(s[|s| - 1])
    ensures Trim(s) == s
  {
  }

  predicate Quoted(p: string) { Starts(p, '\"') }

  lemma FirstAndLast(v: Value)
    requires ValidValue(v)
    ensures var p := Print(v); p != "" && !Whitespace(p[0]) && !Whitespace(p[|p| - 1])
    ensures Quoted(Print(v)) <==> v.Str?
  {
    match v
    case Str(s) =>
      EscapeAppends(s, "", ['\"'] + "");
      assert "" + (['\"'] + "") == ['\"'] + "";
    case Literal(t) =>
      assert t + "" == t;
      LiteralCharGoesOn(t[0]);
      LiteralCharGoesOn(t[|t| - 1]);
    case Arr(es) =>
      ElemsAppend(es, "", [']'] + "");
      assert "" + ([']'] + "") == [']'] + "";
    case Obj(ms) =>
      MembersAppend(ms, "", ['}'] + "");
      assert "" + (['}'] + "") == ['}'] + "";
  }

  // ---------------------------------------------------------------- the round trip

  /** What the scanner returns for a member: strings decoded, other values as their exact text. */
  function ArgOf(key: string, v: Value): Arg {
    Arg(Mangled(key), ArgText(v), v.Str?)
  }

  function ArgText(v: Value): string {
    if v.Str? then Mangled(v.s) else Print(v)
  }

  function ArgsOf(ms: Members): seq<Arg> {
    match ms
    case NoMember => []
    case Member(key, v, more) =>
      [ArgOf(key, v)] + ArgsOf(more)
  }

  /** What it should return. */
  function Intended(ms: Members): seq<Arg> {
    match ms
    case NoMember => []
    case Member(key, v, more) => [Arg(key, if v.Str? then v.s else Print(v), v.Str?)] + Intended(more)
  }

  /** No key and no string at the top holds a control character besides newline, return and tab. */
  predicate PlainTop(ms: Members) {
    match ms
    case NoMember => true
    case Member(key, v, more) => Json.Plain(key) && (v.Str? ==> Json.Plain(v.s)) && PlainTop(more)
  }

  lemma NoSpace(t: string)
    requires t != "" && !Whitespace(t[0])
    ensures SkipWs(t) == t
  {
  }

  lemma ValueReads(v: Value, k: string)
    requires ValidValue(v)
    ensures Left(k, PrintTo(v, k))
    ensures ReadValue(PrintTo(v, k), k) == Some((ArgText(v), v.Str?))
    ensures SkipWs(PrintTo(v, k)) == PrintTo(v, k)
  {
    var t, p := PrintTo(v, k), Print(v);
    PrintSplits(v, k);
    FirstAndLast(v);
    NotTrimmed(p);
    assert t[..|t| - |k|] == p && t[|t| - |k|..] == k && t[0] == p[0];
    NoSpace(t);
    if v.Str? {
      StringScans(v.s, k);
    }
  }

  function MemberText(key: string, v: Value, tail: string): string {
    ['\"'] + EscapeTo(key, ['\"'] + ([':'] + PrintTo(v, tail)))
  }

  lemma NameScans(key: string, v: Value, tail: string)
    requires ValidValue(v)
    ensures ScanName(MemberText(key, v, tail)) == Some(Scanned(Mangled(key), PrintTo(v, tail)))
  {
    var body := PrintTo(v, tail);
    StringScans(key, [':'] + body);
    NoSpace([':'] + body);
    assert ([':'] + body)[1..] == body;
    ValueReads(v, tail);
    AfterKey(MemberText(key, v, tail), Scanned(Mangled(key), [':'] + body));
  }

  lemma ValueScans(v: Value, tail: string, t: string, text: string)
    requires ValidValue(v) && tail != "" && Stop(tail[0])
    requires t == PrintTo(v, tail) && text == ArgText(v)
    ensures ValueEnd(t) == Some(tail) && ReadValue(t, tail) == Some((text, v.Str?))
  {
    ValueReads(v, tail);
    ValueEnds(v, tail);
  }

  lemma RestScans(name: string, v: Value, tail: string, t: string, text: string)
    requires ValidValue(v) && tail != "" && (tail[0] == ',' || tail[0] == '}')
    requires t == PrintTo(v, tail) && text == ArgText(v)
    ensures ScanRest(name, t) == Then(Arg(name, text, v.Str?), tail)
  {
    ValueScans(v, tail, t, text);
    NoSpace(tail);
    RestIs(name, t, tail, text, v.Str?, tail);
  }

  /** The scan's outcome after a member that is followed by a comma or the closing brace. */
  function Then(arg: Arg, tail: string): Scan
    requires tail != ""
  {
    if tail[0] == ',' then More(arg, tail[1..]) else Done(Some([arg]))
  }

  lemma RestIs(name: string, t: string, after: string, text: string, isString: bool, next: string)
    requires ValueEnd(t) == Some(after) && ReadValue(t, after) == Some((text, isString)) && SkipWs(after) == next
    requires next != "" && (next[0] == ',' || next[0] == '}')
    ensures ScanRest(name, t) == Then(Arg(name, text, isString), next)
  {
  }

  lemma LastTurn(t: string, args: seq<Arg>)
    requires t != "" && ScanMember(t) == Done(Some(args))
    ensures ScanMembers(t) == Some(args)
  {
  }

  lemma MoreTurn(t: string, arg: Arg, left: string, rest: seq<Arg>)
    requires t != "" && ScanMember(t) == More(arg, left) && ScanMembers(left) == Some(rest)
    ensures ScanMembers(t) == Some([arg] + rest)
  {
  }

  /** One printed member, then a comma or the closing brace. */
  lemma MemberScans(key: string, v: Value, tail: string)
    requires ValidValue(v) && tail != "" && (tail[0] == ',' || tail[0] == '}')
    ensures ScanMember(MemberText(key, v, tail)) == Then(ArgOf(key, v), tail)
  {
    NoSpace(MemberText(key, v, tail));
    NameScans(key, v, tail);
    RestScans(Mangled(key), v, tail, PrintTo(v, tail), ArgText(v));
  }

  lemma LastMember(key: string, v: Value)
    requires ValidValue(v)
    ensures ScanMembers(MemberText(key, v, ['}'])) == Some([ArgOf(key, v)])
  {
    MemberScans(key, v, ['}']);
    LastTurn(MemberText(key, v, ['}']), [ArgOf(key, v)]);
  }

  lemma NextMember(key: string, v: Value, next: string, rest: seq<Arg>)
    requires ValidValue(v) && ScanMembers(next) == Some(rest)
    ensures ScanMembers(MemberText(key, v, [','] + next)) == Some([ArgOf(key, v)] + rest)
  {
    var tail := [','] + next;
    assert tail[1..] == next;
    MemberScans(key, v, tail);
    MoreTurn(MemberText(key, v, tail), ArgOf(key, v), next, rest);
  }

  lemma {:induction false} MembersScan(ms: Members)
    requires ValidMembers(ms)
    ensures ScanMembers(MembersTo(ms, ['}'])) == Some(ArgsOf(ms))
    decreases ms
  {
    match ms
    case NoMember =>
      NoSpace(['}']);
      LastTurn(['}'], []);
    case Member(key, v, more) =>
      if more.NoMember? {
        LastMember(key, v);
        assert [ArgOf(key, v)] + [] == [ArgOf(key, v)];
      } else {
        MembersScan(more);
        NextMember(key, v, MembersTo(more, ['}']), ArgsOf(more));
      }
  }

  lemma {:induction false} PlainTopIsIntended(ms: Members)
    ensures ArgsOf(ms) == Intended(ms) <==> PlainTop(ms)
    ensures |ArgsOf(ms)| == |Intended(ms)|
    decreases ms
  {
    match ms
    case NoMember =>
    case Member(key, v, more) =>
      PlainTopIsIntended(more);
      MangledIsSame(key);
      if v.Str? {
        MangledIsSame(v.s);
      }
      var a, b := ArgsOf(ms), Intended(ms);
      assert a[1..] == ArgsOf(more) && b[1..] == Intended(more);
      assert a == [a[0]] + a[1..] && b == [b[0]] + b[1..];
  }

  /**
   For every object printed compactly, the scanner returns its members in order, strings decoded and
   other values as their exact text at any depth; it is right exactly when the keys and strings at
   the top hold no control character besides newline, return and tab.
   */
  lemma ScannerUndoesPrinter(ms: Members)
    requires ValidMembers(ms)
    ensures ScanArguments(Print(Obj(ms))) == Some(ArgsOf(ms))
    ensures ScanArguments(Print(Obj(ms))) == Some(Intended(ms)) <==> PlainTop(ms)
  {
    var t := Print(Obj(ms));
    FirstAndLast(Obj(ms));
    NotTrimmed(t);
    ObjectText(ms);
    ArgumentsAre(t, MembersTo(ms, ['}']));
    MembersScan(ms);
    PlainTopIsIntended(ms);
  }

  lemma ObjectText(ms: Members)
    ensures var t := Print(Obj(ms)); Starts(t, '{') && t[|t| - 1] == '}' && t[1..] == MembersTo(ms, ['}'])
  {
    assert ['}'] + "" == ['}'];
    MembersAppend(ms, "", ['}']);
    assert "" + ['}'] == ['}'];
  }

  lemma ArgumentsAre(t: string, inner: string)
    requires Trim(t) == t && Starts(t, '{') && t[|t| - 1] == '}' && t[1..] == inner
    ensures ScanArguments(t) == ScanMembers(inner)
  {
  }

  /** An input that fails: a bell in a string. */
  lemma BellIsLost()
    ensures var ms := Member("k", Str([7 as char]), NoMember); ScanArguments(Print(Obj(ms))) != Some(Intended(ms))
  {
    var bell := [7 as char];
    var ms := Member("k", Str(bell), NoMember);
    assert Odd(bell[0]) && !Json.Plain(bell);
    ScannerUndoesPrinter(ms);
  }
}
