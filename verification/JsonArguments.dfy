/**
 Scanning a whole object of tool-call arguments: delimiters by depth, then members in order. A text stands
 for what is left of the input; a method at a position computes the function of the text there.
 */
module JsonArguments {
  import opened Wrappers
  import opened Json

  /** Unicode white space, as `char::is_whitespace`. */
  predicate Whitespace(c: char) {
    var n := c as int;
    9 <= n <= 13 || n == 0x20 || n == 0x85 || n == 0xA0 || n == 0x1680 || 0x2000 <= n <= 0x200A
    || n == 0x2028 || n == 0x2029 || n == 0x202F || n == 0x205F || n == 0x3000
  }

  // ---------------------------------------------------------------- the scans

  /** `skip_json_ws` */
  function SkipWs(t: string): (r: string)
    ensures Left(r, t) && (r == "" || !Whitespace(r[0]))
  {
    if t != "" && Whitespace(t[0]) then
      var r := SkipWs(t[1..]);
      LeftTrans(r, t[1..], t);
      r
    else
      assert t[0..] == t;
      t
  }

  function TrimEnd(s: string): string {
    if s != "" && Whitespace(s[|s| - 1]) then TrimEnd(s[..|s| - 1]) else s
  }

  function Trim(s: string): string {
    TrimEnd(SkipWs(s))
  }

  datatype Delims = Braces | Brackets

  function Open(d: Delims): char { if d.Braces? then '{' else '[' }

  function Close(d: Delims): char { if d.Braces? then '}' else ']' }

  /** `find_matching_delim`: what follows the delimiter that brings the depth back to zero. */
  function MatchDelim(t: string, d: Delims, depth: nat, inString: bool, escaped: bool): (o: Option<string>)
    ensures o.Some? ==> Left(o.value, t) && |o.value| < |t|
  {
    if t == "" then None
    else if inString then
      if escaped then MatchDelim(t[1..], d, depth, true, false)
      else if t[0] == '\\' then MatchDelim(t[1..], d, depth, true, true)
      else MatchDelim(t[1..], d, depth, t[0] != '\"', false)
    else if t[0] == '\"' then MatchDelim(t[1..], d, depth, true, false)
    else if t[0] == Open(d) then MatchDelim(t[1..], d, depth + 1, false, false)
    else if t[0] == Close(d) then
      if depth <= 1 then Some(t[1..]) else MatchDelim(t[1..], d, depth - 1, false, false)
    else MatchDelim(t[1..], d, depth, false, false)
  }

  predicate Stop(c: char) { c == ',' || c == '}' || Whitespace(c) }

  function LiteralEnd(t: string): (r: string)
    ensures Left(r, t)
  {
    if t == "" || Stop(t[0]) then t else LiteralEnd(t[1..])
  }

  /** `find_json_value_end`: what follows the value. */
  function ValueEnd(t: string): (o: Option<string>)
    ensures o.Some? ==> Left(o.value, t)
  {
    if t == "" then None
    else if t[0] == '\"' then
      var s :- ScanString(t);
      Some(s.left)
    else if t[0] == '{' then MatchDelim(t, Braces, 0, false, false)
    else if t[0] == '[' then MatchDelim(t, Brackets, 0, false, false)
    else Some(LiteralEnd(t))
  }

  datatype Arg = Arg(key: string, value: string, isString: bool)

  /** The value of a member: a decoded string, or the text itself. */
  function ReadValue(t: string, after: string): Option<(string, bool)>
    requires Left(after, t)
  {
    var raw := Trim(t[..|t| - |after|]);
    if raw != "" && raw[0] == '\"' then
      var s :- ScanString(t);
      if s.left != after then None else Some((s.text, true))
    else Some((raw, false))
  }

  datatype Scan = Done(args: Option<seq<Arg>>) | More(arg: Arg, left: string)

  function Starts(t: string, c: char): bool { t != "" && t[0] == c }

  /** A key and the colon after it: what is left starts at the value. */
  function ScanName(t: string): (o: Option<Scanned>)
    ensures o.Some? ==> Left(o.value.left, t) && |o.value.left| < |t|
  {
    var key :- ScanString(t);
    var atColon := SkipWs(key.left);
    if !Starts(atColon, ':') then None
    else
      var atValue := SkipWs(atColon[1..]);
      LeftTrans(atColon, key.left, t);
      LeftTrans(atColon[1..], atColon, t);
      LeftTrans(atValue, atColon[1..], t);
      Some(Scanned(key.text, atValue))
  }

  /** A value and what follows it: another member, the end, or neither. */
  function ScanRest(key: string, t: string): (r: Scan)
    ensures r.More? ==> |r.left| < |t| && Left(r.left, t)
    ensures r.Done? && r.args.Some? ==> |r.args.value| <= 1
  {
    var after := ValueEnd(t);
    if after.None? then Done(None)
    else
      var value := ReadValue(t, after.value);
      if value.None? then Done(None)
      else
        var arg := Arg(key, value.value.0, value.value.1);
        var next := SkipWs(after.value);
        if Starts(next, ',') then
          LeftTrans(next, after.value, t);
          LeftTrans(next[1..], next, t);
          More(arg, next[1..])
        else if Starts(next, '}') then Done(Some([arg]))
        else Done(None)
  }

  /** One turn of the loop of `parse_json_object_arguments`. */
  function ScanMember(t: string): (r: Scan)
    ensures r.More? ==> |r.left| < |t| && Left(r.left, t)
    ensures r.Done? && r.args.Some? ==> |r.args.value| <= 1
  {
    var atKey := SkipWs(t);
    if Starts(atKey, '}') then Done(Some([]))
    else
      var name := ScanName(atKey);
      if name.None? then Done(None)
      else
        var r := ScanRest(name.value.text, name.value.left);
        if r.Done? then r
        else
          LeftTrans(name.value.left, atKey, t);
          LeftTrans(r.left, name.value.left, t);
          r
  }

  function ScanMembers(t: string): Option<seq<Arg>>
    decreases |t|
  {
    if t == "" then None
    else
      match ScanMember(t)
      case Done(args) => args
      case More(arg, left) =>
        var rest :- ScanMembers(left);
        Some([arg] + rest)
  }

  /** `parse_json_object_arguments` */
  function ScanArguments(input: string): Option<seq<Arg>> {
    var t := Trim(input);
    if !Starts(t, '{') || t[|t| - 1] != '}' then None else ScanMembers(t[1..])
  }

  // ---------------------------------------------------------------- the loops

  method SkipJsonWs(input: string, start: nat) returns (pos: nat)
    requires start <= |input|
    ensures start <= pos <= |input| && input[pos..] == SkipWs(input[start..])
  {
    pos := start;
    while pos < |input| && Whitespace(input[pos])
      invariant start <= pos <= |input| && SkipWs(input[start..]) == SkipWs(input[pos..])
    {
      assert input[pos..][1..] == input[pos + 1..];
      pos := pos + 1;
    }
  }

  method FindMatchingDelim(input: string, start: nat, d: Delims) returns (o: Option<nat>)
    requires start <= |input|
    ensures o.None? <==> MatchDelim(input[start..], d, 0, false, false).None?
    ensures o.Some? ==> o.value < |input| && MatchDelim(input[start..], d, 0, false, false) == Some(input[o.value + 1..])
  {
    var depth: nat := 0;
    var inString := false;
    var escaped := false;
    ghost var whole := MatchDelim(input[start..], d, 0, false, false);
    for pos := start to |input|
      invariant (escaped ==> inString) && whole == MatchDelim(input[pos..], d, depth, inString, escaped)
    {
      var ch := input[pos];
      assert input[pos..][1..] == input[pos + 1..];
      if inString {
        if escaped {
          escaped := false;
        } else if ch == '\\' {
          escaped := true;
        } else if ch == '\"' {
          inString := false;
        }
        continue;
      }
      if ch == '\"' {
        inString := true;
        continue;
      }
      if ch == Open(d) {
        depth := depth + 1;
      } else if ch == Close(d) {
        depth := if depth == 0 then 0 else depth - 1;
        if depth == 0 {
          return Some(pos);
        }
      }
    }
    o := None;
  }

  method FindLiteralEnd(input: string, start: nat) returns (pos: nat)
    requires start <= |input|
    ensures start <= pos <= |input| && input[pos..] == LiteralEnd(input[start..])
  {
    pos := start;
    while pos < |input| && !Stop(input[pos])
      invariant start <= pos <= |input| && LiteralEnd(input[start..]) == LiteralEnd(input[pos..])
    {
      assert input[pos..][1..] == input[pos + 1..];
      pos := pos + 1;
    }
  }

  lemma LeftPosition(input: string, start: nat, left: string)
    requires start <= |input| && Left(left, input[start..])
    ensures start <= |input| - |left| && input[|input| - |left|..] == left
  {
    assert input[start..][|input| - start - |left|..] == input[|input| - |left|..];
  }

  method FindJsonValueEnd(input: string, start: nat) returns (o: Option<nat>)
    requires start <= |input|
    ensures o.None? <==> ValueEnd(input[start..]).None?
    ensures o.Some? ==> start <= o.value <= |input| && ValueEnd(input[start..]) == Some(input[o.value..])
  {
    if start == |input| {
      return None;
    }
    var first := input[start];
    if first == '\"' {
      var s := ParseStringAt(input, start);
      if s.None? {
        return None;
      }
      LeftPosition(input, start, s.value.left);
      o := Some(|input| - |s.value.left|);
    } else if first == '{' || first == '[' {
      var end := FindMatchingDelim(input, start, if first == '{' then Braces else Brackets);
      if end.None? {
        return None;
      }
      SuffixLength(input, start, end.value + 1);
      o := Some(end.value + 1);
    } else {
      var end := FindLiteralEnd(input, start);
      o := Some(end);
    }
  }

  lemma SuffixLength(input: string, start: nat, p: nat)
    requires start <= |input| && p <= |input|
    ensures Left(input[p..], input[start..]) ==> start <= p
  {
  }

  method ParseName(input: string, start: nat) returns (o: Option<(string, nat)>)
    requires start <= |input|
    ensures o.None? <==> ScanName(input[start..]).None?
    ensures o.Some? ==> start <= o.value.1 <= |input| && ScanName(input[start..]) == Some(Scanned(o.value.0, input[o.value.1..]))
  {
    var key := ParseStringAt(input, start);
    if key.None? {
      return None;
    }
    LeftPosition(input, start, key.value.left);
    o := ParseColon(input, |input| - |key.value.left|, key.value);
    AfterKey(input[start..], key.value);
  }

  lemma AfterKey(t: string, key: Scanned)
    requires ScanString(t) == Some(key)
    ensures var atColon := SkipWs(key.left);
            if !Starts(atColon, ':') then ScanName(t).None?
            else ScanName(t) == Some(Scanned(key.text, SkipWs(atColon[1..])))
  {
  }

  method ParseColon(input: string, start: nat, key: Scanned) returns (o: Option<(string, nat)>)
    requires start <= |input| && input[start..] == key.left
    ensures o.None? <==> !Starts(SkipWs(key.left), ':')
    ensures o.Some? ==> start <= o.value.1 <= |input| && o.value.0 == key.text
    ensures o.Some? ==> input[o.value.1..] == SkipWs(SkipWs(key.left)[1..])
  {
    var pos := SkipJsonWs(input, start);
    if pos == |input| || input[pos] != ':' {
      return None;
    }
    assert input[pos..][1..] == input[pos + 1..];
    pos := SkipJsonWs(input, pos + 1);
    o := Some((key.text, pos));
  }

  method ParseRest(key: string, input: string, start: nat) returns (r: Scan)
    requires start <= |input|
    ensures r == ScanRest(key, input[start..])
  {
    var end := FindJsonValueEnd(input, start);
    if end.None? {
      return Done(None);
    }
    var value := ParseValue(input, start, end.value);
    if value.None? {
      return Done(None);
    }
    var arg := Arg(key, value.value.0, value.value.1);
    var pos := SkipJsonWs(input, end.value);
    if pos < |input| && input[pos] == ',' {
      assert input[pos..][1..] == input[pos + 1..];
      return More(arg, input[pos + 1..]);
    }
    r := Done(if pos < |input| && input[pos] == '}' then Some([arg]) else None);
  }

  /** One turn of the member loop, at a position. */
  method ParseMember(input: string, start: nat) returns (r: Scan)
    requires start <= |input|
    ensures r == ScanMember(input[start..])
  {
    var pos := SkipJsonWs(input, start);
    if pos < |input| && input[pos] == '}' {
      return Done(Some([]));
    }
    var name := ParseName(input, pos);
    if name.None? {
      return Done(None);
    }
    r := ParseRest(name.value.0, input, name.value.1);
  }

  method ParseValue(input: string, pos: nat, end: nat) returns (o: Option<(string, bool)>)
    requires pos <= end <= |input|
    ensures Left(input[end..], input[pos..]) && o == ReadValue(input[pos..], input[end..])
  {
    assert input[pos..][end - pos..] == input[end..];
    assert input[pos..][..end - pos] == input[pos..end];
    var raw := Trim(input[pos..end]);
    if raw != "" && raw[0] == '\"' {
      var s := ParseStringAt(input, pos);
      if s.None? {
        return None;
      }
      if s.value.left != input[end..] {
        return None;
      }
      o := Some((s.value.text, true));
    } else {
      o := Some((raw, false));
    }
  }

  ghost function Ahead(done: seq<Arg>, rest: Option<seq<Arg>>): Option<seq<Arg>> {
    if rest.None? then None else Some(done + rest.value)
  }

  lemma AheadOne(done: seq<Arg>, arg: Arg, rest: Option<seq<Arg>>)
    ensures rest.Some? ==> Ahead(done, Some([arg] + rest.value)) == Ahead(done + [arg], rest)
  {
    if rest.Some? {
      assert done + ([arg] + rest.value) == (done + [arg]) + rest.value;
    }
  }

  lemma MembersTurn(t: string)
    requires t != ""
    ensures var r := ScanMember(t);
            ScanMembers(t) ==
            if r.Done? then r.args
            else if ScanMembers(r.left).None? then None else Some([r.arg] + ScanMembers(r.left).value)
  {
  }

  /** What the scan gives behind `done` after one turn. */
  lemma TurnAhead(done: seq<Arg>, t: string, turn: Scan)
    requires t != "" && turn == ScanMember(t)
    ensures Ahead(done, ScanMembers(t))
         == if turn.Done? then Ahead(done, turn.args) else Ahead(done + [turn.arg], ScanMembers(turn.left))
  {
    MembersTurn(t);
    if !turn.Done? {
      AheadOne(done, turn.arg, ScanMembers(turn.left));
    }
  }

  method ParseMembers(input: string, start: nat) returns (o: Option<seq<Arg>>)
    requires start <= |input|
    ensures o == ScanMembers(input[start..])
  {
    var out: seq<Arg> := [];
    var pos := start;
    ghost var whole := ScanMembers(input[start..]);
    assert whole.Some? ==> [] + whole.value == whole.value;
    while pos < |input|
      invariant start <= pos <= |input| && whole == Ahead(out, ScanMembers(input[pos..]))
    {
      var turn := ParseMember(input, pos);
      TurnAhead(out, input[pos..], turn);
      if turn.Done? {
        return if turn.args.Some? then Some(out + turn.args.value) else None;
      }
      LeftPosition(input, pos, turn.left);
      out := out + [turn.arg];
      pos := |input| - |turn.left|;
      assert input[pos..] == turn.left;
    }
    o := None;
  }

  method ParseJsonObjectArguments(text: string) returns (o: Option<seq<Arg>>)
    ensures o == ScanArguments(text)
  {
    var input := Trim(text);
    if |input| == 0 || input[0] != '{' || input[|input| - 1] != '}' {
      return None;
    }
    o := ParseMembers(input, 1);
  }
}
