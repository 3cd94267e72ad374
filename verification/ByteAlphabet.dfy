/**
 The byte alphabet of byte-level BPE: every byte as one printable character, and back. Plain bytes stand
 for themselves; the others take the code points from 256 on, in order.
 */
module ByteAlphabet {
  import opened Wrappers
  import opened Utf8

  predicate Plain(x: nat) {
    33 <= x <= 126 || 161 <= x <= 172 || x >= 174
  }

  /** How many bytes below `b` are not plain. */
  function OddBefore(b: nat): nat {
    if b == 0 then 0 else OddBefore(b - 1) + if Plain(b - 1) then 0 else 1
  }

  /** `gpt2_byte_to_codepoint` */
  function ByteCode(b: byte): nat {
    if Plain(b) then b else 256 + OddBefore(b)
  }

  /** The counting loop of `gpt2_byte_to_codepoint`. */
  method ByteToCodepoint(b: byte) returns (cp: nat)
    ensures cp == ByteCode(b)
  {
    if Plain(b) {
      return b;
    }
    var n := 0;
    var x := 0;
    while x <= 255
      invariant 0 <= x <= b && n == OddBefore(x)
      decreases 256 - x
    {
      if Plain(x) {
        x := x + 1;
        continue;
      }
      if x == b {
        return 256 + n;
      }
      n := n + 1;
      x := x + 1;
    }
  }

  /** In closed form: the 68 bytes that are not plain take 256..323 in order. */
  lemma {:induction false} OddBeforeClosed(b: nat)
    requires b <= 256
    ensures OddBefore(b) == if b <= 33 then b else if b <= 127 then 33 else if b <= 161 then b - 94 else if b <= 173 then 67 else 68
  {
    if b == 0 {
    } else {
      OddBeforeClosed(b - 1);
    }
  }

  /** Printable bytes stand for themselves; the others for 256, 257, ... in order. */
  lemma ByteCodeIs(b: byte)
    ensures 33 <= b <= 126 || 161 <= b <= 172 || 174 <= b ==> ByteCode(b) == b
    ensures b <= 32 ==> ByteCode(b) == 256 + b
    ensures 127 <= b <= 160 ==> ByteCode(b) == 289 + (b - 127)
    ensures b == 173 ==> ByteCode(b) == 323
  {
    OddBeforeClosed(b);
  }

  lemma ByteCodeRange(b: byte)
    ensures ByteCode(b) < 324 && (ByteCode(b) < 256 ==> ByteCode(b) == b && Plain(b))
  {
    OddBeforeClosed(b);
  }

  lemma ByteCodeInjective(a: byte, b: byte)
    requires ByteCode(a) == ByteCode(b)
    ensures a == b
  {
    OddBeforeClosed(a);
    OddBeforeClosed(b);
  }

  /** The first byte from `from` on with code `cp`. */
  function FindByte(cp: nat, from: nat): (o: Option<byte>)
    ensures o.Some? ==> from <= o.value && ByteCode(o.value) == cp
    ensures o.None? ==> forall b: byte :: from <= b ==> ByteCode(b) != cp
    decreases 256 - from
  {
    if from >= 256 then None else if ByteCode(from) == cp then Some(from) else FindByte(cp, from + 1)
  }

  /** `gpt2_codepoint_to_byte` */
  method CodepointToByte(cp: nat) returns (o: Option<byte>)
    ensures o == FindByte(cp, 0)
  {
    var b := 0;
    while b < 256
      invariant 0 <= b <= 256 && FindByte(cp, 0) == FindByte(cp, b)
    {
      var code := ByteToCodepoint(b);
      if code == cp {
        return Some(b);
      }
      b := b + 1;
    }
    o := None;
  }

  /** The two maps are inverse on the alphabet. */
  lemma ByteCodeRoundTrip(b: byte)
    ensures FindByte(ByteCode(b), 0) == Some(b)
  {
    var o := FindByte(ByteCode(b), 0);
    ByteCodeInjective(o.value, b);
  }

  function ByteChar(b: byte): char {
    ByteCodeRange(b);
    ByteCode(b) as char
  }

  /** `byte_encode` */
  function ByteEncode(bytes: seq<byte>): (s: string)
    ensures |s| == |bytes|
  {
    seq(|bytes|, i requires 0 <= i < |bytes| => ByteChar(bytes[i]))
  }

  /** `append_decoded_piece`, one character: its byte, or its UTF-8 encoding outside the alphabet. */
  function DecodeChar(c: char): seq<byte> {
    var o := FindByte(c as int, 0);
    if o.Some? then [o.value] else Encode(c)
  }

  /** `append_decoded_piece` */
  function DecodePiece(s: string): seq<byte> {
    if s == "" then [] else DecodeChar(s[0]) + DecodePiece(s[1..])
  }

  lemma {:induction false} DecodeConcat(s: string, t: string)
    ensures DecodePiece(s + t) == DecodePiece(s) + DecodePiece(t)
  {
    if s == "" {
      assert s + t == t;
    } else {
      assert (s + t)[1..] == s[1..] + t;
      DecodeConcat(s[1..], t);
    }
  }

  /** Decoding undoes the byte alphabet. */
  lemma {:induction false} DecodeUndoesEncode(bytes: seq<byte>)
    ensures DecodePiece(ByteEncode(bytes)) == bytes
  {
    if bytes == [] {
    } else {
      var b := bytes[0];
      ByteCodeRange(b);
      ByteCodeRoundTrip(b);
      assert DecodeChar(ByteChar(b)) == [b];
      assert ByteEncode(bytes)[1..] == ByteEncode(bytes[1..]);
      DecodeUndoesEncode(bytes[1..]);
    }
  }

  /** A character outside ASCII that stands for a byte: decoding it does not give it back. */
  predicate Ambiguous(c: char) {
    c as int >= 128 && FindByte(c as int, 0).Some?
  }

  predicate Unambiguous(s: string) {
    forall i :: 0 <= i < |s| ==> !Ambiguous(s[i])
  }

  lemma DecodeCharIs(c: char)
    ensures if Ambiguous(c) then |DecodeChar(c)| < |Encode(c)| else DecodeChar(c) == Encode(c)
  {
    var o := FindByte(c as int, 0);
    if o.Some? {
      ByteCodeRange(o.value);
    }
  }

  /** A string decodes to its own bytes exactly when none of its characters is ambiguous. */
  lemma {:induction false} DecodesToItself(s: string)
    ensures DecodePiece(s) == Bytes(s) <==> Unambiguous(s)
    ensures |DecodePiece(s)| < |Bytes(s)| <==> !Unambiguous(s)
  {
    if s == "" {
    } else {
      DecodeCharIs(s[0]);
      DecodesToItself(s[1..]);
      var a, b, c, d := DecodeChar(s[0]), DecodePiece(s[1..]), Encode(s[0]), Bytes(s[1..]);
      if Ambiguous(s[0]) {
        assert |a + b| < |c + d|;
      } else {
        assert (a + b)[|a|..] == b && (c + d)[|a|..] == d;
        assert Unambiguous(s) <==> Unambiguous(s[1..]);
      }
    }
  }
}
