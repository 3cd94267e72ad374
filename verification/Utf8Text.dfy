/**
 Reading UTF-8 back: the strings that byte strings are the encoding of. Reading accepts the encodings of
 strings and nothing else, so a text may be kept as its bytes without losing anything.
 */
module Utf8Text {
  import opened Wrappers
  import opened Utf8

  predicate Scalar(n: int) {
    0 <= n < 0xD800 || 0xE000 <= n < 0x11_0000
  }

  /** The number the first `n` bytes spell. */
  function CodePoint(u: seq<byte>): int
    requires 1 <= |u| <= 4
  {
    var b0: int := u[0];
    if |u| == 1 then b0
    else
      var b1: int := u[1];
      if |u| == 2 then (b0 - 192) * 64 + (b1 - 128)
      else
        var b2: int := u[2];
        if |u| == 3 then (b0 - 224) * 4096 + (b1 - 128) * 64 + (b2 - 128)
        else
          var b3: int := u[3];
          (b0 - 240) * 262144 + (b1 - 128) * 4096 + (b2 - 128) * 64 + (b3 - 128)
  }

  lemma CodePointOfEncode(c: char)
    ensures CodePoint(Encode(c)) == c as int && Scalar(c as int)
  {
    var n := c as int;
    var q := n / 64;
    assert n == q * 64 + n % 64;
    var r := q / 64;
    assert q == r * 64 + q % 64 && n / 4096 == r;
    assert r == r / 64 * 64 + r % 64 && n / 262144 == r / 64;
  }

  /** The character that `u` encodes, if it encodes one. */
  function DecodeOne(u: seq<byte>): (o: Option<char>)
    ensures o.Some? ==> Encode(o.value) == u
  {
    if !(1 <= |u| <= 4) then None
    else
      var n := CodePoint(u);
      if Scalar(n) && Encode(n as char) == u then Some(n as char) else None
  }

  lemma DecodeOneOfEncode(c: char)
    ensures DecodeOne(Encode(c)) == Some(c)
  {
    CodePointOfEncode(c);
  }

  /** `from_utf8`: the string of these bytes, if there is one. */
  function FromUtf8(b: seq<byte>): (o: Option<string>)
    decreases |b|
  {
    if b == [] then Some("")
    else
      var n := CharLen(b[0]);
      if n == 0 || n > |b| then None
      else
        var c :- DecodeOne(b[..n]);
        var rest :- FromUtf8(b[n..]);
        Some([c] + rest)
  }

  /** Reading a string's bytes gives the string. */
  lemma {:induction false} FromUtf8OfBytes(s: string)
    ensures FromUtf8(Bytes(s)) == Some(s)
  {
    if s == "" {
    } else {
      var u, v := Encode(s[0]), Bytes(s[1..]);
      assert (u + v)[..|u|] == u && (u + v)[|u|..] == v;
      DecodeOneOfEncode(s[0]);
      FromUtf8OfBytes(s[1..]);
      assert s == [s[0]] + s[1..];
    }
  }

  /** Whatever is read, its bytes are the ones it was read from. */
  lemma {:induction false} FromUtf8IsInverse(b: seq<byte>)
    ensures FromUtf8(b).Some? ==> Bytes(FromUtf8(b).value) == b
    decreases |b|
  {
    if b == [] || FromUtf8(b).None? {
    } else {
      var n := CharLen(b[0]);
      var c, rest := DecodeOne(b[..n]).value, FromUtf8(b[n..]).value;
      FromUtf8IsInverse(b[n..]);
      BytesCons(c, rest);
      assert Bytes([c] + rest) == b[..n] + b[n..];
      assert b == b[..n] + b[n..];
    }
  }

  lemma BytesCons(c: char, s: string)
    ensures Bytes([c] + s) == Encode(c) + Bytes(s)
  {
    assert ([c] + s)[1..] == s;
  }

  /** Exactly the encodings of strings are accepted. */
  lemma ReadsExactlyText(b: seq<byte>, s: string)
    ensures FromUtf8(b) == Some(s) <==> Bytes(s) == b
  {
    FromUtf8OfBytes(s);
    FromUtf8IsInverse(b);
  }

  /** A check that bytes are a text; the readers are stated for any, so that `IsText` stays folded. */
  type TextCheck = seq<byte> -> bool

  /** The bytes of a text: what the source's string type guarantees. */
  ghost predicate IsText(b: seq<byte>) {
    exists s :: Bytes(s) == b
  }

  /** `from_utf8(..).is_ok()` */
  method CheckText(b: seq<byte>) returns (ok: bool)
    ensures ok <==> IsText(b)
  {
    var o := FromUtf8(b);
    ok := o.Some?;
    if o.Some? {
      ReadsExactlyText(b, o.value);
    } else {
      forall s
        ensures Bytes(s) != b
      {
        ReadsExactlyText(b, s);
      }
    }
  }

  /** The bytes of a text in ASCII. */
  function Ascii(s: string): (b: seq<int>)
    ensures |b| == |s|
  {
    seq(|s|, i requires 0 <= i < |s| => s[i] as int)
  }

  lemma {:induction false} AsciiBytes(s: string)
    requires forall i :: 0 <= i < |s| ==> s[i] as int < 128
    ensures Bytes(s) == Ascii(s)
  {
    if s == "" {
    } else {
      AsciiBytes(s[1..]);
      assert Encode(s[0]) == [s[0] as int] && Ascii(s) == [s[0] as int] + Ascii(s[1..]);
    }
  }
}
