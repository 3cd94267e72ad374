/**
 UTF-8 text: encoding of characters and the character boundaries of a byte string. A well-formed text is
 one in which every character that starts is complete, as the source's string type guarantees.
 */
module Utf8 {

  type byte = b: int | 0 <= b < 256

  predicate Continuation(b: byte) {
    128 <= b < 192
  }

  /** Length of the character a leading byte starts; zero for a continuation byte. */
  function CharLen(b: byte): nat {
    if b < 128 then 1 else if b < 192 then 0 else if b < 224 then 2 else if b < 240 then 3 else 4
  }

  /** `encode_utf8` of one character. */
  function Encode(c: char): (u: seq<byte>)
    ensures 1 <= |u| <= 4 && CharLen(u[0]) == |u| && forall k :: 1 <= k < |u| ==> Continuation(u[k])
  {
    var n := c as int;
    if n < 0x80 then [n]
    else if n < 0x800 then [192 + n / 64, 128 + n % 64]
    else if n < 0x10000 then [224 + n / 4096, 128 + (n / 64) % 64, 128 + n % 64]
    else [240 + n / 262144, 128 + (n / 4096) % 64, 128 + (n / 64) % 64, 128 + n % 64]
  }

  /** The bytes of a string. */
  function Bytes(s: string): seq<byte> {
    if s == "" then [] else Encode(s[0]) + Bytes(s[1..])
  }

  lemma {:induction false} BytesConcat(s: string, t: string)
    ensures Bytes(s + t) == Bytes(s) + Bytes(t)
  {
    if s == "" {
      assert s + t == t;
    } else {
      assert (s + t)[1..] == s[1..] + t;
      BytesConcat(s[1..], t);
    }
  }

  /** A position where a slice of the text may start or end. */
  predicate Boundary(text: seq<byte>, p: nat) {
    p == |text| || (p < |text| && !Continuation(text[p]))
  }

  /** The character that starts at `p` is complete and followed by a boundary. */
  predicate CompleteAt(text: seq<byte>, p: nat)
    requires p < |text|
  {
    var n := CharLen(text[p]);
    p + n <= |text| && (forall k :: p < k < p + n ==> Continuation(text[k])) && Boundary(text, p + n)
  }

  /** Every character is complete: what the source's string type guarantees of its bytes. */
  ghost predicate WellFormed(text: seq<byte>) {
    Boundary(text, 0) && forall p: nat :: p < |text| && Boundary(text, p) ==> CompleteAt(text, p)
  }

  /** `next_utf8_char` */
  function NextChar(text: seq<byte>, p: nat): (q: nat)
    requires WellFormed(text) && p < |text| && Boundary(text, p)
    ensures p < q <= |text| && Boundary(text, q)
  {
    assert CompleteAt(text, p);
    p + CharLen(text[p])
  }

  lemma CompleteAfter(u: seq<byte>, v: seq<byte>, p: nat)
    requires WellFormed(v) && |u| <= p < |u| + |v| && Boundary(u + v, p)
    ensures CompleteAt(u + v, p)
  {
    var t, q := u + v, p - |u|;
    assert t[p] == v[q] && Boundary(v, q);
    assert CompleteAt(v, q);
    var n := CharLen(v[q]);
    forall k | p < k < p + n
      ensures Continuation(t[k])
    {
      assert t[k] == v[k - |u|];
    }
    assert q + n < |v| ==> t[p + n] == v[q + n];
  }

  lemma {:induction false} BytesWellFormed(s: string)
    ensures WellFormed(Bytes(s))
  {
    if s == "" {
    } else {
      var u, v := Encode(s[0]), Bytes(s[1..]);
      var t := u + v;
      BytesWellFormed(s[1..]);
      forall p: nat | p < |t| && Boundary(t, p)
        ensures CompleteAt(t, p)
      {
        if p < |u| {
          assert p == 0;
          assert |v| > 0 ==> t[|u|] == v[0];
        } else {
          CompleteAfter(u, v, p);
        }
      }
    }
  }
}
