/**
 The DSV4 session payload, written by the session and read by it and by the disk store: a header of
 thirteen words, the tokens, and the logits as bit patterns, all in little-endian order.
 */
module Snapshot {
  import opened Wrappers
  import opened Utf8
  import opened LittleEndian

  const MAGIC: u32 := 0x3456_5344
  const VERSION: u32 := 1
  const HEADER_U32S: nat := 13
  const HEADER_BYTES: nat := 52

  /** What a session writes. Logits are the bit patterns of 32-bit floats. */
  datatype Saved = Saved(ctx: nat, boundary: Option<nat>, tokens: seq<i32>, layers: nat, logits: seq<u32>)

  /** What a session reads back. */
  datatype Loaded = Loaded(ctx: nat, boundary: Option<nat>, tokens: seq<i32>, logits: seq<u32>)

  /** What the disk store reads from the same bytes. */
  datatype Meta = Meta(tokens: seq<i32>, ctx: nat)

  function Header(s: Saved): (h: seq<u32>)
    ensures |h| == HEADER_U32S
  {
    [MAGIC, VERSION, Truncate(s.ctx), Truncate(if s.boundary.Some? then s.boundary.value else 0), 0, 0, 0,
     Truncate(|s.tokens|), Truncate(s.layers), 0, 0, Truncate(|s.logits|), 0]
  }

  function TokenBits(ts: seq<i32>): (w: seq<u32>)
    ensures |w| == |ts|
  {
    seq(|ts|, i requires 0 <= i < |ts| => Bits(ts[i]))
  }

  function PayloadWords(s: Saved): seq<u32> {
    Header(s) + TokenBits(s.tokens) + s.logits
  }

  function Payload(s: Saved): seq<byte> {
    WordBytes(PayloadWords(s))
  }

  lemma OneMoreWord(done: seq<u32>, ws: seq<u32>, i: nat)
    requires i < |ws|
    ensures WordBytes(done + ws[..i + 1]) == WordBytes(done + ws[..i]) + Le32(ws[i])
  {
    WordBytesAppend(done + ws[..i], ws[i]);
    assert done + ws[..i] + [ws[i]] == done + ws[..i + 1];
  }

  method AppendWords(before: seq<byte>, ws: seq<u32>, ghost done: seq<u32>) returns (bytes: seq<byte>)
    requires before == WordBytes(done)
    ensures bytes == WordBytes(done + ws)
  {
    bytes := before;
    assert done + ws[..0] == done;
    for i := 0 to |ws|
      invariant bytes == WordBytes(done + ws[..i])
    {
      OneMoreWord(done, ws, i);
      bytes := bytes + Le32(ws[i]);
    }
    assert ws[..|ws|] == ws;
  }

  /** `save_snapshot`: the header, then the tokens, then the logits. */
  method SaveSnapshot(s: Saved) returns (bytes: seq<byte>)
    ensures bytes == Payload(s)
  {
    var header := [MAGIC, VERSION, Truncate(s.ctx), Truncate(if s.boundary.Some? then s.boundary.value else 0), 0, 0, 0,
                   Truncate(|s.tokens|), Truncate(s.layers), 0, 0, Truncate(|s.logits|), 0];
    bytes := AppendWords([], header, []);
    assert [] + header == Header(s);
    bytes := AppendWords(bytes, TokenBits(s.tokens), Header(s));
    bytes := AppendWords(bytes, s.logits, Header(s) + TokenBits(s.tokens));
  }

  // ---------------------------------------------------------------- the session's parser

  function TokensAt(bytes: seq<byte>, at: nat, n: nat): (ts: seq<i32>)
    requires at + 4 * n <= |bytes|
    ensures |ts| == n
  {
    seq(n, i requires 0 <= i < n => Signed(WordNo(bytes, at, i)))
  }

  function WordsAt(bytes: seq<byte>, at: nat, n: nat): (ws: seq<u32>)
    requires at + 4 * n <= |bytes|
    ensures |ws| == n
  {
    seq(n, i requires 0 <= i < n => WordNo(bytes, at, i))
  }

  /** `try_load_dsv4_snapshot`, as far as the bytes go. Its 64-bit length checks cannot overflow. */
  function Parse(bytes: seq<byte>): Option<Loaded> {
    if |bytes| < HEADER_BYTES || U32At(bytes, 0) != MAGIC || U32At(bytes, 4) != VERSION then None
    else
      var tokenCount, vocabSize := U32At(bytes, 28), U32At(bytes, 44);
      if |bytes| != HEADER_BYTES + 4 * tokenCount + 4 * vocabSize then None
      else
        var boundary := U32At(bytes, 12);
        Some(Loaded(
          U32At(bytes, 8),
          if boundary == 0 then None else Some(boundary),
          TokensAt(bytes, HEADER_BYTES, tokenCount),
          WordsAt(bytes, HEADER_BYTES + 4 * tokenCount, vocabSize)))
  }

  method ReadTokens(bytes: seq<byte>, at: nat, n: nat) returns (ts: seq<i32>)
    requires at + 4 * n <= |bytes|
    ensures ts == TokensAt(bytes, at, n)
  {
    ts := [];
    for i := 0 to n
      invariant ts == TokensAt(bytes, at, i)
    {
      ts := ts + [Signed(WordNo(bytes, at, i))];
    }
  }

  method ReadWords(bytes: seq<byte>, at: nat, n: nat) returns (ws: seq<u32>)
    requires at + 4 * n <= |bytes|
    ensures ws == WordsAt(bytes, at, n)
  {
    ws := [];
    for i := 0 to n
      invariant ws == WordsAt(bytes, at, i)
    {
      ws := ws + [WordNo(bytes, at, i)];
    }
  }

  method TryParse(bytes: seq<byte>) returns (o: Option<Loaded>)
    ensures o == Parse(bytes)
  {
    if |bytes| < HEADER_BYTES {
      return None;
    }
    var header := ReadWords(bytes, 0, HEADER_U32S);
    if header[0] != MAGIC || header[1] != VERSION {
      return None;
    }
    var tokenCount: int, vocabSize: int := header[7], header[11];
    if |bytes| != HEADER_BYTES + 4 * tokenCount + 4 * vocabSize {
      return None;
    }
    var tokens := ReadTokens(bytes, HEADER_BYTES, tokenCount);
    var logits := ReadWords(bytes, HEADER_BYTES + 4 * tokenCount, vocabSize);
    var boundary := if header[3] == 0 then None else Some(header[3] as nat);
    o := Some(Loaded(header[2], boundary, tokens, logits));
  }

  // ---------------------------------------------------------------- saving, then loading

  /** What loading a payload recovers: sizes are kept modulo 2^32, and a boundary of zero is none. */
  function Recovered(s: Saved): Loaded {
    var b := Truncate(if s.boundary.Some? then s.boundary.value else 0);
    Loaded(Truncate(s.ctx), if b == 0 then None else Some(b), s.tokens, s.logits)
  }

  /** The three parts of a payload. */
  lemma PayloadParts(s: Saved)
    ensures var b, t := Payload(s), 4 * |s.tokens|;
            |b| == HEADER_BYTES + t + 4 * |s.logits|
            && Holds(b, 0, WordBytes(Header(s)))
            && Holds(b, HEADER_BYTES, WordBytes(TokenBits(s.tokens)))
            && Holds(b, HEADER_BYTES + t, WordBytes(s.logits))
  {
    var b, h, t := Payload(s), Header(s), TokenBits(s.tokens);
    WordBytesConcat(h + t, s.logits);
    WordBytesConcat(h, t);
    HoldsAll(b, WordBytes(h + t) + WordBytes(s.logits));
    HoldsParts(b, 0, WordBytes(h + t), HEADER_BYTES + 4 * |t|, WordBytes(s.logits));
    HoldsParts(b, 0, WordBytes(h), HEADER_BYTES, WordBytes(t));
  }

  lemma HeaderReads(s: Saved)
    ensures |Payload(s)| == HEADER_BYTES + 4 * |s.tokens| + 4 * |s.logits|
    ensures U32At(Payload(s), 0) == MAGIC && U32At(Payload(s), 4) == VERSION && U32At(Payload(s), 8) == Truncate(s.ctx)
    ensures U32At(Payload(s), 12) == Truncate(if s.boundary.Some? then s.boundary.value else 0)
    ensures U32At(Payload(s), 28) == Truncate(|s.tokens|) && U32At(Payload(s), 44) == Truncate(|s.logits|)
  {
    var b, h := Payload(s), Header(s);
    PayloadParts(s);
    WordStands(b, 0, h, 0, 0);
    WordStands(b, 0, h, 1, 4);
    WordStands(b, 0, h, 2, 8);
    WordStands(b, 0, h, 3, 12);
    WordStands(b, 0, h, 7, 28);
    WordStands(b, 0, h, 11, 44);
  }

  lemma TokensFrom(bytes: seq<byte>, at: nat, ts: seq<i32>)
    requires at + 4 * |ts| <= |bytes| && forall i :: 0 <= i < |ts| ==> WordNo(bytes, at, i) == Bits(ts[i])
    ensures TokensAt(bytes, at, |ts|) == ts
  {
  }

  lemma WordsFrom(bytes: seq<byte>, at: nat, ws: seq<u32>)
    requires at + 4 * |ws| <= |bytes| && forall i :: 0 <= i < |ws| ==> WordNo(bytes, at, i) == ws[i]
    ensures WordsAt(bytes, at, |ws|) == ws
  {
  }

  lemma TokensInside(bytes: seq<byte>, at: nat, ts: seq<i32>)
    requires Holds(bytes, at, WordBytes(TokenBits(ts)))
    ensures at + 4 * |ts| <= |bytes| && TokensAt(bytes, at, |ts|) == ts
  {
    assert |WordBytes(TokenBits(ts))| == 4 * |ts|;
    forall i | 0 <= i < |ts|
      ensures WordNo(bytes, at, i) == Bits(ts[i])
    {
      WordNoStands(bytes, at, TokenBits(ts), i);
    }
    TokensFrom(bytes, at, ts);
  }

  lemma WordsInside(bytes: seq<byte>, at: nat, ws: seq<u32>)
    requires Holds(bytes, at, WordBytes(ws))
    ensures at + 4 * |ws| <= |bytes| && WordsAt(bytes, at, |ws|) == ws
  {
    assert |WordBytes(ws)| == 4 * |ws|;
    forall i | 0 <= i < |ws|
      ensures WordNo(bytes, at, i) == ws[i]
    {
      WordNoStands(bytes, at, ws, i);
    }
    WordsFrom(bytes, at, ws);
  }

  ghost predicate Fits(s: Saved) {
    |s.tokens| < TWO_TO_THE_32 && |s.logits| < TWO_TO_THE_32
  }

  /** A payload is recovered exactly when both counts fit their header fields; otherwise it is refused. */
  lemma SaveThenParse(s: Saved)
    ensures Parse(Payload(s)) == if Fits(s) then Some(Recovered(s)) else None
  {
    var bytes := Payload(s);
    HeaderReads(s);
    TruncateLess(|s.tokens|);
    TruncateLess(|s.logits|);
    if Fits(s) {
      PayloadParts(s);
      TokensInside(bytes, HEADER_BYTES, s.tokens);
      WordsInside(bytes, HEADER_BYTES + 4 * |s.tokens|, s.logits);
      ParseAccepts(bytes, s);
    }
  }

  /** A session within its context recovers its tokens, logits and context size. */
  lemma SaveKeeps(s: Saved)
    requires Fits(s) && s.ctx < TWO_TO_THE_32
    ensures var p := Parse(Payload(s)); p.Some? && p.value.ctx == s.ctx && p.value.tokens == s.tokens && p.value.logits == s.logits
  {
    SaveThenParse(s);
    TruncateLess(s.ctx);
  }

  lemma TruncateLess(n: nat)
    ensures if n < TWO_TO_THE_32 then Truncate(n) == n else Truncate(n) < n
  {
  }

  lemma ParseAccepts(bytes: seq<byte>, s: Saved)
    requires Fits(s) && |bytes| == HEADER_BYTES + 4 * |s.tokens| + 4 * |s.logits|
    requires U32At(bytes, 0) == MAGIC && U32At(bytes, 4) == VERSION && U32At(bytes, 8) == Truncate(s.ctx)
    requires U32At(bytes, 12) == Truncate(if s.boundary.Some? then s.boundary.value else 0)
    requires U32At(bytes, 28) == |s.tokens| && U32At(bytes, 44) == |s.logits|
    requires TokensAt(bytes, HEADER_BYTES, |s.tokens|) == s.tokens
    requires WordsAt(bytes, HEADER_BYTES + 4 * |s.tokens|, |s.logits|) == s.logits
    ensures Parse(bytes) == Some(Recovered(s))
  {
  }

  // ---------------------------------------------------------------- the disk store's parser

  /** `snapshot_payload_meta`: anything that is no payload counts as empty; `None` is an error. */
  function PayloadMeta(bytes: seq<byte>): Option<Meta> {
    if |bytes| < HEADER_BYTES || U32At(bytes, 0) != MAGIC || U32At(bytes, 4) != VERSION then Some(Meta([], 0))
    else
      var tokenCount := U32At(bytes, 28);
      if HEADER_BYTES + 4 * tokenCount > |bytes| then None
      else Some(Meta(TokensAt(bytes, HEADER_BYTES, tokenCount), U32At(bytes, 8)))
  }

  /** Whatever bytes the session's parser accepts, the disk parser reads the same tokens and context size. */
  lemma ParsersAgree(bytes: seq<byte>)
    requires Parse(bytes).Some?
    ensures PayloadMeta(bytes) == Some(Meta(Parse(bytes).value.tokens, Parse(bytes).value.ctx))
  {
    var tokenCount, vocabSize := U32At(bytes, 28), U32At(bytes, 44);
    assert HEADER_BYTES + 4 * tokenCount <= |bytes|;
  }
}
