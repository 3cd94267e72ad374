/** Where the fields of the two files stand: offsets, magic numbers and codes, written out. */
module FileFormats {
  import opened Wrappers
  import opened Utf8
  import opened Utf8Text
  import opened LittleEndian
  import opened Snapshot
  import T = ToolMap
  import K = KvStore

  // ---------------------------------------------------------------- the session's payload

  /** Thirteen header words, then the token ids, then the logits. */
  lemma SnapshotHeader(s: Saved)
    ensures var b := Payload(s);
            && |b| == 52 + 4 * |s.tokens| + 4 * |s.logits|
            && U32At(b, 0) == 0x3456_5344 && U32At(b, 4) == 1 && U32At(b, 8) == s.ctx % 0x1_0000_0000
            && U32At(b, 12) == (if s.boundary.Some? then s.boundary.value % 0x1_0000_0000 else 0)
            && U32At(b, 16) == 0 && U32At(b, 20) == 0 && U32At(b, 24) == 0
            && U32At(b, 28) == |s.tokens| % 0x1_0000_0000 && U32At(b, 32) == s.layers % 0x1_0000_0000
            && U32At(b, 36) == 0 && U32At(b, 40) == 0
            && U32At(b, 44) == |s.logits| % 0x1_0000_0000 && U32At(b, 48) == 0
  {
    var b, h := Payload(s), Header(s);
    PayloadParts(s);
    WordStands(b, 0, h, 0, 0);
    WordStands(b, 0, h, 1, 4);
    WordStands(b, 0, h, 2, 8);
    WordStands(b, 0, h, 3, 12);
    WordStands(b, 0, h, 4, 16);
    WordStands(b, 0, h, 5, 20);
    WordStands(b, 0, h, 6, 24);
    WordStands(b, 0, h, 7, 28);
    WordStands(b, 0, h, 8, 32);
    WordStands(b, 0, h, 9, 36);
    WordStands(b, 0, h, 10, 40);
    WordStands(b, 0, h, 11, 44);
    WordStands(b, 0, h, 12, 48);
  }

  /** Token `i` stands behind the header, in two's complement. */
  lemma SnapshotToken(s: Saved, i: nat, at: nat)
    requires i < |s.tokens| && at == 52 + 4 * i
    ensures at + 4 <= |Payload(s)|
    ensures var t: int := s.tokens[i]; U32At(Payload(s), at) == if t < 0 then t + 0x1_0000_0000 else t
  {
    PayloadParts(s);
    WordStands(Payload(s), 52, TokenBits(s.tokens), i, at);
  }

  /** Logit `i` stands behind the tokens, bit for bit. */
  lemma SnapshotLogit(s: Saved, i: nat, at: nat)
    requires i < |s.logits| && at == 52 + 4 * |s.tokens| + 4 * i
    ensures at + 4 <= |Payload(s)| && U32At(Payload(s), at) == s.logits[i]
  {
    PayloadParts(s);
    WordStands(Payload(s), 52 + 4 * |s.tokens|, s.logits, i, at);
  }

  ghost predicate IsPayload(b: seq<byte>) {
    && |b| >= 52 && U32At(b, 0) == 0x3456_5344 && U32At(b, 4) == 1
    && |b| == 52 + 4 * U32At(b, 28) + 4 * U32At(b, 44)
  }

  /** What the session's parser accepts, and what it takes from where. */
  lemma SnapshotAccepted(b: seq<byte>)
    ensures Parse(b).Some? <==> IsPayload(b)
    ensures IsPayload(b) ==>
              var p, n := Parse(b).value, U32At(b, 28);
              && p.ctx == U32At(b, 8) && p.boundary == (if U32At(b, 12) == 0 then None else Some(U32At(b, 12)))
              && |p.tokens| == n && |p.logits| == U32At(b, 44)
              && (forall i :: 0 <= i < n ==>
                    p.tokens[i] == var w := U32At(b, 52 + 4 * i); if w < 0x8000_0000 then w else w - 0x1_0000_0000)
              && forall i :: 0 <= i < U32At(b, 44) ==> p.logits[i] == U32At(b, 52 + 4 * n + 4 * i)
  {
  }

  /** What the disk store takes from a payload: bytes of another kind count as an empty one. */
  lemma MetaIs(b: seq<byte>)
    ensures var isPayload := |b| >= 52 && U32At(b, 0) == 0x3456_5344 && U32At(b, 4) == 1;
            && (PayloadMeta(b).None? <==> isPayload && 52 + 4 * U32At(b, 28) > |b|)
            && (!isPayload ==> PayloadMeta(b) == Some(Meta([], 0)))
            && (isPayload && 52 + 4 * U32At(b, 28) <= |b| ==>
                  var m := PayloadMeta(b).value;
                  m.ctx == U32At(b, 8) && |m.tokens| == U32At(b, 28)
                  && forall i :: 0 <= i < |m.tokens| ==>
                       m.tokens[i] == var w := U32At(b, 52 + 4 * i); if w < 0x8000_0000 then w else w - 0x1_0000_0000)
  {
  }

  // ---------------------------------------------------------------- the tool map

  /** Where entry `k` of a tool map starts: two lengths and two texts for each one before it. */
  ghost function ToolAt(ts: seq<T.ToolReplay>, k: nat): nat
    requires k <= |ts|
  {
    if k == 0 then 8 else ToolAt(ts, k - 1) + 8 + |ts[k - 1].toolCallId| + |ts[k - 1].sampledBlock|
  }

  lemma OneFurther(b: seq<byte>, at: nat, ts: seq<T.ToolReplay>, t: T.ToolReplay, rest: seq<T.ToolReplay>, next: nat)
    requires ts != [] && ts[0] == t && ts[1..] == rest && next == at + 8 + |t.toolCallId| + |t.sampledBlock|
    requires Holds(b, at, T.EntriesBytes(ts)) && at + |T.EntriesBytes(ts)| == |b|
    ensures Holds(b, next, T.EntriesBytes(rest)) && next + |T.EntriesBytes(rest)| == |b|
  {
    HoldsParts(b, at, T.EntryBytes(t), next, T.EntriesBytes(rest));
  }

  lemma {:induction false} RestStands(b: seq<byte>, ts: seq<T.ToolReplay>, k: nat)
    requires T.Writable(ts) && ts != [] && b == T.MapBytes(ts) && k <= |ts|
    ensures Holds(b, ToolAt(ts, k), T.EntriesBytes(ts[k..])) && ToolAt(ts, k) + |T.EntriesBytes(ts[k..])| == |b|
  {
    if k == 0 {
      HoldsAll(b, b);
      T.MapHolds(b, 0, |ts|, T.EntriesBytes(ts));
      assert ts[0..] == ts;
    } else {
      RestStands(b, ts, k - 1);
      assert ts[k - 1..][0] == ts[k - 1] && ts[k - 1..][1..] == ts[k..];
      OneFurther(b, ToolAt(ts, k - 1), ts[k - 1..], ts[k - 1], ts[k..], ToolAt(ts, k));
    }
  }

  /** A tool map: the magic bytes, the number of entries, and the entries one behind the other. */
  lemma ToolMapLayout(ts: seq<T.ToolReplay>)
    requires T.Writable(ts)
    ensures var b := T.MapBytes(ts);
            if ts == [] then b == [] else |b| == ToolAt(ts, |ts|) && b[..4] == [75, 84, 77, 1] && U32At(b, 4) == |ts|
  {
    if ts != [] {
      var b := T.MapBytes(ts);
      HoldsAll(b, b);
      T.MapHolds(b, 0, |ts|, T.EntriesBytes(ts));
      RestStands(b, ts, |ts|);
    }
  }

  lemma ToolEntryLayout(ts: seq<T.ToolReplay>, k: nat, at: nat, id: seq<byte>, block: seq<byte>)
    requires T.Writable(ts) && k < |ts| && at == ToolAt(ts, k) && id == ts[k].toolCallId && block == ts[k].sampledBlock
    ensures var b := T.MapBytes(ts);
            && at + 8 + |id| + |block| <= |b| && U32At(b, at) == |id| && U32At(b, at + 4) == |block|
            && b[at + 8..at + 8 + |id|] == id && b[at + 8 + |id|..at + 8 + |id| + |block|] == block
  {
    var b, rest := T.MapBytes(ts), ts[k..];
    RestStands(b, ts, k);
    assert rest[0] == ts[k];
    HoldsParts(b, at, T.EntryBytes(ts[k]), at + |T.EntryBytes(ts[k])|, T.EntriesBytes(rest[1..]));
    T.PairHolds(b, at, id, block);
  }

  /** One entry between two positions: two lengths, then the two texts. */
  ghost predicate EntryStands(text: TextCheck, b: seq<byte>, at: nat, t: T.ToolReplay, end: nat) {
    var n, m := |t.toolCallId|, |t.sampledBlock|;
    && end == at + 8 + n + m <= |b| && U32At(b, at) == n && U32At(b, at + 4) == m
    && b[at + 8..at + 8 + n] == t.toolCallId && b[at + 8 + n..end] == t.sampledBlock
    && text(t.toolCallId) && text(t.sampledBlock)
  }

  /** Entries one behind the other, `ps` being where each starts and where the last one ends. */
  ghost predicate EntriesStand(text: TextCheck, b: seq<byte>, ts: seq<T.ToolReplay>, ps: seq<nat>) {
    |ps| == |ts| + 1 && forall k :: 0 <= k < |ts| ==> EntryStands(text, b, ps[k], ts[k], ps[k + 1])
  }

  lemma OneEntryRead(text: TextCheck, b: seq<byte>, at: nat, t: T.ToolReplay, end: nat)
    ensures T.ReadEntry(text, b, at) == Some(T.Parsed([t], end)) <==> EntryStands(text, b, at, t, end)
  {
  }

  lemma {:induction false} EntriesReadFrom(text: TextCheck, b: seq<byte>, at: nat, n: nat) returns (ps: seq<nat>)
    requires T.ReadEntries(text, b, at, n).Some?
    ensures var r := T.ReadEntries(text, b, at, n).value;
            |r.entries| == n && |ps| == n + 1 && EntriesStand(text, b, r.entries, ps) && ps[0] == at && ps[n] == r.cursor
    decreases n
  {
    if n == 0 {
      ps := [at];
    } else {
      var first := T.ReadEntry(text, b, at).value;
      var rest := T.ReadEntries(text, b, first.cursor, n - 1).value;
      OneEntryRead(text, b, at, first.entries[0], first.cursor);
      var qs := EntriesReadFrom(text, b, first.cursor, n - 1);
      ps := [at] + qs;
      StandsInFront(text, b, first.entries[0], at, rest.entries, qs);
      assert first.entries == [first.entries[0]];
    }
  }

  lemma StandsInFront(text: TextCheck, b: seq<byte>, t: T.ToolReplay, at: nat, ts: seq<T.ToolReplay>, ps: seq<nat>)
    requires EntriesStand(text, b, ts, ps) && EntryStands(text, b, at, t, ps[0])
    ensures EntriesStand(text, b, [t] + ts, [at] + ps)
  {
    var us, qs := [t] + ts, [at] + ps;
    forall k | 0 <= k < |us|
      ensures EntryStands(text, b, qs[k], us[k], qs[k + 1])
    {
      if k > 0 {
        assert EntryStands(text, b, ps[k - 1], ts[k - 1], ps[k]);
      }
    }
  }

  lemma {:induction false} EntriesAreRead(text: TextCheck, b: seq<byte>, ts: seq<T.ToolReplay>, ps: seq<nat>)
    requires EntriesStand(text, b, ts, ps)
    ensures T.ReadEntries(text, b, ps[0], |ts|) == Some(T.Parsed(ts, ps[|ts|]))
    decreases |ts|
  {
    if ts == [] {
    } else {
      var rest, qs := ts[1..], ps[1..];
      assert EntryStands(text, b, ps[0], ts[0], ps[1]);
      forall k | 0 <= k < |rest|
        ensures EntryStands(text, b, qs[k], rest[k], qs[k + 1])
      {
        assert EntryStands(text, b, ps[k + 1], ts[k + 1], ps[k + 2]);
      }
      EntriesAreRead(text, b, rest, qs);
      OneEntryRead(text, b, ps[0], ts[0], ps[1]);
      assert [ts[0]] + rest == ts;
    }
  }

  /** A tool map with these entries stands at `at` and ends at `end`. */
  ghost predicate ToolsStand(text: TextCheck, b: seq<byte>, at: nat, ts: seq<T.ToolReplay>, end: nat) {
    && at + 8 <= |b| && b[at..at + 4] == [75, 84, 77, 1] && U32At(b, at + 4) == |ts|
    && exists ps :: EntriesStand(text, b, ts, ps) && ps[0] == at + 8 && ps[|ts|] == end
  }

  /** Reading accepts a tool map exactly where one stands, and gives its entries and its end. */
  lemma ToolsReadExactly(text: TextCheck, b: seq<byte>, at: nat, ts: seq<T.ToolReplay>, end: nat)
    ensures T.ReadToolMap(text, b, at) == Some(T.Parsed(ts, end)) <==> ToolsStand(text, b, at, ts, end)
  {
    if T.ReadToolMap(text, b, at) == Some(T.Parsed(ts, end)) {
      var ps := EntriesReadFrom(text, b, at + 8, U32At(b, at + 4));
      assert EntriesStand(text, b, ts, ps);
    } else if ToolsStand(text, b, at, ts, end) {
      var ps :| EntriesStand(text, b, ts, ps) && ps[0] == at + 8 && ps[|ts|] == end;
      EntriesAreRead(text, b, ts, ps);
    }
  }

  // ---------------------------------------------------------------- the disk store's file

  /** Four reasons have a code. */
  lemma ReasonCodes(reason: seq<byte>)
    ensures K.ReasonCode(reason) == if reason == Ascii("cold") then 1 else if reason == Ascii("continued") then 2
                                    else if reason == Ascii("evict") then 3 else if reason == Ascii("shutdown") then 4 else 0
  {
    assert Ascii("cold") == [99, 111, 108, 100];
    assert Ascii("continued") == [99, 111, 110, 116, 105, 110, 117, 101, 100];
    assert Ascii("evict") == [101, 118, 105, 99, 116];
    assert Ascii("shutdown") == [115, 104, 117, 116, 100, 111, 119, 110];
  }

  lemma ReasonsOfCodes(code: byte)
    ensures K.ReasonOfCode(code) == if code == 1 then Ascii("cold") else if code == 2 then Ascii("continued")
                                    else if code == 3 then Ascii("evict") else if code == 4 then Ascii("shutdown")
                                    else Ascii("unknown")
  {
    assert Ascii("cold") == [99, 111, 108, 100];
    assert Ascii("continued") == [99, 111, 110, 116, 105, 110, 117, 101, 100];
    assert Ascii("evict") == [101, 118, 105, 99, 116];
    assert Ascii("shutdown") == [115, 104, 117, 116, 100, 111, 119, 110];
    assert Ascii("unknown") == [117, 110, 107, 110, 111, 119, 110];
  }

  /** The header of a file: 52 bytes. */
  lemma FileHeader(e: K.Entry)
    requires K.Storable(e)
    ensures var b := K.FileBytes(e);
            && |b| >= 52 && b[..8] == [75, 86, 67, 1, 0, K.ReasonCode(e.reason), if e.toolReplay == [] then 0 else 1, 0]
            && U32At(b, 8) == |e.tokens| && U32At(b, 12) == e.hitCount && U32At(b, 16) == e.ctxSize && U32At(b, 20) == 0
            && U64At(b, 24) == e.createdAt && U64At(b, 32) == e.lastUsedAt && U64At(b, 40) == |e.snapshot|
            && U32At(b, 48) == |e.renderedText|
  {
    K.FileIsLaid(e);
    FileStart(e, K.FileBytes(e), K.Lead(K.ReasonCode(e.reason), K.Flags(e)));
  }

  /** Behind the header: the rendered text, the payload, the tool map, and the reason behind its length. */
  lemma FileParts(e: K.Entry, snapshotAt: nat, toolsAt: nat, reasonAt: nat)
    requires K.Storable(e)
    requires snapshotAt == 52 + |e.renderedText| && toolsAt == snapshotAt + |e.snapshot| && reasonAt == toolsAt + |T.MapBytes(e.toolReplay)|
    ensures var b := K.FileBytes(e);
            && |b| == reasonAt + 4 + |e.reason|
            && b[52..snapshotAt] == e.renderedText && b[snapshotAt..toolsAt] == e.snapshot
            && b[toolsAt..reasonAt] == T.MapBytes(e.toolReplay)
            && U32At(b, reasonAt) == |e.reason| && b[reasonAt + 4..] == e.reason
  {
    var b := K.FileBytes(e);
    K.FileIsLaid(e);
    HoldsSlice(b, 52, e.renderedText);
    HoldsSlice(b, snapshotAt, e.snapshot);
    TrailerParts(b, toolsAt, T.MapBytes(e.toolReplay), reasonAt, e.reason);
  }

  lemma TrailerParts(b: seq<byte>, at: nat, map_: seq<byte>, reasonAt: nat, reason: seq<byte>)
    requires |reason| < TWO_TO_THE_32 && reasonAt == at + |map_| && |b| == reasonAt + 4 + |reason|
    requires Holds(b, at, map_ + (Le32(|reason|) + reason))
    ensures b[at..reasonAt] == map_ && U32At(b, reasonAt) == |reason| && b[reasonAt + 4..] == reason
  {
    HoldsParts(b, at, map_, reasonAt, Le32(|reason|) + reason);
    HoldsSlice(b, at, map_);
    LengthThenText(b, reasonAt, |reason|, reason);
  }

  lemma LengthThenText(b: seq<byte>, at: nat, n: u32, x: seq<byte>)
    requires Holds(b, at, Le32(n) + x) && |b| == at + 4 + |x|
    ensures U32At(b, at) == n && b[at + 4..] == x
  {
    HoldsParts(b, at, Le32(n), at + 4, x);
    HoldsWord(b, at, n);
    HoldsSlice(b, at + 4, x);
    assert b[at + 4..] == b[at + 4..at + 4 + |x|];
  }

  lemma FileStart(e: K.Entry, b: seq<byte>, lead: seq<byte>)
    requires K.Storable(e) && b == K.FileBytes(e) && lead == K.Lead(K.ReasonCode(e.reason), K.Flags(e))
    ensures |b| >= 52 && b[..8] == lead && U32At(b, 20) == 0
  {
    var rest := e.renderedText + (e.snapshot + K.Trailer(e));
    var words := Le32(|e.tokens|) + (Le32(e.hitCount) + Le32(e.ctxSize));
    var times := Le64(e.createdAt) + (Le64(e.lastUsedAt) + (Le64(|e.snapshot|) + Le32(|e.renderedText|)));
    assert b == lead + (K.EntryFields(e) + rest);
    HoldsAll(b, lead + (K.EntryFields(e) + rest));
    K.ThreeStand(b, 0, lead, 8, K.EntryFields(e), 52, rest);
    HoldsSlice(b, 0, lead);
    assert K.EntryFields(e) == words + (Le32(0) + times);
    K.ThreeStand(b, 8, words, 20, Le32(0), 24, times);
    HoldsWord(b, 20, 0);
  }

  /** The reason at `end`; where there is no room for a length, the reason is that of the code. */
  ghost predicate ReasonStands(text: TextCheck, b: seq<byte>, end: nat, code: byte, reason: seq<byte>) {
    if end + 4 > |b| then reason == K.ReasonOfCode(code)
    else U32At(b, end) == |reason| && b[end + 4..] == reason && text(reason)
  }

  /** The tool map at `at` up to `end`, if the lowest flag says that there is one. */
  ghost predicate FlaggedTools(text: TextCheck, b: seq<byte>, flags: byte, at: nat, ts: seq<T.ToolReplay>, end: nat) {
    if flags % 2 == 1 then ToolsStand(text, b, at, ts, end) else ts == [] && end == at
  }

  /** The fields of the entry behind whose text and payload `toolsAt` lies; `end` is where the tool map ends. */
  ghost predicate FieldsOf(text: TextCheck, b: seq<byte>, e: K.Entry, toolsAt: nat, end: nat) {
    && |b| >= 52
    && U32At(b, 12) == e.hitCount && U64At(b, 24) == e.createdAt && U64At(b, 32) == e.lastUsedAt
    && PayloadMeta(e.snapshot).Some? && e.tokens == PayloadMeta(e.snapshot).value.tokens
    && (U32At(b, 8) == 0 || U32At(b, 8) == |e.tokens|)
    && e.ctxSize == (if U32At(b, 16) == 0 then PayloadMeta(e.snapshot).value.ctx else U32At(b, 16))
    && FlaggedTools(text, b, b[6], toolsAt, e.toolReplay, end) && ReasonStands(text, b, end, b[5], e.reason)
  }

  /** The text and the payload of the entry stand behind the header, and end at `toolsAt`. */
  ghost predicate TextsStand(text: TextCheck, b: seq<byte>, rendered: seq<byte>, snapshot: seq<byte>, toolsAt: nat) {
    && |b| >= 52 && U32At(b, 48) == |rendered| && U64At(b, 40) == |snapshot|
    && toolsAt == 52 + |rendered| + |snapshot| && toolsAt <= |b|
    && b[52..52 + |rendered|] == rendered && text(rendered) && b[52 + |rendered|..toolsAt] == snapshot
  }

  /** The entry that bytes of at least a header's length hold. */
  ghost predicate EntryOfBytes(text: TextCheck, b: seq<byte>, e: K.Entry, toolsAt: nat, end: nat) {
    TextsStand(text, b, e.renderedText, e.snapshot, toolsAt) && FieldsOf(text, b, e, toolsAt, end)
  }

  lemma ReasonReadExactly(text: TextCheck, b: seq<byte>, end: nat, code: byte, reason: seq<byte>)
    ensures K.ReadReason(text, b, end, code) == Some(reason) <==> ReasonStands(text, b, end, code, reason)
  {
  }

  lemma FlaggedReadExactly(text: TextCheck, b: seq<byte>, flags: byte, at: nat, ts: seq<T.ToolReplay>, end: nat)
    ensures K.ReadTools(text, b, flags, at) == Some(T.Parsed(ts, end)) <==> FlaggedTools(text, b, flags, at, ts, end)
  {
    ToolsReadExactly(text, b, at, ts, end);
  }

  lemma FieldsRead(text: TextCheck, b: seq<byte>, toolsAt: nat, e: K.Entry) returns (end: nat)
    requires |b| >= 52 && K.LoadParts(text, b, e.renderedText, e.snapshot, toolsAt) == Some(e)
    ensures FieldsOf(text, b, e, toolsAt, end)
  {
    end := K.ReadTools(text, b, b[6], toolsAt).value.cursor;
    FlaggedReadExactly(text, b, b[6], toolsAt, e.toolReplay, end);
    ReasonReadExactly(text, b, end, b[5], e.reason);
  }

  lemma FieldsAreRead(text: TextCheck, b: seq<byte>, toolsAt: nat, e: K.Entry, end: nat)
    requires FieldsOf(text, b, e, toolsAt, end)
    ensures K.LoadParts(text, b, e.renderedText, e.snapshot, toolsAt) == Some(e)
  {
    FlaggedReadExactly(text, b, b[6], toolsAt, e.toolReplay, end);
    ReasonReadExactly(text, b, end, b[5], e.reason);
  }

  lemma TextsRead(text: TextCheck, b: seq<byte>, e: K.Entry, toolsAt: nat)
    requires |b| >= 52 && K.LoadKvc(text, b) == Some(e) && toolsAt == 52 + U32At(b, 48) + U64At(b, 40)
    ensures TextsStand(text, b, e.renderedText, e.snapshot, toolsAt)
    ensures K.LoadParts(text, b, e.renderedText, e.snapshot, toolsAt) == Some(e)
  {
  }

  lemma TextsLoad(text: TextCheck, b: seq<byte>, rendered: seq<byte>, snapshot: seq<byte>, toolsAt: nat, o: Option<K.Entry>)
    requires TextsStand(text, b, rendered, snapshot, toolsAt) && K.LoadParts(text, b, rendered, snapshot, toolsAt) == o
    ensures K.LoadKvc(text, b) == o
  {
    K.LoadOfSlices(text, b, rendered, snapshot, 52 + |rendered|, toolsAt);
  }

  lemma LoadedHolds(text: TextCheck, b: seq<byte>, e: K.Entry) returns (toolsAt: nat, end: nat)
    requires |b| >= 52 && K.LoadKvc(text, b) == Some(e)
    ensures EntryOfBytes(text, b, e, toolsAt, end)
  {
    toolsAt := 52 + U32At(b, 48) + U64At(b, 40);
    TextsRead(text, b, e, toolsAt);
    end := FieldsRead(text, b, toolsAt, e);
  }

  lemma HeldLoads(text: TextCheck, b: seq<byte>, e: K.Entry, toolsAt: nat, end: nat)
    requires |b| >= 52 && EntryOfBytes(text, b, e, toolsAt, end)
    ensures K.LoadKvc(text, b) == Some(e)
  {
    FieldsAreRead(text, b, toolsAt, e, end);
    TextsLoad(text, b, e.renderedText, e.snapshot, toolsAt, Some(e));
  }

  /** Whatever the bytes: the loader gives an entry exactly if they hold it, and fails if they hold none. */
  lemma LoadsExactly(text: TextCheck, b: seq<byte>, e: K.Entry)
    requires |b| >= 52
    ensures K.LoadKvc(text, b) == Some(e) <==> exists toolsAt, end :: EntryOfBytes(text, b, e, toolsAt, end)
  {
    if K.LoadKvc(text, b) == Some(e) {
      var toolsAt, end := LoadedHolds(text, b, e);
    } else if toolsAt: nat, end: nat :| EntryOfBytes(text, b, e, toolsAt, end) {
      HeldLoads(text, b, e, toolsAt, end);
    }
  }
}
