/** Entries of the KV disk store: the KVC file format, written and read back. */
module KvStore {
  import opened Wrappers
  import opened Utf8
  import opened Utf8Text
  import opened LittleEndian
  import opened Snapshot
  import T = ToolMap
  import opened Seqs

  /** Strings are kept as their UTF-8 bytes. */
  datatype Entry = Entry(
    reason: seq<byte>,
    renderedText: seq<byte>,
    tokens: seq<i32>,
    snapshot: seq<byte>,
    toolReplay: seq<T.ToolReplay>,
    ctxSize: nat,
    hitCount: u32,
    createdAt: u64,
    lastUsedAt: u64)

  const FILE_HEADER_BYTES: nat := 52
  const TOOL_MAP_FLAG: byte := 1
  const COLD: seq<byte> := [99, 111, 108, 100]
  const CONTINUED: seq<byte> := [99, 111, 110, 116, 105, 110, 117, 101, 100]
  const EVICT: seq<byte> := [101, 118, 105, 99, 116]
  const SHUTDOWN: seq<byte> := [115, 104, 117, 116, 100, 111, 119, 110]
  const UNKNOWN: seq<byte> := [117, 110, 107, 110, 111, 119, 110]

  /** `encode_save_reason` */
  function ReasonCode(reason: seq<byte>): byte {
    if reason == COLD then 1 else if reason == CONTINUED then 2 else if reason == EVICT then 3
    else if reason == SHUTDOWN then 4 else 0
  }

  /** `decode_save_reason` */
  function ReasonOfCode(code: byte): seq<byte> {
    if code == 1 then COLD else if code == 2 then CONTINUED else if code == 3 then EVICT
    else if code == 4 then SHUTDOWN else UNKNOWN
  }

  // ---------------------------------------------------------------- writing

  /** Every length and the context size fit their fields. */
  ghost predicate Storable(e: Entry) {
    |e.tokens| < TWO_TO_THE_32 && |e.renderedText| < TWO_TO_THE_32 && |e.reason| < TWO_TO_THE_32
    && |e.snapshot| < TWO_TO_THE_64 && e.ctxSize < TWO_TO_THE_32 && T.Writable(e.toolReplay)
  }

  function Flags(e: Entry): byte {
    if T.MapBytes(e.toolReplay) == [] then 0 else TOOL_MAP_FLAG
  }

  function Lead(code: byte, flags: byte): (b: seq<byte>)
    ensures |b| == 8 && b[5] == code && b[6] == flags
  {
    [75, 86, 67, 1, 0, code, flags, 0]
  }

  /** The fields after the first eight bytes. */
  function Fields(tokenCount: u32, hitCount: u32, ctx: u32, created: u64, used: u64, payloadLen: u64, textLen: u32): (b: seq<byte>)
    ensures |b| == 44
  {
    Le32(tokenCount) + (Le32(hitCount) + (Le32(ctx) + (Le32(0)
      + (Le64(created) + (Le64(used) + (Le64(payloadLen) + Le32(textLen)))))))
  }

  function EntryFields(e: Entry): (b: seq<byte>)
    requires |e.snapshot| < TWO_TO_THE_64
    ensures |b| == 44
  {
    Fields(Truncate(|e.tokens|), e.hitCount, Truncate(e.ctxSize), e.createdAt, e.lastUsedAt, |e.snapshot|, Truncate(|e.renderedText|))
  }

  function Trailer(e: Entry): seq<byte> {
    T.MapBytes(e.toolReplay) + (Le32(Truncate(|e.reason|)) + e.reason)
  }

  function FileBytes(e: Entry): seq<byte>
    requires |e.snapshot| < TWO_TO_THE_64
  {
    Lead(ReasonCode(e.reason), Flags(e)) + (EntryFields(e) + (e.renderedText + (e.snapshot + Trailer(e))))
  }

  lemma EightMore<X>(z: seq<X>, a: seq<X>, b: seq<X>, c: seq<X>, d: seq<X>, e: seq<X>, f: seq<X>, g: seq<X>, h: seq<X>)
    ensures z + a + b + c + d + e + f + g + h == z + (a + (b + (c + (d + (e + (f + (g + h)))))))
  {
    Regroup(z + a + b + c + d + e + f, g, h);
    Regroup(z + a + b + c + d + e, f, g + h);
    Regroup(z + a + b + c + d, e, f + (g + h));
    Regroup(z + a + b + c, d, e + (f + (g + h)));
    Regroup(z + a + b, c, d + (e + (f + (g + h))));
    Regroup(z + a, b, c + (d + (e + (f + (g + h)))));
    Regroup(z, a, b + (c + (d + (e + (f + (g + h))))));
  }

  method EncodeHeader(lead: seq<byte>, tokenCount: u32, hitCount: u32, ctx: u32, created: u64, used: u64, payloadLen: u64, textLen: u32)
    returns (bytes: seq<byte>)
    ensures bytes == lead + Fields(tokenCount, hitCount, ctx, created, used, payloadLen, textLen)
  {
    bytes := lead + Le32(tokenCount);
    bytes := bytes + Le32(hitCount);
    bytes := bytes + Le32(ctx);
    bytes := bytes + Le32(0);
    bytes := bytes + Le64(created);
    bytes := bytes + Le64(used);
    bytes := bytes + Le64(payloadLen);
    bytes := bytes + Le32(textLen);
    EightMore(lead, Le32(tokenCount), Le32(hitCount), Le32(ctx), Le32(0), Le64(created), Le64(used), Le64(payloadLen), Le32(textLen));
  }

  lemma Appended(lead: seq<byte>, fields: seq<byte>, text: seq<byte>, snapshot: seq<byte>, map_: seq<byte>, n: seq<byte>, reason: seq<byte>)
    ensures lead + fields + text + snapshot + map_ + n + reason == lead + (fields + (text + (snapshot + (map_ + (n + reason)))))
  {
    Regroup(lead + fields + text + snapshot + map_, n, reason);
    Regroup(lead + fields + text + snapshot, map_, n + reason);
    Regroup(lead + fields + text, snapshot, map_ + (n + reason));
    Regroup(lead + fields, text, snapshot + (map_ + (n + reason)));
    Regroup(lead, fields, text + (snapshot + (map_ + (n + reason))));
  }

  /** The bytes `KvDiskStore::store` writes; it fails when a size does not fit. */
  method EncodeFile(e: Entry) returns (o: Option<seq<byte>>)
    ensures o.Some? <==> Storable(e)
    ensures o.Some? ==> o.value == FileBytes(e)
  {
    if |e.tokens| >= TWO_TO_THE_32 || |e.renderedText| >= TWO_TO_THE_32 || |e.reason| >= TWO_TO_THE_32
       || |e.snapshot| >= TWO_TO_THE_64 || e.ctxSize >= TWO_TO_THE_32 {
      return None;
    }
    var toolMap := T.EncodeToolMap(e.toolReplay);
    if toolMap.None? {
      return None;
    }
    var flags := if |toolMap.value| == 0 then 0 else TOOL_MAP_FLAG;
    var lead := Lead(ReasonCode(e.reason), flags);
    var bytes := EncodeHeader(lead, |e.tokens|, e.hitCount, e.ctxSize, e.createdAt, e.lastUsedAt, |e.snapshot|, |e.renderedText|);
    bytes := bytes + e.renderedText;
    bytes := bytes + e.snapshot;
    bytes := bytes + toolMap.value;
    bytes := bytes + Le32(|e.reason|);
    bytes := bytes + e.reason;
    Appended(lead, EntryFields(e), e.renderedText, e.snapshot, toolMap.value, Le32(|e.reason|), e.reason);
    o := Some(bytes);
  }

  // ---------------------------------------------------------------- reading

  ghost function ReadTools(text: TextCheck, bytes: seq<byte>, flags: byte, at: nat): Option<T.Parsed> {
    if flags % 2 == 1 then T.ReadToolMap(text, bytes, at) else Some(T.Parsed([], at))
  }

  /** The reason at the end of the file; without one, that of the header's code. */
  ghost function ReadReason(text: TextCheck, bytes: seq<byte>, at: nat, code: byte): Option<seq<byte>> {
    if at + 4 > |bytes| then Some(ReasonOfCode(code))
    else if at + 4 + U32At(bytes, at) != |bytes| || !text(bytes[at + 4..]) then None
    else Some(bytes[at + 4..])
  }

  /** `load_kvc_entry`; the caller has checked the size of the header. */
  ghost function LoadKvc(text: TextCheck, bytes: seq<byte>): Option<Entry>
    requires |bytes| >= FILE_HEADER_BYTES
  {
    var textEnd := FILE_HEADER_BYTES + U32At(bytes, 48);
    var payloadEnd := textEnd + U64At(bytes, 40);
    if payloadEnd > |bytes| || !text(bytes[FILE_HEADER_BYTES..textEnd]) then None
    else
      LoadParts(text, bytes, bytes[FILE_HEADER_BYTES..textEnd], bytes[textEnd..payloadEnd], payloadEnd)
  }

  ghost function LoadParts(text: TextCheck, bytes: seq<byte>, rendered: seq<byte>, snapshot: seq<byte>, payloadEnd: nat): Option<Entry>
    requires |bytes| >= FILE_HEADER_BYTES
  {
    var tokenCount, ctx := U32At(bytes, 8), U32At(bytes, 16);
    var meta :- PayloadMeta(snapshot);
    if tokenCount != 0 && tokenCount != |meta.tokens| then None
    else
      var tools :- ReadTools(text, bytes, bytes[6], payloadEnd);
      var reason :- ReadReason(text, bytes, tools.cursor, bytes[5]);
      Some(Entry(reason, rendered, meta.tokens, snapshot, tools.entries, if ctx == 0 then meta.ctx else ctx,
                 U32At(bytes, 12), U64At(bytes, 24), U64At(bytes, 32)))
  }

  method ParseReason(bytes: seq<byte>, at: nat, code: byte) returns (o: Option<seq<byte>>)
    ensures o == ReadReason(IsText, bytes, at, code)
  {
    if at + 4 <= |bytes| {
      var reasonEnd := at + 4 + U32At(bytes, at);
      if reasonEnd != |bytes| {
        return None;
      }
      assert bytes[at + 4..reasonEnd] == bytes[at + 4..];
      var ok := CheckText(bytes[at + 4..reasonEnd]);
      o := if ok then Some(bytes[at + 4..reasonEnd]) else None;
    } else {
      o := Some(ReasonOfCode(code));
    }
  }

  method ParseMeta(payload: seq<byte>) returns (o: Option<Meta>)
    ensures o == PayloadMeta(payload)
  {
    if |payload| < HEADER_BYTES {
      return Some(Meta([], 0));
    }
    if U32At(payload, 0) != MAGIC || U32At(payload, 4) != VERSION {
      return Some(Meta([], 0));
    }
    var tokenCount: int := U32At(payload, 28);
    var end := HEADER_BYTES + 4 * tokenCount;
    if end > |payload| {
      return None;
    }
    var tokens := ReadTokens(payload, HEADER_BYTES, tokenCount);
    o := Some(Meta(tokens, U32At(payload, 8)));
  }

  method ParseTools(bytes: seq<byte>, flags: byte, at: nat) returns (o: Option<T.Parsed>)
    ensures o == ReadTools(IsText, bytes, flags, at)
  {
    if flags % 2 == 1 {
      o := T.ParseToolMap(bytes, at);
    } else {
      o := Some(T.Parsed([], at));
    }
  }

  method LoadEntry(bytes: seq<byte>) returns (o: Option<Entry>)
    requires |bytes| >= FILE_HEADER_BYTES
    ensures o == LoadKvc(IsText, bytes)
  {
    var textEnd := FILE_HEADER_BYTES + U32At(bytes, 48);
    var payloadEnd := textEnd + U64At(bytes, 40);
    if payloadEnd > |bytes| {
      return None;
    }
    var ok := CheckText(bytes[FILE_HEADER_BYTES..textEnd]);
    if !ok {
      return None;
    }
    var rendered, snapshot := bytes[FILE_HEADER_BYTES..textEnd], bytes[textEnd..payloadEnd];
    o := LoadAfterText(bytes, rendered, snapshot, payloadEnd);
    LoadOfSlices(IsText, bytes, rendered, snapshot, textEnd, payloadEnd);
  }

  method LoadAfterText(bytes: seq<byte>, rendered: seq<byte>, snapshot: seq<byte>, payloadEnd: nat) returns (o: Option<Entry>)
    requires |bytes| >= FILE_HEADER_BYTES
    ensures o == LoadParts(IsText, bytes, rendered, snapshot, payloadEnd)
  {
    var tokenCount, ctx := U32At(bytes, 8), U32At(bytes, 16);
    var meta := ParseMeta(snapshot);
    if meta.None? {
      return None;
    }
    if tokenCount != 0 && tokenCount != |meta.value.tokens| {
      return None;
    }
    var tools := ParseTools(bytes, bytes[6], payloadEnd);
    if tools.None? {
      return None;
    }
    var reason := ParseReason(bytes, tools.value.cursor, bytes[5]);
    if reason.None? {
      return None;
    }
    o := Some(Entry(reason.value, rendered, meta.value.tokens, snapshot, tools.value.entries,
                    if ctx == 0 then meta.value.ctx else ctx, U32At(bytes, 12), U64At(bytes, 24), U64At(bytes, 32)));
  }

  // ---------------------------------------------------------------- stored, then loaded

  ghost predicate EntryTexts(text: TextCheck, e: Entry) {
    text(e.reason) && text(e.renderedText) && T.Texts(text, e.toolReplay)
  }

  /** What is loaded from an entry's file: the snapshot's own tokens, and its context size if none was stored. */
  ghost function Reloaded(e: Entry): Option<Entry> {
    var meta :- PayloadMeta(e.snapshot);
    if e.tokens != [] && |e.tokens| != |meta.tokens| then None
    else Some(e.(tokens := meta.tokens, ctxSize := if e.ctxSize == 0 then meta.ctx else e.ctxSize))
  }

  /** The header fields of a file that starts with them. */
  lemma HeaderReadsBack(bytes: seq<byte>, code: byte, flags: byte,
                        tokenCount: u32, hitCount: u32, ctx: u32, created: u64, used: u64, payloadLen: u64, textLen: u32)
    requires Holds(bytes, 0, Lead(code, flags))
    requires Holds(bytes, 8, Fields(tokenCount, hitCount, ctx, created, used, payloadLen, textLen))
    ensures |bytes| >= FILE_HEADER_BYTES && bytes[5] == code && bytes[6] == flags
    ensures U32At(bytes, 8) == tokenCount && U32At(bytes, 12) == hitCount && U32At(bytes, 16) == ctx
    ensures U64At(bytes, 24) == created && U64At(bytes, 32) == used && U64At(bytes, 40) == payloadLen
    ensures U32At(bytes, 48) == textLen
  {
    LeadReads(bytes, code, flags);
    var a, b, c, d := Le32(tokenCount), Le32(hitCount), Le32(ctx), Le32(0);
    var e, f, g, h := Le64(created), Le64(used), Le64(payloadLen), Le32(textLen);
    HoldsParts(bytes, 8, a, 12, b + (c + (d + (e + (f + (g + h))))));
    HoldsWord(bytes, 8, tokenCount);
    HoldsParts(bytes, 12, b, 16, c + (d + (e + (f + (g + h)))));
    HoldsWord(bytes, 12, hitCount);
    HoldsParts(bytes, 16, c, 20, d + (e + (f + (g + h))));
    HoldsWord(bytes, 16, ctx);
    HoldsParts(bytes, 20, d, 24, e + (f + (g + h)));
    TimesRead(bytes, created, used, payloadLen, textLen);
  }

  lemma LeadReads(bytes: seq<byte>, code: byte, flags: byte)
    requires Holds(bytes, 0, Lead(code, flags))
    ensures |bytes| >= 8 && bytes[5] == code && bytes[6] == flags
  {
    HoldsSlice(bytes, 0, Lead(code, flags));
    assert bytes[0..8][5] == bytes[5] && bytes[0..8][6] == bytes[6];
  }

  lemma TimesRead(bytes: seq<byte>, created: u64, used: u64, payloadLen: u64, textLen: u32)
    requires Holds(bytes, 24, Le64(created) + (Le64(used) + (Le64(payloadLen) + Le32(textLen))))
    ensures |bytes| >= FILE_HEADER_BYTES
    ensures U64At(bytes, 24) == created && U64At(bytes, 32) == used && U64At(bytes, 40) == payloadLen
    ensures U32At(bytes, 48) == textLen
  {
    var e, f, g, h := Le64(created), Le64(used), Le64(payloadLen), Le32(textLen);
    HoldsParts(bytes, 24, e, 32, f + (g + h));
    HoldsLong(bytes, 24, created);
    HoldsParts(bytes, 32, f, 40, g + h);
    HoldsLong(bytes, 32, used);
    HoldsParts(bytes, 40, g, 48, h);
    HoldsLong(bytes, 40, payloadLen);
    HoldsWord(bytes, 48, textLen);
  }

  /** Where three parts stand. */
  lemma ThreeStand(bytes: seq<byte>, at: nat, a: seq<byte>, bAt: nat, b: seq<byte>, cAt: nat, c: seq<byte>)
    requires Holds(bytes, at, a + (b + c)) && bAt == at + |a| && cAt == bAt + |b|
    ensures Holds(bytes, at, a) && Holds(bytes, bAt, b) && Holds(bytes, cAt, c)
  {
    HoldsParts(bytes, at, a, bAt, b + c);
    HoldsParts(bytes, bAt, b, cAt, c);
  }

  ghost predicate ToolsAre(text: TextCheck, bytes: seq<byte>, flags: byte, at: nat, ts: seq<T.ToolReplay>, end: nat) {
    ReadTools(text, bytes, flags, at) == Some(T.Parsed(ts, end))
  }

  ghost predicate ReasonIs(text: TextCheck, bytes: seq<byte>, at: nat, code: byte, reason: seq<byte>) {
    ReadReason(text, bytes, at, code) == Some(reason)
  }

  lemma ToolsReadBack(text: TextCheck, bytes: seq<byte>, at: nat, flags: byte, ts: seq<T.ToolReplay>, end: nat)
    requires T.Writable(ts) && T.Texts(text, ts) && flags == (if ts == [] then 0 else TOOL_MAP_FLAG)
    requires Holds(bytes, at, T.MapBytes(ts)) && end == at + |T.MapBytes(ts)|
    ensures ToolsAre(text, bytes, flags, at, ts, end)
  {
    if ts != [] {
      T.MapReads(text, bytes, at, ts, end);
    }
  }

  lemma ReasonReadsBack(text: TextCheck, bytes: seq<byte>, at: nat, reason: seq<byte>, code: byte)
    requires |reason| < TWO_TO_THE_32 && text(reason) && Holds(bytes, at, Le32(|reason|) + reason) && |bytes| == at + 4 + |reason|
    ensures ReasonIs(text, bytes, at, code, reason)
  {
    HoldsParts(bytes, at, Le32(|reason|), at + 4, reason);
    HoldsWord(bytes, at, |reason|);
    HoldsSlice(bytes, at + 4, reason);
    assert bytes[at + 4..] == bytes[at + 4..at + 4 + |reason|];
  }

  /** Loading from known header fields and parts. */
  lemma LoadFromParts(text: TextCheck, bytes: seq<byte>, e: Entry, payloadEnd: nat, toolsEnd: nat)
    requires Storable(e) && |bytes| >= FILE_HEADER_BYTES && bytes[6] == Flags(e)
    requires U32At(bytes, 8) == |e.tokens| && U32At(bytes, 12) == e.hitCount && U32At(bytes, 16) == e.ctxSize
    requires U64At(bytes, 24) == e.createdAt && U64At(bytes, 32) == e.lastUsedAt
    requires ToolsAre(text, bytes, bytes[6], payloadEnd, e.toolReplay, toolsEnd)
    requires ReasonIs(text, bytes, toolsEnd, bytes[5], e.reason)
    ensures LoadParts(text, bytes, e.renderedText, e.snapshot, payloadEnd) == Reloaded(e)
  {
  }

  function SnapshotAt(e: Entry): nat { FILE_HEADER_BYTES + |e.renderedText| }

  function TrailerAt(e: Entry): nat { SnapshotAt(e) + |e.snapshot| }

  /** What a file written for an entry looks like to the loader. */
  ghost predicate Laid(bytes: seq<byte>, e: Entry) {
    && |bytes| == TrailerAt(e) + |Trailer(e)| && bytes[6] == Flags(e)
    && U32At(bytes, 8) == |e.tokens| && U32At(bytes, 12) == e.hitCount && U32At(bytes, 16) == e.ctxSize
    && U64At(bytes, 24) == e.createdAt && U64At(bytes, 32) == e.lastUsedAt
    && U64At(bytes, 40) == |e.snapshot| && U32At(bytes, 48) == |e.renderedText|
    && Holds(bytes, FILE_HEADER_BYTES, e.renderedText)
    && Holds(bytes, SnapshotAt(e), e.snapshot)
    && Holds(bytes, TrailerAt(e), Trailer(e))
  }

  lemma FileIsLaid(e: Entry)
    requires Storable(e)
    ensures Laid(FileBytes(e), e)
  {
    var bytes, lead := FileBytes(e), Lead(ReasonCode(e.reason), Flags(e));
    var rest := e.renderedText + (e.snapshot + Trailer(e));
    HoldsAll(bytes, lead + (EntryFields(e) + rest));
    ThreeStand(bytes, 0, lead, 8, EntryFields(e), FILE_HEADER_BYTES, rest);
    ThreeStand(bytes, FILE_HEADER_BYTES, e.renderedText, SnapshotAt(e), e.snapshot, TrailerAt(e), Trailer(e));
    HeaderReadsBack(bytes, ReasonCode(e.reason), Flags(e), |e.tokens|, e.hitCount, e.ctxSize, e.createdAt, e.lastUsedAt,
                    |e.snapshot|, |e.renderedText|);
  }

  lemma TrailerReadsBack(text: TextCheck, bytes: seq<byte>, e: Entry, at: nat, toolsEnd: nat, code: byte)
    requires Storable(e) && EntryTexts(text, e)
    requires Holds(bytes, at, Trailer(e)) && |bytes| == at + |Trailer(e)| && toolsEnd == at + |T.MapBytes(e.toolReplay)|
    ensures ToolsAre(text, bytes, Flags(e), at, e.toolReplay, toolsEnd)
    ensures ReasonIs(text, bytes, toolsEnd, code, e.reason)
  {
    HoldsParts(bytes, at, T.MapBytes(e.toolReplay), toolsEnd, Le32(|e.reason|) + e.reason);
    ToolsReadBack(text, bytes, at, Flags(e), e.toolReplay, toolsEnd);
    ReasonReadsBack(text, bytes, toolsEnd, e.reason, code);
  }

  lemma LaidLoads(text: TextCheck, bytes: seq<byte>, e: Entry)
    requires Storable(e) && EntryTexts(text, e) && Laid(bytes, e)
    ensures LoadKvc(text, bytes) == Reloaded(e)
  {
    var payloadEnd := TrailerAt(e);
    var toolsEnd := payloadEnd + |T.MapBytes(e.toolReplay)|;
    TrailerReadsBack(text, bytes, e, payloadEnd, toolsEnd, bytes[5]);
    LoadFromParts(text, bytes, e, payloadEnd, toolsEnd);
    LoadOfParts(text, bytes, e.renderedText, e.snapshot, SnapshotAt(e), payloadEnd);
  }

  lemma LoadOfParts(text: TextCheck, bytes: seq<byte>, rendered: seq<byte>, snapshot: seq<byte>, textEnd: nat, payloadEnd: nat)
    requires |bytes| >= FILE_HEADER_BYTES && U32At(bytes, 48) == |rendered| && U64At(bytes, 40) == |snapshot|
    requires textEnd == FILE_HEADER_BYTES + |rendered| && payloadEnd == textEnd + |snapshot|
    requires Holds(bytes, FILE_HEADER_BYTES, rendered) && Holds(bytes, textEnd, snapshot) && text(rendered)
    ensures LoadKvc(text, bytes) == LoadParts(text, bytes, rendered, snapshot, payloadEnd)
  {
    HoldsSlice(bytes, FILE_HEADER_BYTES, rendered);
    HoldsSlice(bytes, textEnd, snapshot);
    LoadOfSlices(text, bytes, rendered, snapshot, textEnd, payloadEnd);
  }

  lemma LoadOfSlices(text: TextCheck, bytes: seq<byte>, rendered: seq<byte>, snapshot: seq<byte>, textEnd: nat, payloadEnd: nat)
    requires |bytes| >= FILE_HEADER_BYTES && U32At(bytes, 48) == textEnd - FILE_HEADER_BYTES && U64At(bytes, 40) == payloadEnd - textEnd
    requires FILE_HEADER_BYTES <= textEnd <= payloadEnd <= |bytes|
    requires bytes[FILE_HEADER_BYTES..textEnd] == rendered && bytes[textEnd..payloadEnd] == snapshot && text(rendered)
    ensures LoadKvc(text, bytes) == LoadParts(text, bytes, rendered, snapshot, payloadEnd)
  {
  }

  /** Every storable entry: what is loaded from the file written for it. */
  lemma StoreThenLoad(text: TextCheck, e: Entry)
    requires Storable(e) && EntryTexts(text, e)
    ensures |FileBytes(e)| >= FILE_HEADER_BYTES && LoadKvc(text, FileBytes(e)) == Reloaded(e)
  {
    FileIsLaid(e);
    LaidLoads(text, FileBytes(e), e);
  }

  /** The entry agrees with its own snapshot. */
  ghost predicate MatchesSnapshot(e: Entry) {
    PayloadMeta(e.snapshot).Some?
    && PayloadMeta(e.snapshot).value.tokens == e.tokens
    && (e.ctxSize != 0 || PayloadMeta(e.snapshot).value.ctx == 0)
  }

  /** Round trip: all fields come back exactly when the entry's tokens are those of its snapshot. */
  lemma StoreRoundTrip(text: TextCheck, e: Entry)
    requires Storable(e) && EntryTexts(text, e)
    ensures |FileBytes(e)| >= FILE_HEADER_BYTES && (LoadKvc(text, FileBytes(e)) == Some(e) <==> MatchesSnapshot(e))
  {
    StoreThenLoad(text, e);
    var meta := PayloadMeta(e.snapshot);
    if meta.Some? && Reloaded(e).Some? {
      assert Reloaded(e).value.tokens == meta.value.tokens;
    }
  }

  /** Saved with tokens of another number than its snapshot holds, an entry is refused. */
  lemma MismatchRefused(text: TextCheck, e: Entry)
    requires Storable(e) && EntryTexts(text, e) && e.tokens != []
    requires PayloadMeta(e.snapshot).Some? && |PayloadMeta(e.snapshot).value.tokens| != |e.tokens|
    ensures |FileBytes(e)| >= FILE_HEADER_BYTES && LoadKvc(text, FileBytes(e)).None?
  {
    StoreThenLoad(text, e);
  }

  /**
   End to end: an entry made from a session's own snapshot, tokens and context size, with any tool
   replay and reason, is loaded whole, and the session's parser accepts the loaded snapshot again.
   */
  lemma SnapshotSurvives(text: TextCheck, e: Entry, s: Saved)
    requires Storable(e) && EntryTexts(text, e)
    requires Fits(s) && 0 < s.ctx < TWO_TO_THE_32
    requires e.snapshot == Payload(s) && e.tokens == s.tokens && e.ctxSize == s.ctx
    ensures |FileBytes(e)| >= FILE_HEADER_BYTES && LoadKvc(text, FileBytes(e)) == Some(e)
    ensures Parse(e.snapshot) == Some(Recovered(s))
  {
    SaveThenParse(s);
    SaveKeeps(s);
    ParsersAgree(e.snapshot);
    StoreRoundTrip(text, e);
  }

  // ---------------------------------------------------------------- the store

  datatype LoadResult = Missing | Found(entry: Entry) | Legacy | Failed

  predicate LooksLikeKvc(bytes: seq<byte>) {
    |bytes| >= FILE_HEADER_BYTES && bytes[..4] == [75, 86, 67, 1]
  }

  /** The directory as a map from rendered text to file; its name is a hash taken to be injective. */
  class KvDiskStore {
    var files: map<seq<byte>, seq<byte>>

    constructor ()
      ensures files == map[]
    {
      files := map[];
    }

    method Store(e: Entry) returns (ok: bool)
      modifies this
      ensures ok <==> Storable(e)
      ensures files == if ok then old(files)[e.renderedText := FileBytes(e)] else old(files)
    {
      var bytes := EncodeFile(e);
      ok := bytes.Some?;
      if ok {
        files := files[e.renderedText := bytes.value];
      }
    }

    /** `load_rendered_text`; a legacy file is told from a broken one by its size only. */
    method LoadRenderedText(rendered: seq<byte>) returns (r: LoadResult)
      ensures r.Missing? <==> rendered !in files
      ensures rendered in files && |files[rendered]| >= 52 && files[rendered][..4] == [75, 86, 67, 1] ==>
                r == (var o := LoadKvc(IsText, files[rendered]); if o.None? then Failed else Found(o.value))
      ensures rendered in files && !(|files[rendered]| >= 52 && files[rendered][..4] == [75, 86, 67, 1]) ==>
                r == if |files[rendered]| < 24 then Failed else Legacy
    {
      if rendered !in files {
        return Missing;
      }
      var bytes := files[rendered];
      if LooksLikeKvc(bytes) {
        var o := LoadEntry(bytes);
        return if o.None? then Failed else Found(o.value);
      }
      r := if |bytes| < 24 then Failed else Legacy;
    }
  }

  /** A stored entry is loaded under its rendered text, whatever else is stored in between. */
  method StoreAllThenLoad(disk: KvDiskStore, e: Entry, others: seq<Entry>) returns (r: LoadResult)
    requires Storable(e) && EntryTexts(IsText, e) && forall i :: 0 <= i < |others| ==> others[i].renderedText != e.renderedText
    modifies disk
    ensures r == if Reloaded(e).None? then Failed else Found(Reloaded(e).value)
  {
    var stored := disk.Store(e);
    for i := 0 to |others|
      invariant e.renderedText in disk.files && disk.files[e.renderedText] == FileBytes(e)
    {
      var ok := disk.Store(others[i]);
    }
    StoreThenLoad(IsText, e);
    KvcLead(e);
    r := disk.LoadRenderedText(e.renderedText);
  }

  lemma KvcLead(e: Entry)
    requires |e.snapshot| < TWO_TO_THE_64
    ensures LooksLikeKvc(FileBytes(e))
  {
    var lead := Lead(ReasonCode(e.reason), Flags(e));
    assert FileBytes(e)[..8] == lead;
    assert FileBytes(e)[..4] == lead[..4] == [75, 86, 67, 1];
    assert |FileBytes(e)| >= FILE_HEADER_BYTES;
  }
}
