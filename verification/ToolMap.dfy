/**
 The tool-replay section of a stored entry, written and read back: a magic number, a count, and for every
 entry two lengths and two texts. Reading checks lengths and text encoding, and says where it stopped.
 */
module ToolMap {
  import opened Wrappers
  import opened Utf8
  import opened Utf8Text
  import opened LittleEndian
  import opened Seqs

  /** Strings are kept as their UTF-8 bytes. */
  datatype ToolReplay = ToolReplay(toolCallId: seq<byte>, sampledBlock: seq<byte>)

  const MAGIC: seq<byte> := [75, 84, 77, 1]

  /** `read_u32` */
  function ReadU32(bytes: seq<byte>, at: nat): (o: Option<nat>)
    ensures o.Some? ==> o.value < TWO_TO_THE_32
  {
    if at + 4 <= |bytes| then Some(U32At(bytes, at)) else None
  }

  predicate FitsU32(s: seq<byte>) { |s| < TWO_TO_THE_32 }

  /** The check that bytes are a text; the readers use `IsText`. */
  ghost predicate Texts(text: TextCheck, ts: seq<ToolReplay>) {
    forall i :: 0 <= i < |ts| ==> text(ts[i].toolCallId) && text(ts[i].sampledBlock)
  }

  // ---------------------------------------------------------------- writing

  /** Two lengths, then the two texts. */
  function PairBytes(id: seq<byte>, block: seq<byte>): (b: seq<byte>)
    ensures |b| == 8 + |id| + |block|
  {
    Le32(Truncate(|id|)) + (Le32(Truncate(|block|)) + (id + block))
  }

  function EntryBytes(t: ToolReplay): seq<byte> {
    PairBytes(t.toolCallId, t.sampledBlock)
  }

  function EntriesBytes(ts: seq<ToolReplay>): seq<byte> {
    if ts == [] then [] else EntryBytes(ts[0]) + EntriesBytes(ts[1..])
  }

  /** Every length can be written as a `u32`. */
  ghost predicate Writable(ts: seq<ToolReplay>) {
    |ts| < TWO_TO_THE_32
    && forall i :: 0 <= i < |ts| ==> FitsU32(ts[i].toolCallId) && FitsU32(ts[i].sampledBlock)
  }

  function MapBytes(ts: seq<ToolReplay>): seq<byte> {
    if ts == [] then [] else MAGIC + (Le32(Truncate(|ts|)) + EntriesBytes(ts))
  }

  lemma EntriesBytesStep(ts: seq<ToolReplay>, k: nat)
    requires k < |ts|
    ensures EntriesBytes(ts[k..]) == EntryBytes(ts[k]) + EntriesBytes(ts[k + 1..])
  {
    assert ts[k..][1..] == ts[k + 1..];
  }

  method EncodeEntry(before: seq<byte>, id: seq<byte>, block: seq<byte>) returns (o: Option<seq<byte>>)
    ensures o == if FitsU32(id) && FitsU32(block) then Some(before + PairBytes(id, block)) else None
  {
    if |id| >= TWO_TO_THE_32 || |block| >= TWO_TO_THE_32 {
      return None;
    }
    var bytes := before + Le32(|id|);
    bytes := bytes + Le32(|block|);
    bytes := bytes + id;
    bytes := bytes + block;
    FourMore(before, Le32(|id|), Le32(|block|), id, block);
    o := Some(bytes);
  }

  lemma FourMore<T>(z: seq<T>, a: seq<T>, b: seq<T>, c: seq<T>, d: seq<T>)
    ensures (((z + a) + b) + c) + d == z + (a + (b + (c + d)))
  {
  }

  /** `encode_tool_map`: nothing for no entries; fails when a length does not fit. */
  method EncodeToolMap(ts: seq<ToolReplay>) returns (o: Option<seq<byte>>)
    ensures Writable(ts) ==> o == Some(MapBytes(ts))
    ensures !Writable(ts) ==> o.None?
  {
    if |ts| == 0 {
      return Some([]);
    }
    if |ts| >= TWO_TO_THE_32 {
      return None;
    }
    var header := MAGIC + Le32(|ts|);
    Regroup(MAGIC, Le32(|ts|), EntriesBytes(ts));
    o := EncodeEntries(header, ts);
  }

  method EncodeEntries(header: seq<byte>, ts: seq<ToolReplay>) returns (o: Option<seq<byte>>)
    requires |ts| < TWO_TO_THE_32
    ensures o == if Writable(ts) then Some(header + EntriesBytes(ts)) else None
  {
    var bytes := header;
    assert ts[0..] == ts;
    for k := 0 to |ts|
      invariant forall i :: 0 <= i < k ==> FitsU32(ts[i].toolCallId) && FitsU32(ts[i].sampledBlock)
      invariant bytes + EntriesBytes(ts[k..]) == header + EntriesBytes(ts)
    {
      EntriesBytesStep(ts, k);
      Regroup(bytes, EntryBytes(ts[k]), EntriesBytes(ts[k + 1..]));
      var longer := EncodeEntry(bytes, ts[k].toolCallId, ts[k].sampledBlock);
      if longer.None? {
        return None;
      }
      bytes := longer.value;
    }
    assert Writable(ts);
    assert EntriesBytes(ts[|ts|..]) == [] && bytes + [] == bytes;
    o := Some(bytes);
  }

  // ---------------------------------------------------------------- reading

  datatype Parsed = Parsed(entries: seq<ToolReplay>, cursor: nat)

  /** One entry at the cursor; `None` for any of the reader's errors. */
  ghost function ReadEntry(text: TextCheck, bytes: seq<byte>, cursor: nat): (o: Option<Parsed>)
    ensures o.Some? ==> |o.value.entries| == 1 && cursor < o.value.cursor <= |bytes|
  {
    if cursor + 8 > |bytes| then None
    else
      var idEnd := cursor + 8 + U32At(bytes, cursor);
      var blockEnd := idEnd + U32At(bytes, cursor + 4);
      if blockEnd > |bytes| || !text(bytes[cursor + 8..idEnd]) || !text(bytes[idEnd..blockEnd]) then None
      else Some(Parsed([ToolReplay(bytes[cursor + 8..idEnd], bytes[idEnd..blockEnd])], blockEnd))
  }

  /** The body of the loop of `parse_tool_map`. */
  method ParseEntry(bytes: seq<byte>, start: nat) returns (o: Option<Parsed>)
    ensures o == ReadEntry(IsText, bytes, start)
  {
    var idLen :- ReadU32(bytes, start);
    var blockLen :- ReadU32(bytes, start + 4);
    var cursor := start + 8;
    var idEnd := cursor + idLen;
    var blockEnd := idEnd + blockLen;
    if blockEnd > |bytes| {
      return None;
    }
    var idOk := CheckText(bytes[cursor..idEnd]);
    if !idOk {
      return None;
    }
    var blockOk := CheckText(bytes[idEnd..blockEnd]);
    if !blockOk {
      return None;
    }
    o := Some(Parsed([ToolReplay(bytes[cursor..idEnd], bytes[idEnd..blockEnd])], blockEnd));
  }

  ghost function ReadEntries(text: TextCheck, bytes: seq<byte>, cursor: nat, n: nat): (o: Option<Parsed>)
    decreases n
  {
    if n == 0 then Some(Parsed([], cursor))
    else
      var first :- ReadEntry(text, bytes, cursor);
      var rest :- ReadEntries(text, bytes, first.cursor, n - 1);
      Some(Parsed(first.entries + rest.entries, rest.cursor))
  }

  /** `parse_tool_map` */
  ghost function ReadToolMap(text: TextCheck, bytes: seq<byte>, at: nat): Option<Parsed> {
    if |bytes| < at + 8 || bytes[at..at + 4] != MAGIC then None
    else ReadEntries(text, bytes, at + 8, U32At(bytes, at + 4))
  }

  /** What is left to read, behind the entries already read. */
  ghost function Behind(done: seq<ToolReplay>, rest: Option<Parsed>): Option<Parsed> {
    if rest.None? then None else Some(Parsed(done + rest.value.entries, rest.value.cursor))
  }

  lemma ReadStep(text: TextCheck, bytes: seq<byte>, done: seq<ToolReplay>, cursor: nat, n: nat)
    requires n > 0
    ensures var first := ReadEntry(text, bytes, cursor);
            Behind(done, ReadEntries(text, bytes, cursor, n)) ==
            if first.None? then None else Behind(done + first.value.entries, ReadEntries(text, bytes, first.value.cursor, n - 1))
  {
    var first := ReadEntry(text, bytes, cursor);
    if first.Some? {
      var rest := ReadEntries(text, bytes, first.value.cursor, n - 1);
      if rest.Some? {
        Regroup(done, first.value.entries, rest.value.entries);
      }
    }
  }

  method ParseToolMap(bytes: seq<byte>, at: nat) returns (o: Option<Parsed>)
    ensures o == ReadToolMap(IsText, bytes, at)
  {
    if |bytes| < at + 8 {
      return None;
    }
    if bytes[at..at + 4] != MAGIC {
      return None;
    }
    o := ParseEntries(bytes, at + 8, U32At(bytes, at + 4));
  }

  method ParseEntries(bytes: seq<byte>, start: nat, count: nat) returns (o: Option<Parsed>)
    ensures o == ReadEntries(IsText, bytes, start, count)
  {
    var cursor := start;
    var out := [];
    NothingBefore(ReadEntries(IsText, bytes, start, count));
    for i := 0 to count
      invariant ReadEntries(IsText, bytes, start, count) == Behind(out, ReadEntries(IsText, bytes, cursor, count - i))
    {
      ReadStep(IsText, bytes, out, cursor, count - i);
      var entry := ParseEntry(bytes, cursor);
      if entry.None? {
        return None;
      }
      out := out + entry.value.entries;
      cursor := entry.value.cursor;
    }
    assert out + [] == out;
    o := Some(Parsed(out, cursor));
  }

  lemma NothingBefore(rest: Option<Parsed>)
    ensures Behind([], rest) == rest
  {
    if rest.Some? {
      assert [] + rest.value.entries == rest.value.entries;
    }
  }

  // ---------------------------------------------------------------- written, then read

  /** The entry stands at `at` and ends at `end`. */
  ghost predicate ReadsOne(text: TextCheck, bytes: seq<byte>, at: nat, t: ToolReplay, end: nat) {
    ReadEntry(text, bytes, at) == Some(Parsed([t], end))
  }

  /** Two lengths and two texts are read wherever they stand. */
  lemma PairReads(text: TextCheck, bytes: seq<byte>, at: nat, t: ToolReplay, end: nat)
    requires FitsU32(t.toolCallId) && FitsU32(t.sampledBlock) && text(t.toolCallId) && text(t.sampledBlock)
    requires Holds(bytes, at, EntryBytes(t)) && end == at + |EntryBytes(t)|
    ensures ReadsOne(text, bytes, at, t, end)
  {
    PairHolds(bytes, at, t.toolCallId, t.sampledBlock);
  }

  lemma PairHolds(bytes: seq<byte>, at: nat, id: seq<byte>, block: seq<byte>)
    requires FitsU32(id) && FitsU32(block) && Holds(bytes, at, PairBytes(id, block))
    ensures at + 8 + |id| + |block| <= |bytes| && U32At(bytes, at) == |id| && U32At(bytes, at + 4) == |block|
    ensures bytes[at + 8..at + 8 + |id|] == id && bytes[at + 8 + |id|..at + 8 + |id| + |block|] == block
  {
    HoldsParts(bytes, at, Le32(|id|), at + 4, Le32(|block|) + (id + block));
    HoldsWord(bytes, at, |id|);
    HoldsParts(bytes, at + 4, Le32(|block|), at + 8, id + block);
    HoldsWord(bytes, at + 4, |block|);
    HoldsParts(bytes, at + 8, id, at + 8 + |id|, block);
    HoldsSlice(bytes, at + 8, id);
    HoldsSlice(bytes, at + 8 + |id|, block);
  }

  /** The entries stand at `at` and end at `end`. */
  ghost predicate Reads(text: TextCheck, bytes: seq<byte>, at: nat, ts: seq<ToolReplay>, end: nat) {
    ReadEntries(text, bytes, at, |ts|) == Some(Parsed(ts, end))
  }

  lemma ReadMore(text: TextCheck, bytes: seq<byte>, at: nat, t: ToolReplay, next: nat, rest: seq<ToolReplay>, end: nat)
    requires ReadsOne(text, bytes, at, t, next) && Reads(text, bytes, next, rest, end)
    ensures Reads(text, bytes, at, [t] + rest, end)
  {
  }

  lemma {:induction false} EntriesRead(text: TextCheck, bytes: seq<byte>, at: nat, ts: seq<ToolReplay>, end: nat)
    requires Writable(ts) && Texts(text, ts) && Holds(bytes, at, EntriesBytes(ts)) && end == at + |EntriesBytes(ts)|
    ensures Reads(text, bytes, at, ts, end)
    decreases ts
  {
    if ts == [] {
    } else {
      var t, e, rest := ts[0], EntryBytes(ts[0]), ts[1..];
      var next := at + |e|;
      HoldsParts(bytes, at, e, next, EntriesBytes(rest));
      EntriesRead(text, bytes, next, rest, end);
      PairReads(text, bytes, at, t, next);
      ReadMore(text, bytes, at, t, next, rest, end);
      assert [t] + rest == ts;
    }
  }

  ghost predicate ReadsMap(text: TextCheck, bytes: seq<byte>, at: nat, ts: seq<ToolReplay>, end: nat) {
    ReadToolMap(text, bytes, at) == Some(Parsed(ts, end))
  }

  lemma HeaderThenEntries(text: TextCheck, bytes: seq<byte>, at: nat, ts: seq<ToolReplay>, end: nat)
    requires at + 8 <= |bytes| && bytes[at..at + 4] == MAGIC && U32At(bytes, at + 4) == |ts|
    requires Reads(text, bytes, at + 8, ts, end)
    ensures ReadsMap(text, bytes, at, ts, end)
  {
  }

  /** Any list that can be written is read back, and the cursor ends just behind it. */
  lemma MapReads(text: TextCheck, bytes: seq<byte>, at: nat, ts: seq<ToolReplay>, end: nat)
    requires Writable(ts) && Texts(text, ts) && ts != [] && Holds(bytes, at, MapBytes(ts)) && end == at + |MapBytes(ts)|
    ensures ReadsMap(text, bytes, at, ts, end)
  {
    var es := EntriesBytes(ts);
    assert |MapBytes(ts)| == 8 + |es|;
    MapHolds(bytes, at, |ts|, es);
    EntriesRead(text, bytes, at + 8, ts, end);
    HeaderThenEntries(text, bytes, at, ts, end);
  }

  lemma MapHolds(bytes: seq<byte>, at: nat, n: u32, es: seq<byte>)
    requires Holds(bytes, at, MAGIC + (Le32(n) + es))
    ensures at + 8 <= |bytes| && bytes[at..at + 4] == MAGIC && U32At(bytes, at + 4) == n && Holds(bytes, at + 8, es)
  {
    HoldsParts(bytes, at, MAGIC, at + 4, Le32(n) + es);
    HoldsSlice(bytes, at, MAGIC);
    HoldsParts(bytes, at + 4, Le32(n), at + 8, es);
    HoldsWord(bytes, at + 4, n);
  }
}
