/**
 The metadata of a GGUF file: some keys are kept, every other value is skipped. What the reader keeps
 is stated twice, once on the bytes it reads and once on the pairs that were encoded there.
 */
module GgufMetadata {
  import opened Wrappers
  import opened Utf8
  import opened Utf8Text
  import opened LittleEndian
  import opened GgufReader

  /** The keys that are kept, as bytes. */
  datatype Keys = Keys(alignment: seq<byte>, architecture: seq<byte>, vocabSize: seq<byte>, tokens: seq<byte>, merges: seq<byte>)

  /** The source's keys. */
  function ModelKeys(): Keys {
    Keys(Bytes("general.alignment"), Bytes("general.architecture"), Bytes("deepseek4.vocab_size"),
         Bytes("tokenizer.ggml.tokens"), Bytes("tokenizer.ggml.merges"))
  }

  datatype Header = Header(
    alignment: nat,
    architecture: Option<seq<byte>>,
    vocabSize: Option<nat>,
    tokens: seq<seq<byte>>,
    merges: seq<seq<byte>>)

  const DEFAULT_ALIGNMENT: nat := 32

  // ---------------------------------------------------------------- reading, as functions of the cursor

  /** `read_string_array` */
  ghost function TakeStrings(text: TextCheck, bytes: seq<byte>, pos: nat, n: nat): (o: Option<At<seq<seq<byte>>>>)
    requires pos <= |bytes|
    ensures o.Some? ==> pos <= o.value.pos <= |bytes| && |o.value.value| == n
    decreases n
  {
    if n == 0 then Some(At([], pos))
    else
      var s :- TakeString(text, bytes, pos);
      var rest :- TakeStrings(text, bytes, s.pos, n - 1);
      Some(At([s.value] + rest.value, rest.pos))
  }

  /** An array that must hold strings. */
  ghost function TakeTable(text: TextCheck, bytes: seq<byte>, pos: nat): (o: Option<At<seq<seq<byte>>>>)
    requires pos <= |bytes|
    ensures o.Some? ==> pos <= o.value.pos <= |bytes|
  {
    var item :- TakeU32(bytes, pos);
    var len :- if item.value > LAST_TYPE then None else TakeU64(bytes, item.pos);
    if item.value != TYPE_STRING then None else TakeStrings(text, bytes, len.pos, len.value)
  }

  /** The value of a key: kept or skipped. */
  ghost function TakeValue(text: TextCheck, keys: Keys, bytes: seq<byte>, pos: nat, h: Header, key: seq<byte>, ty: nat)
    : (o: Option<At<Header>>)
    requires pos <= |bytes|
    ensures o.Some? ==> pos <= o.value.pos <= |bytes|
  {
    if key == keys.alignment && ty == TYPE_UINT32 then
      var n :- TakeU32(bytes, pos);
      Some(At(h.(alignment := n.value), n.pos))
    else if key == keys.architecture && ty == TYPE_STRING then
      var s :- TakeString(text, bytes, pos);
      Some(At(h.(architecture := Some(s.value)), s.pos))
    else if key == keys.vocabSize && ty == TYPE_UINT32 then
      var n :- TakeU32(bytes, pos);
      Some(At(h.(vocabSize := Some(n.value)), n.pos))
    else if key == keys.vocabSize && ty == TYPE_UINT64 then
      var n :- TakeU64(bytes, pos);
      Some(At(h.(vocabSize := Some(n.value % TWO_TO_THE_32)), n.pos))
    else if key == keys.tokens && ty == TYPE_ARRAY then
      var t :- TakeTable(text, bytes, pos);
      Some(At(h.(tokens := t.value), t.pos))
    else if key == keys.merges && ty == TYPE_ARRAY then
      var t :- TakeTable(text, bytes, pos);
      Some(At(h.(merges := t.value), t.pos))
    else
      var p :- Skip(text, bytes, pos, ty, 0);
      Some(At(h, p))
  }

  ghost function TakePair(text: TextCheck, keys: Keys, bytes: seq<byte>, pos: nat, h: Header): (o: Option<At<Header>>)
    requires pos <= |bytes|
    ensures o.Some? ==> pos <= o.value.pos <= |bytes|
  {
    var key :- TakeString(text, bytes, pos);
    var ty :- TakeU32(bytes, key.pos);
    if ty.value > LAST_TYPE then None else TakeValue(text, keys, bytes, ty.pos, h, key.value, ty.value)
  }

  ghost function TakePairs(text: TextCheck, keys: Keys, bytes: seq<byte>, pos: nat, h: Header, n: nat): (o: Option<At<Header>>)
    requires pos <= |bytes|
    ensures o.Some? ==> pos <= o.value.pos <= |bytes|
    decreases n
  {
    if n == 0 then Some(At(h, pos))
    else
      var next :- TakePair(text, keys, bytes, pos, h);
      TakePairs(text, keys, bytes, next.pos, next.value, n - 1)
  }

  // ---------------------------------------------------------------- the loops

  ghost function Ahead(done: seq<seq<byte>>, rest: Option<At<seq<seq<byte>>>>): Option<At<seq<seq<byte>>>> {
    if rest.None? then None else Some(At(done + rest.value.value, rest.value.pos))
  }

  lemma AheadOne(done: seq<seq<byte>>, s: seq<byte>, rest: Option<At<seq<seq<byte>>>>)
    ensures rest.Some? ==> Ahead(done, Some(At([s] + rest.value.value, rest.value.pos))) == Ahead(done + [s], rest)
  {
    if rest.Some? {
      assert done + ([s] + rest.value.value) == done + [s] + rest.value.value;
    }
  }

  lemma NothingAhead(whole: Option<At<seq<seq<byte>>>>, done: seq<seq<byte>>, pos: nat)
    ensures Ahead([], whole) == whole && Ahead(done, Some(At([], pos))) == Some(At(done, pos))
  {
    assert whole.Some? ==> [] + whole.value.value == whole.value.value;
    assert done + [] == done;
  }

  /** One more string behind those read so far. */
  method ReadOne(r: Reader, out: seq<seq<byte>>, n: nat, ghost whole: Option<At<seq<seq<byte>>>>) returns (s: Option<seq<byte>>)
    requires r.Valid() && n > 0 && whole == Ahead(out, TakeStrings(IsText, r.bytes, r.pos, n))
    modifies r
    ensures r.Valid() && (s.None? ==> whole.None?)
    ensures s.Some? ==> whole == Ahead(out + [s.value], TakeStrings(IsText, r.bytes, r.pos, n - 1))
  {
    s := r.ReadString();
    if s.Some? {
      AheadOne(out, s.value, TakeStrings(IsText, r.bytes, r.pos, n - 1));
    }
  }

  /** The loop over the strings of a table, for the table `whole`. */
  method ReadAll(r: Reader, len: nat, ghost whole: Option<At<seq<seq<byte>>>>) returns (o: Option<seq<seq<byte>>>)
    requires r.Valid() && whole == Ahead([], TakeStrings(IsText, r.bytes, r.pos, len))
    modifies r
    ensures r.Valid() && (o.None? ==> whole.None?)
    ensures o.Some? ==> whole == Ahead(o.value, Some(At([], r.pos)))
  {
    var out := [];
    for i := 0 to len
      invariant r.Valid() && whole == Ahead(out, TakeStrings(IsText, r.bytes, r.pos, len - i))
    {
      var s := ReadOne(r, out, len - i, whole);
      if s.None? {
        return None;
      }
      out := out + [s.value];
    }
    o := Some(out);
  }

  method ReadStrings(r: Reader, len: nat) returns (o: Option<seq<seq<byte>>>)
    requires r.Valid()
    modifies r
    ensures r.Valid()
    ensures TakeStrings(IsText, r.bytes, old(r.pos), len) == if o.Some? then Some(At(o.value, r.pos)) else None
  {
    ghost var whole := TakeStrings(IsText, r.bytes, r.pos, len);
    NothingAhead(whole, [], 0);
    o := ReadAll(r, len, whole);
    NothingAhead(whole, if o.Some? then o.value else [], r.pos);
  }

  method ReadTable(r: Reader) returns (o: Option<seq<seq<byte>>>)
    requires r.Valid()
    modifies r
    ensures r.Valid()
    ensures TakeTable(IsText, r.bytes, old(r.pos)) == if o.Some? then Some(At(o.value, r.pos)) else None
  {
    var item := r.ReadU32();
    if item.None? || item.value > LAST_TYPE {
      return None;
    }
    var len := r.ReadU64();
    if len.None? {
      return None;
    }
    if item.value != TYPE_STRING {
      return None;
    }
    o := ReadStrings(r, len.value);
  }

  method ReadKept(r: Reader, keys: Keys, h: Header, key: seq<byte>, ty: nat) returns (o: Option<Header>)
    requires r.Valid()
    modifies r
    ensures r.Valid()
    ensures TakeValue(IsText, keys, r.bytes, old(r.pos), h, key, ty) == if o.Some? then Some(At(o.value, r.pos)) else None
  {
    if key == keys.alignment && ty == TYPE_UINT32 {
      var n := r.ReadU32();
      o := if n.None? then None else Some(h.(alignment := n.value));
    } else if key == keys.architecture && ty == TYPE_STRING {
      var s := r.ReadString();
      o := if s.None? then None else Some(h.(architecture := s));
    } else if key == keys.vocabSize && ty == TYPE_UINT32 {
      var n := r.ReadU32();
      o := if n.None? then None else Some(h.(vocabSize := n));
    } else if key == keys.vocabSize && ty == TYPE_UINT64 {
      var n := r.ReadU64();
      o := if n.None? then None else Some(h.(vocabSize := Some(n.value % TWO_TO_THE_32)));
    } else {
      o := ReadTableOrSkip(r, keys, h, key, ty);
    }
  }

  method ReadTableOrSkip(r: Reader, keys: Keys, h: Header, key: seq<byte>, ty: nat) returns (o: Option<Header>)
    requires r.Valid()
    requires !(key == keys.alignment && ty == TYPE_UINT32) && !(key == keys.architecture && ty == TYPE_STRING)
    requires !(key == keys.vocabSize && (ty == TYPE_UINT32 || ty == TYPE_UINT64))
    modifies r
    ensures r.Valid()
    ensures TakeValue(IsText, keys, r.bytes, old(r.pos), h, key, ty) == if o.Some? then Some(At(o.value, r.pos)) else None
  {
    if key == keys.tokens && ty == TYPE_ARRAY {
      var t := ReadTable(r);
      o := if t.None? then None else Some(h.(tokens := t.value));
    } else if key == keys.merges && ty == TYPE_ARRAY {
      var t := ReadTable(r);
      o := if t.None? then None else Some(h.(merges := t.value));
    } else {
      var ok := r.SkipValue(ty, 0);
      o := if ok then Some(h) else None;
    }
  }

  method ReadPair(r: Reader, keys: Keys, h: Header) returns (o: Option<Header>)
    requires r.Valid()
    modifies r
    ensures r.Valid()
    ensures TakePair(IsText, keys, r.bytes, old(r.pos), h) == if o.Some? then Some(At(o.value, r.pos)) else None
  {
    var key := r.ReadString();
    if key.None? {
      return None;
    }
    var ty := r.ReadU32();
    if ty.None? || ty.value > LAST_TYPE {
      return None;
    }
    o := ReadKept(r, keys, h, key.value, ty.value);
  }

  lemma PairsStep(text: TextCheck, keys: Keys, bytes: seq<byte>, pos: nat, h: Header, n: nat)
    requires pos <= |bytes| && n > 0
    ensures var next := TakePair(text, keys, bytes, pos, h);
            TakePairs(text, keys, bytes, pos, h, n)
            == if next.None? then None else TakePairs(text, keys, bytes, next.value.pos, next.value.value, n - 1)
  {
  }

  /** One more pair of the header that `whole` stands for. */
  method ReadNext(r: Reader, keys: Keys, h: Header, n: nat, ghost whole: Option<At<Header>>) returns (o: Option<Header>)
    requires r.Valid() && n > 0 && whole == TakePairs(IsText, keys, r.bytes, r.pos, h, n)
    modifies r
    ensures r.Valid() && (o.None? ==> whole.None?)
    ensures o.Some? ==> whole == TakePairs(IsText, keys, r.bytes, r.pos, o.value, n - 1)
  {
    PairsStep(IsText, keys, r.bytes, r.pos, h, n);
    o := ReadPair(r, keys, h);
  }

  method ReadPairs(r: Reader, keys: Keys, start: Header, n: nat) returns (o: Option<Header>)
    requires r.Valid()
    modifies r
    ensures r.Valid()
    ensures TakePairs(IsText, keys, r.bytes, old(r.pos), start, n) == if o.Some? then Some(At(o.value, r.pos)) else None
  {
    var h := start;
    ghost var whole := TakePairs(IsText, keys, r.bytes, r.pos, start, n);
    for i := 0 to n
      invariant r.Valid() && whole == TakePairs(IsText, keys, r.bytes, r.pos, h, n - i)
    {
      var next := ReadNext(r, keys, h, n - i, whole);
      if next.None? {
        return None;
      }
      h := next.value;
    }
    o := Some(h);
  }

  // ---------------------------------------------------------------- encoded metadata is read back

  datatype Pair = Pair(key: seq<byte>, value: Value)

  function EncodePair(p: Pair): seq<byte> {
    (Long(|p.key|) + p.key) + (Le32(Truncate(TypeOf(p.value))) + EncodeValue(p.value))
  }

  function EncodePairs(ps: seq<Pair>): seq<byte> {
    if ps == [] then [] else EncodePair(ps[0]) + EncodePairs(ps[1..])
  }

  function Strings(items: Items): seq<seq<byte>> {
    match items
    case NoItem => []
    case Item(v, rest) => [if v.Str? then v.s else []] + Strings(rest)
  }

  /** What a pair leaves in the header, if the reader accepts it. */
  function Kept(keys: Keys, h: Header, p: Pair): Option<Header> {
    var key, v := p.key, p.value;
    if key == keys.alignment && TypeOf(v) == 4 && v.Scalar? then Some(h.(alignment := LeValue(v.raw)))
    else if key == keys.architecture && v.Str? then Some(h.(architecture := Some(v.s)))
    else if key == keys.vocabSize && v.Scalar? && (v.ty == 4 || v.ty == 10) then
      Some(h.(vocabSize := Some(LeValue(v.raw) % 0x1_0000_0000)))
    else if key == keys.tokens && v.Array? then
      if v.itemType == 8 then Some(h.(tokens := Strings(v.items))) else None
    else if key == keys.merges && v.Array? then
      if v.itemType == 8 then Some(h.(merges := Strings(v.items))) else None
    else if Nest(v) <= 8 then Some(h)
    else None
  }

  ghost predicate ValidPair(text: TextCheck, p: Pair) {
    |p.key| < TWO_TO_THE_64 && text(p.key) && ValidValue(text, p.value) && TypeOf(p.value) <= 12
  }

  ghost predicate StringsRead(text: TextCheck, bytes: seq<byte>, pos: nat, items: Items, end: nat) {
    pos <= |bytes| && TakeStrings(text, bytes, pos, Count(items)) == Some(At(Strings(items), end))
  }

  lemma {:induction false} StringsReadBack(text: TextCheck, bytes: seq<byte>, pos: nat, items: Items, end: nat)
    requires ValidItems(text, TYPE_STRING, items) && pos <= |bytes|
    requires Holds(bytes, pos, EncodeItems(items)) && end == pos + |EncodeItems(items)|
    ensures StringsRead(text, bytes, pos, items, end)
    decreases items
  {
    match items
    case NoItem =>
    case Item(v, rest) =>
      var next := pos + |EncodeValue(v)|;
      HoldsParts(bytes, pos, EncodeValue(v), next, EncodeItems(rest));
      StringHolds(text, bytes, pos, v.s, next);
      HoldsSlice(bytes, next, EncodeItems(rest));
      StringsReadBack(text, bytes, next, rest, end);
      OneMoreString(text, bytes, pos, v, rest, next, end);
  }

  lemma OneMoreString(text: TextCheck, bytes: seq<byte>, pos: nat, v: Value, rest: Items, next: nat, end: nat)
    requires v.Str? && pos <= |bytes| && TakeString(text, bytes, pos) == Some(At(v.s, next)) && StringsRead(text, bytes, next, rest, end)
    ensures StringsRead(text, bytes, pos, Item(v, rest), end)
  {
  }

  ghost predicate Reads(text: TextCheck, keys: Keys, bytes: seq<byte>, pos: nat, h: Header, key: seq<byte>, ty: nat,
                        o: Option<Header>, end: nat)
  {
    pos <= |bytes|
    && TakeValue(text, keys, bytes, pos, h, key, ty) == if o.None? then None else Some(At(o.value, end))
  }

  lemma ScalarHolds(bytes: seq<byte>, pos: nat, raw: seq<byte>)
    requires Holds(bytes, pos, raw)
    ensures |raw| == 4 ==> TakeU32(bytes, pos) == Some(At(LeValue(raw), pos + 4))
    ensures |raw| == 8 ==> TakeU64(bytes, pos) == Some(At(LeValue(raw), pos + 8))
  {
    HoldsSlice(bytes, pos, raw);
  }

  /** An encoded array of strings is read as a table; any other array is refused. */
  lemma TableReads(text: TextCheck, bytes: seq<byte>, pos: nat, ty: nat, items: Items, end: nat)
    requires ty <= LAST_TYPE && Count(items) < TWO_TO_THE_64 && ValidItems(text, ty, items) && pos <= |bytes|
    requires Holds(bytes, pos, EncodeValue(Array(ty, items))) && end == pos + |EncodeValue(Array(ty, items))|
    ensures TakeTable(text, bytes, pos) == if ty == TYPE_STRING then Some(At(Strings(items), end)) else None
  {
    var n, start := Count(items), pos + 12;
    HoldsParts(bytes, pos, Le32(Truncate(ty)), pos + 4, Long(n) + EncodeItems(items));
    HoldsParts(bytes, pos + 4, Long(n), start, EncodeItems(items));
    WordHolds(bytes, pos, ty);
    LongHolds(bytes, pos + 4, n);
    HoldsSlice(bytes, start, EncodeItems(items));
    if ty == TYPE_STRING {
      StringsReadBack(text, bytes, start, items, end);
    }
  }

  lemma ScalarReads(text: TextCheck, keys: Keys, bytes: seq<byte>, pos: nat, h: Header, p: Pair, end: nat)
    requires p.value.Scalar? && ScalarSize(p.value.ty) == Some(|p.value.raw|) && pos <= |bytes|
    requires Holds(bytes, pos, p.value.raw) && end == pos + |p.value.raw|
    requires Skips(text, bytes, pos, p.value.ty, 0, Some(end))
    ensures Reads(text, keys, bytes, pos, h, p.key, p.value.ty, Kept(keys, h, p), end)
  {
    ScalarHolds(bytes, pos, p.value.raw);
    assert LeValue(p.value.raw) < Limit(|p.value.raw|);
    assert Limit(4) == TWO_TO_THE_32;
  }

  lemma StrReads(text: TextCheck, keys: Keys, bytes: seq<byte>, pos: nat, h: Header, p: Pair, end: nat)
    requires p.value.Str? && pos <= |bytes| && TakeString(text, bytes, pos) == Some(At(p.value.s, end))
    requires Skips(text, bytes, pos, TYPE_STRING, 0, Some(end))
    ensures Reads(text, keys, bytes, pos, h, p.key, TYPE_STRING, Kept(keys, h, p), end)
  {
  }

  lemma ArrayReads(text: TextCheck, keys: Keys, bytes: seq<byte>, pos: nat, h: Header, p: Pair, end: nat)
    requires p.value.Array? && pos <= |bytes|
    requires TakeTable(text, bytes, pos) == if p.value.itemType == TYPE_STRING then Some(At(Strings(p.value.items), end)) else None
    requires Skips(text, bytes, pos, TYPE_ARRAY, 0, Fitting(0, Nest(p.value), end))
    ensures Reads(text, keys, bytes, pos, h, p.key, TYPE_ARRAY, Kept(keys, h, p), end)
  {
  }

  lemma ValueReads(text: TextCheck, keys: Keys, bytes: seq<byte>, pos: nat, h: Header, p: Pair, end: nat)
    requires ValidPair(text, p) && |bytes| <= MAX_BUFFER && pos <= |bytes|
    requires Holds(bytes, pos, EncodeValue(p.value)) && end == pos + |EncodeValue(p.value)|
    ensures Reads(text, keys, bytes, pos, h, p.key, TypeOf(p.value), Kept(keys, h, p), end)
  {
    SkipsExactly(text, bytes, pos, p.value, 0, end);
    match p.value
    case Scalar(_, _) => ScalarReads(text, keys, bytes, pos, h, p, end);
    case Str(s) =>
      StringHolds(text, bytes, pos, s, end);
      StrReads(text, keys, bytes, pos, h, p, end);
    case Array(ty, items) =>
      TableReads(text, bytes, pos, ty, items, end);
      ArrayReads(text, keys, bytes, pos, h, p, end);
  }

  ghost predicate PairReads(text: TextCheck, keys: Keys, bytes: seq<byte>, pos: nat, h: Header, o: Option<Header>, end: nat) {
    pos <= |bytes| && TakePair(text, keys, bytes, pos, h) == if o.None? then None else Some(At(o.value, end))
  }

  /** Where the parts of a pair stand. */
  lemma PairStands(bytes: seq<byte>, pos: nat, p: Pair, tyAt: nat, valueAt: nat)
    requires Holds(bytes, pos, EncodePair(p)) && tyAt == pos + 8 + |p.key| && valueAt == tyAt + 4
    ensures Holds(bytes, pos, Long(|p.key|) + p.key) && Holds(bytes, tyAt, Le32(Truncate(TypeOf(p.value))))
    ensures Holds(bytes, valueAt, EncodeValue(p.value)) && |EncodePair(p)| == valueAt - pos + |EncodeValue(p.value)|
  {
    var ty := Le32(Truncate(TypeOf(p.value)));
    HoldsParts(bytes, pos, Long(|p.key|) + p.key, tyAt, ty + EncodeValue(p.value));
    HoldsParts(bytes, tyAt, ty, valueAt, EncodeValue(p.value));
  }

  /** A pair is read or skipped exactly, with the header it should leave. */
  lemma PairReadsBack(text: TextCheck, keys: Keys, bytes: seq<byte>, pos: nat, h: Header, p: Pair, end: nat)
    requires ValidPair(text, p) && |bytes| <= MAX_BUFFER && pos <= |bytes|
    requires Holds(bytes, pos, EncodePair(p)) && end == pos + |EncodePair(p)|
    ensures PairReads(text, keys, bytes, pos, h, Kept(keys, h, p), end)
  {
    var tyAt := pos + 8 + |p.key|;
    var valueAt := tyAt + 4;
    PairStands(bytes, pos, p, tyAt, valueAt);
    StringHolds(text, bytes, pos, p.key, tyAt);
    WordHolds(bytes, tyAt, TypeOf(p.value));
    ValueReads(text, keys, bytes, valueAt, h, p, end);
  }

  /** The header after a list of pairs; the first that is refused stops the load. */
  function KeptAll(keys: Keys, h: Header, ps: seq<Pair>): Option<Header>
    decreases |ps|
  {
    if ps == [] then Some(h)
    else
      var next :- Kept(keys, h, ps[0]);
      KeptAll(keys, next, ps[1..])
  }

  ghost predicate PairsRead(text: TextCheck, keys: Keys, bytes: seq<byte>, pos: nat, h: Header, n: nat, o: Option<Header>, end: nat) {
    pos <= |bytes| && TakePairs(text, keys, bytes, pos, h, n) == if o.None? then None else Some(At(o.value, end))
  }

  /** Any encoded metadata is consumed exactly, leaving the header its pairs say. */
  lemma {:induction false} MetadataReadsBack(text: TextCheck, keys: Keys, bytes: seq<byte>, pos: nat, h: Header, ps: seq<Pair>, end: nat)
    requires (forall p :: p in ps ==> ValidPair(text, p)) && |bytes| <= MAX_BUFFER && pos <= |bytes|
    requires Holds(bytes, pos, EncodePairs(ps)) && end == pos + |EncodePairs(ps)|
    ensures PairsRead(text, keys, bytes, pos, h, |ps|, KeptAll(keys, h, ps), end)
    decreases ps
  {
    if ps == [] {
    } else {
      var p, rest := ps[0], ps[1..];
      var next := pos + |EncodePair(p)|;
      HoldsParts(bytes, pos, EncodePair(p), next, EncodePairs(rest));
      PairReadsBack(text, keys, bytes, pos, h, p, next);
      if Kept(keys, h, p).Some? {
        HoldsSlice(bytes, next, EncodePairs(rest));
        MetadataReadsBack(text, keys, bytes, next, Kept(keys, h, p).value, rest, end);
      }
    }
  }
}
