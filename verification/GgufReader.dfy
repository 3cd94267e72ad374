/**
 The cursor of the GGUF reader, and metadata values skipped without keeping them. Values are encoded as
 the GGUF specification says; arrays may hold arrays, up to the depth the reader allows.
 */
module GgufReader {
  import opened Wrappers
  import opened Utf8
  import opened Utf8Text
  import opened LittleEndian

  /** The check that bytes are a text; the reader uses `IsText`. */
  /** Something read, and where the cursor is after it. */
  datatype At<+T> = At(value: T, pos: nat)

  /** No buffer is longer. */
  const MAX_BUFFER: nat := 0x7fff_ffff_ffff_ffff
  const U64_MAX: nat := 0xffff_ffff_ffff_ffff

  const TYPE_UINT32: nat := 4
  const TYPE_STRING: nat := 8
  const TYPE_ARRAY: nat := 9
  const TYPE_UINT64: nat := 10
  const LAST_TYPE: nat := 12
  const MAX_DEPTH: nat := 8

  /** `scalar_size` */
  function ScalarSize(ty: nat): (o: Option<nat>)
    ensures o.Some? ==> 1 <= o.value <= 8
  {
    if ty == 0 || ty == 1 || ty == 7 then Some(1)
    else if ty == 2 || ty == 3 then Some(2)
    else if ty == 4 || ty == 5 || ty == 6 then Some(4)
    else if ty == 10 || ty == 11 || ty == 12 then Some(8)
    else None
  }

  // ---------------------------------------------------------------- reading, as functions of the cursor

  function TakeU32(bytes: seq<byte>, pos: nat): (o: Option<At<nat>>)
    ensures o.Some? ==> o.value.pos == pos + 4 <= |bytes| && o.value.value < TWO_TO_THE_32
  {
    if pos + 4 <= |bytes| then Some(At(U32At(bytes, pos), pos + 4)) else None
  }

  function TakeU64(bytes: seq<byte>, pos: nat): (o: Option<At<nat>>)
    ensures o.Some? ==> o.value.pos == pos + 8 <= |bytes| && o.value.value < TWO_TO_THE_64
  {
    if pos + 8 <= |bytes| then Some(At(U64At(bytes, pos), pos + 8)) else None
  }

  ghost function TakeString(text: TextCheck, bytes: seq<byte>, pos: nat): (o: Option<At<seq<byte>>>)
    ensures o.Some? ==> pos < o.value.pos <= |bytes|
  {
    var len :- TakeU64(bytes, pos);
    var end := len.pos + len.value;
    if end > |bytes| || !text(bytes[len.pos..end]) then None else Some(At(bytes[len.pos..end], end))
  }

  function TakeBytes(bytes: seq<byte>, pos: nat, n: nat): (o: Option<nat>)
    ensures o.Some? ==> o.value == pos + n <= |bytes|
  {
    if pos + n <= |bytes| then Some(pos + n) else None
  }

  function SaturatingMul(a: nat, b: nat): nat {
    if a * b > U64_MAX then U64_MAX else a * b
  }

  function Levels(depth: nat): nat { if depth > MAX_DEPTH then 0 else MAX_DEPTH + 1 - depth }

  /** `skip_value`: where the cursor is after a value of this type. */
  ghost function Skip(text: TextCheck, bytes: seq<byte>, pos: nat, ty: nat, depth: nat): (o: Option<nat>)
    requires pos <= |bytes|
    ensures o.Some? ==> pos <= o.value <= |bytes|
    decreases Levels(depth), 0
  {
    if depth > MAX_DEPTH then None
    else if ScalarSize(ty).Some? then TakeBytes(bytes, pos, ScalarSize(ty).value)
    else if ty == TYPE_STRING then
      var s :- TakeString(text, bytes, pos);
      Some(s.pos)
    else if ty == TYPE_ARRAY then
      var item :- TakeU32(bytes, pos);
      if item.value > LAST_TYPE then None
      else
        var len :- TakeU64(bytes, item.pos);
        SkipItems(text, bytes, len.pos, item.value, depth, len.value)
    else None
  }

  /** The items of an array at this depth: all at once if they are scalars. */
  ghost function SkipItems(text: TextCheck, bytes: seq<byte>, pos: nat, ty: nat, depth: nat, n: nat): (o: Option<nat>)
    requires pos <= |bytes| && depth <= MAX_DEPTH
    ensures o.Some? ==> pos <= o.value <= |bytes|
    decreases Levels(depth + 1), n + 1
  {
    if ScalarSize(ty).Some? then TakeBytes(bytes, pos, SaturatingMul(n, ScalarSize(ty).value))
    else SkipMany(text, bytes, pos, ty, depth + 1, n)
  }

  ghost function SkipMany(text: TextCheck, bytes: seq<byte>, pos: nat, ty: nat, depth: nat, n: nat): (o: Option<nat>)
    requires pos <= |bytes|
    ensures o.Some? ==> pos <= o.value <= |bytes|
    decreases Levels(depth), n
  {
    if n == 0 then Some(pos)
    else
      var next :- Skip(text, bytes, pos, ty, depth);
      SkipMany(text, bytes, next, ty, depth, n - 1)
  }

  // ---------------------------------------------------------------- the reader

  class Reader {
    const bytes: seq<byte>
    var pos: nat

    /** The cursor never passes the end. */
    ghost predicate Valid()
      reads this
    {
      pos <= |bytes|
    }

    constructor (b: seq<byte>)
      ensures bytes == b && pos == 0 && Valid()
    {
      bytes := b;
      pos := 0;
    }

    method SkipBytes(n: nat) returns (ok: bool)
      requires Valid()
      modifies this
      ensures Valid() && (ok <==> TakeBytes(bytes, old(pos), n).Some?)
      ensures pos == if ok then old(pos) + n else old(pos)
    {
      var end := pos + n;
      ok := end <= |bytes|;
      if ok {
        pos := end;
      }
    }

    method ReadU32() returns (o: Option<nat>)
      requires Valid()
      modifies this
      ensures Valid() && pos == old(pos) + (if o.Some? then 4 else 0)
      ensures TakeU32(bytes, old(pos)) == if o.Some? then Some(At(o.value, pos)) else None
    {
      if pos + 4 > |bytes| {
        return None;
      }
      o := Some(U32At(bytes, pos));
      pos := pos + 4;
    }

    method ReadU64() returns (o: Option<nat>)
      requires Valid()
      modifies this
      ensures Valid() && pos == old(pos) + (if o.Some? then 8 else 0)
      ensures TakeU64(bytes, old(pos)) == if o.Some? then Some(At(o.value, pos)) else None
    {
      if pos + 8 > |bytes| {
        return None;
      }
      o := Some(U64At(bytes, pos));
      pos := pos + 8;
    }

    method ReadString() returns (o: Option<seq<byte>>)
      requires Valid()
      modifies this
      ensures Valid()
      ensures TakeString(IsText, bytes, old(pos)) == if o.Some? then Some(At(o.value, pos)) else None
    {
      var len := ReadU64();
      if len.None? {
        return None;
      }
      var end := pos + len.value;
      if end > |bytes| {
        return None;
      }
      var s := bytes[pos..end];
      pos := end;
      var ok := CheckText(s);
      o := if ok then Some(s) else None;
    }

    /** `skip_value` */
    method SkipValue(ty: nat, depth: nat) returns (ok: bool)
      requires Valid()
      modifies this
      ensures Valid() && (ok <==> Skip(IsText, bytes, old(pos), ty, depth).Some?)
      ensures ok ==> pos == Skip(IsText, bytes, old(pos), ty, depth).value
      decreases Levels(depth), 0
    {
      if depth > MAX_DEPTH {
        return false;
      }
      var size := ScalarSize(ty);
      if size.Some? {
        ok := SkipBytes(size.value);
        return;
      }
      if ty == TYPE_STRING {
        var s := ReadString();
        return s.Some?;
      }
      if ty != TYPE_ARRAY {
        return false;
      }
      var item := ReadU32();
      if item.None? || item.value > LAST_TYPE {
        return false;
      }
      var len := ReadU64();
      if len.None? {
        return false;
      }
      ok := SkipArrayItems(item.value, depth, len.value);
    }

    method SkipArrayItems(ty: nat, depth: nat, len: nat) returns (ok: bool)
      requires Valid() && depth <= MAX_DEPTH
      modifies this
      ensures Valid() && (ok <==> SkipItems(IsText, bytes, old(pos), ty, depth, len).Some?)
      ensures ok ==> pos == SkipItems(IsText, bytes, old(pos), ty, depth, len).value
      decreases Levels(depth + 1), 1
    {
      var size := ScalarSize(ty);
      if size.Some? {
        ok := SkipBytes(SaturatingMul(len, size.value));
        return;
      }
      for i := 0 to len
        invariant Valid()
        invariant SkipMany(IsText, bytes, old(pos), ty, depth + 1, len) == SkipMany(IsText, bytes, pos, ty, depth + 1, len - i)
      {
        var one := SkipValue(ty, depth + 1);
        if !one {
          return false;
        }
      }
      ok := true;
    }
  }

  // ---------------------------------------------------------------- encoded values

  /** Metadata values of GGUF v3. */
  datatype Value =
    | Scalar(ty: nat, raw: seq<byte>)
    | Str(s: seq<byte>)
    | Array(itemType: nat, items: Items)
  datatype Items = NoItem | Item(v: Value, rest: Items)

  function TypeOf(v: Value): nat {
    match v
    case Scalar(ty, _) => ty
    case Str(_) => 8
    case Array(_, _) => 9
  }

  function Count(items: Items): nat {
    match items
    case NoItem => 0
    case Item(_, rest) => 1 + Count(rest)
  }

  ghost predicate ValidValue(text: TextCheck, v: Value)
    decreases v
  {
    match v
    case Scalar(ty, raw) => ScalarSize(ty) == Some(|raw|)
    case Str(s) => |s| < TWO_TO_THE_64 && text(s)
    case Array(ty, items) => ty <= 12 && Count(items) < TWO_TO_THE_64 && ValidItems(text, ty, items)
  }

  ghost predicate ValidItems(text: TextCheck, ty: nat, items: Items)
    decreases items
  {
    match items
    case NoItem => true
    case Item(v, rest) => TypeOf(v) == ty && ValidValue(text, v) && ValidItems(text, ty, rest)
  }

  function Long(n: nat): (b: seq<byte>)
    ensures |b| == 8
  {
    Le64(n % TWO_TO_THE_64)
  }

  function EncodeValue(v: Value): seq<byte> {
    match v
    case Scalar(_, raw) => raw
    case Str(s) => Long(|s|) + s
    case Array(ty, items) => Le32(Truncate(ty)) + (Long(Count(items)) + EncodeItems(items))
  }

  function EncodeItems(items: Items): seq<byte> {
    match items
    case NoItem => []
    case Item(v, rest) => EncodeValue(v) + EncodeItems(rest)
  }

  /** How deep the reader must go: arrays of scalars, and empty arrays, need no further level. */
  function Nest(v: Value): nat {
    match v
    case Scalar(_, _) => 0
    case Str(_) => 0
    case Array(ty, items) => if ScalarSize(ty).Some? || items.NoItem? then 0 else 1 + NestItems(items)
  }

  function NestItems(items: Items): nat {
    match items
    case NoItem => 0
    case Item(v, rest) => if Nest(v) > NestItems(rest) then Nest(v) else NestItems(rest)
  }

  // ---------------------------------------------------------------- skipping exactly what was encoded

  ghost predicate Skips(text: TextCheck, bytes: seq<byte>, pos: nat, ty: nat, depth: nat, o: Option<nat>) {
    pos <= |bytes| && Skip(text, bytes, pos, ty, depth) == o
  }

  ghost predicate SkipsMany(text: TextCheck, bytes: seq<byte>, pos: nat, ty: nat, depth: nat, n: nat, o: Option<nat>) {
    pos <= |bytes| && SkipMany(text, bytes, pos, ty, depth, n) == o
  }

  lemma LongHolds(bytes: seq<byte>, at: nat, n: nat)
    requires n < TWO_TO_THE_64 && Holds(bytes, at, Long(n))
    ensures TakeU64(bytes, at) == Some(At(n, at + 8))
  {
    HoldsLong(bytes, at, n);
  }

  lemma WordHolds(bytes: seq<byte>, at: nat, n: nat)
    requires n < TWO_TO_THE_32 && Holds(bytes, at, Le32(Truncate(n)))
    ensures TakeU32(bytes, at) == Some(At(n, at + 4))
  {
    HoldsWord(bytes, at, n);
  }

  /** A string is read back, and the cursor ends behind it. */
  lemma StringHolds(text: TextCheck, bytes: seq<byte>, at: nat, s: seq<byte>, end: nat)
    requires |s| < TWO_TO_THE_64 && text(s) && Holds(bytes, at, Long(|s|) + s) && end == at + 8 + |s|
    ensures TakeString(text, bytes, at) == Some(At(s, end))
  {
    HoldsParts(bytes, at, Long(|s|), at + 8, s);
    LongHolds(bytes, at, |s|);
    HoldsSlice(bytes, at + 8, s);
  }

  lemma {:induction false} ScalarItemsSize(text: TextCheck, ty: nat, items: Items, size: nat)
    requires ScalarSize(ty) == Some(size) && ValidItems(text, ty, items)
    ensures |EncodeItems(items)| == Count(items) * size
  {
    match items
    case NoItem =>
    case Item(v, rest) =>
      ScalarItemsSize(text, ty, rest, size);
      OneMoreTimes(Count(rest), size);
  }

  lemma OneMoreTimes(n: nat, size: nat)
    ensures (1 + n) * size == size + n * size
  {
  }

  ghost function Fitting(depth: nat, nest: nat, end: nat): Option<nat> {
    if depth + nest <= 8 then Some(end) else None
  }

  /** Any encoded value is skipped exactly, when its nesting fits; otherwise it is refused. */
  lemma {:induction false} SkipsExactly(text: TextCheck, bytes: seq<byte>, pos: nat, v: Value, depth: nat, end: nat)
    requires ValidValue(text, v) && |bytes| <= MAX_BUFFER && Holds(bytes, pos, EncodeValue(v)) && end == pos + |EncodeValue(v)|
    ensures Skips(text, bytes, pos, TypeOf(v), depth, Fitting(depth, Nest(v), end))
    decreases v
  {
    HoldsSlice(bytes, pos, EncodeValue(v));
    match v
    case Scalar(ty, raw) =>
    case Str(s) => StringHolds(text, bytes, pos, s, end);
    case Array(ty, items) =>
      var n := Count(items);
      var start := pos + 12;
      HoldsParts(bytes, pos, Le32(Truncate(ty)), pos + 4, Long(n) + EncodeItems(items));
      HoldsParts(bytes, pos + 4, Long(n), start, EncodeItems(items));
      WordHolds(bytes, pos, ty);
      LongHolds(bytes, pos + 4, n);
      HoldsSlice(bytes, start, EncodeItems(items));
      if depth <= MAX_DEPTH {
        ItemsSkipExactly(text, bytes, start, ty, items, depth, end);
        ArraySkips(text, bytes, pos, ty, depth, n, Fitting(depth, Nest(v), end));
      }
  }

  lemma ArraySkips(text: TextCheck, bytes: seq<byte>, pos: nat, ty: nat, depth: nat, n: nat, o: Option<nat>)
    requires pos <= |bytes| && depth <= MAX_DEPTH && ty <= LAST_TYPE
    requires TakeU32(bytes, pos) == Some(At(ty, pos + 4)) && TakeU64(bytes, pos + 4) == Some(At(n, pos + 12))
    requires SkipItems(text, bytes, pos + 12, ty, depth, n) == o
    ensures Skips(text, bytes, pos, TYPE_ARRAY, depth, o)
  {
  }

  lemma {:induction false} ItemsSkipExactly(text: TextCheck, bytes: seq<byte>, pos: nat, ty: nat, items: Items, depth: nat, end: nat)
    requires ValidItems(text, ty, items) && |bytes| <= MAX_BUFFER && depth <= MAX_DEPTH
    requires Holds(bytes, pos, EncodeItems(items)) && end == pos + |EncodeItems(items)| && pos <= |bytes|
    ensures SkipItems(text, bytes, pos, ty, depth, Count(items)) == Fitting(depth, Nest(Array(ty, items)), end)
    decreases items, 1
  {
    HoldsSlice(bytes, pos, EncodeItems(items));
    if ScalarSize(ty).Some? {
      ScalarItemsSize(text, ty, items, ScalarSize(ty).value);
    } else {
      ManySkipExactly(text, bytes, pos, ty, items, depth + 1, end);
    }
  }

  lemma {:induction false} ManySkipExactly(text: TextCheck, bytes: seq<byte>, pos: nat, ty: nat, items: Items, depth: nat, end: nat)
    requires ValidItems(text, ty, items) && |bytes| <= MAX_BUFFER
    requires Holds(bytes, pos, EncodeItems(items)) && end == pos + |EncodeItems(items)| && pos <= |bytes|
    ensures SkipsMany(text, bytes, pos, ty, depth, Count(items),
                      if items.NoItem? then Some(pos) else Fitting(depth, NestItems(items), end))
    decreases items, 0
  {
    match items
    case NoItem =>
    case Item(v, rest) =>
      var next := pos + |EncodeValue(v)|;
      HoldsParts(bytes, pos, EncodeValue(v), next, EncodeItems(rest));
      SkipsExactly(text, bytes, pos, v, depth, next);
      HoldsSlice(bytes, next, EncodeItems(rest));
      ManySkipExactly(text, bytes, next, ty, rest, depth, end);
      ItemThenItems(text, bytes, pos, ty, depth, v, rest, next, end);
  }

  lemma ItemThenItems(text: TextCheck, bytes: seq<byte>, pos: nat, ty: nat, depth: nat, v: Value, rest: Items, next: nat, end: nat)
    requires Skips(text, bytes, pos, ty, depth, Fitting(depth, Nest(v), next)) && end == next + |EncodeItems(rest)|
    requires SkipsMany(text, bytes, next, ty, depth, Count(rest),
                       if rest.NoItem? then Some(next) else Fitting(depth, NestItems(rest), end))
    ensures SkipsMany(text, bytes, pos, ty, depth, Count(Item(v, rest)), Fitting(depth, NestItems(Item(v, rest)), end))
  {
    var first, more := Fitting(depth, Nest(v), next), if rest.NoItem? then Some(next) else Fitting(depth, NestItems(rest), end);
    OneThenMany(text, bytes, pos, ty, depth, Count(rest), next, first, more);
    FittingAll(depth, v, rest, next, end);
  }

  lemma FittingAll(depth: nat, v: Value, rest: Items, next: nat, end: nat)
    requires end == next + |EncodeItems(rest)|
    ensures (if Fitting(depth, Nest(v), next).None? then None
             else if rest.NoItem? then Some(next) else Fitting(depth, NestItems(rest), end))
         == Fitting(depth, NestItems(Item(v, rest)), end)
  {
  }

  lemma OneThenMany(text: TextCheck, bytes: seq<byte>, pos: nat, ty: nat, depth: nat, n: nat, next: nat,
                    first: Option<nat>, rest: Option<nat>)
    requires Skips(text, bytes, pos, ty, depth, first) && (first.Some? ==> first.value == next)
    requires SkipsMany(text, bytes, next, ty, depth, n, rest)
    ensures SkipsMany(text, bytes, pos, ty, depth, n + 1, if first.None? then None else rest)
  {
  }
}
