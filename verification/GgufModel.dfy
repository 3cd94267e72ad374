/**
 The tensor directory of a GGUF file, and the bytes of a tensor: sizes from the block table, places from
 the aligned start of the data, and the checks that keep both inside the file.
 */
module GgufModel {
  import opened Wrappers
  import opened Utf8
  import opened Utf8Text
  import opened LittleEndian
  import opened GgufReader
  import opened GgufMetadata
  import opened Flat

  const GGUF_MAGIC: nat := 0x4655_4747
  const GGUF_VERSION: nat := 3
  const MAX_DIMS: nat := 4
  const MIN_FILE_BYTES: nat := 32

  datatype Tensor = Tensor(
    name: seq<byte>,
    dims: seq<nat>,
    tensorType: nat,
    relOffset: nat,
    absOffset: nat,
    elements: nat,
    bytes: nat)

  /** Elements and bytes of one block. */
  datatype Shape = Shape(elems: nat, bytes: nat)

  /** The block table of `tensor_nbytes`. */
  function BlockShape(tensorType: nat): (o: Option<Shape>)
    ensures o.Some? ==> o.value.elems > 0
  {
    match tensorType
    case 0 => Some(Shape(1, 4))
    case 1 => Some(Shape(1, 2))
    case 2 => Some(Shape(32, 18))
    case 3 => Some(Shape(32, 20))
    case 6 => Some(Shape(32, 22))
    case 7 => Some(Shape(32, 24))
    case 8 => Some(Shape(32, 34))
    case 9 => Some(Shape(32, 40))
    case 10 => Some(Shape(256, 84))
    case 11 => Some(Shape(256, 110))
    case 12 => Some(Shape(256, 144))
    case 13 => Some(Shape(256, 176))
    case 14 => Some(Shape(256, 210))
    case 15 => Some(Shape(256, 292))
    case 16 => Some(Shape(256, 66))
    case 17 => Some(Shape(256, 74))
    case 18 => Some(Shape(256, 98))
    case 19 => Some(Shape(256, 110))
    case 20 => Some(Shape(256, 50))
    case 21 => Some(Shape(256, 110))
    case 22 => Some(Shape(256, 82))
    case 23 => Some(Shape(256, 136))
    case 24 => Some(Shape(1, 1))
    case 25 => Some(Shape(1, 2))
    case 26 => Some(Shape(1, 4))
    case 27 => Some(Shape(1, 8))
    case 28 => Some(Shape(1, 8))
    case 29 => Some(Shape(256, 56))
    case 30 => Some(Shape(1, 2))
    case _ => None
  }

  /** `tensor_nbytes`, with its overflow checks. */
  function TensorBytesOf(tensorType: nat, elements: nat): Option<nat> {
    var shape :- BlockShape(tensorType);
    if elements + shape.elems - 1 > U64_MAX then None
    else
      var blocks := (elements + shape.elems - 1) / shape.elems;
      if blocks * shape.bytes > U64_MAX then None else Some(blocks * shape.bytes)
  }

  /** The size is that of the fewest blocks that hold all elements. */
  lemma SizeIsWholeBlocks(tensorType: nat, elements: nat)
    requires TensorBytesOf(tensorType, elements).Some?
    ensures var shape := BlockShape(tensorType).value;
            exists blocks: nat {:trigger blocks * shape.bytes} ::
              TensorBytesOf(tensorType, elements).value == blocks * shape.bytes
              && blocks * shape.elems >= elements && (blocks - 1) * shape.elems < elements
  {
    var shape := BlockShape(tensorType).value;
    var blocks := (elements + shape.elems - 1) / shape.elems;
    RoundedUp(elements, shape.elems, blocks);
    assert TensorBytesOf(tensorType, elements).value == blocks * shape.bytes;
  }

  lemma RoundedUp(n: nat, d: nat, q: nat)
    requires d > 0 && q == (n + d - 1) / d
    ensures q * d >= n && (q - 1) * d < n
  {
    var r := (n + d - 1) % d;
    assert n + d - 1 == q * d + r;
    assert (q - 1) * d == q * d - d;
  }

  /** `align_up` */
  function AlignUp(value: nat, alignment: nat): (a: nat)
    ensures value <= a && (alignment != 0 ==> a < value + alignment)
  {
    if alignment == 0 then value
    else
      var rem := value % alignment;
      if rem == 0 then value else value + (alignment - rem)
  }

  /** It is the next multiple of the alignment. */
  lemma AlignUpAligns(value: nat, alignment: nat)
    requires alignment > 0
    ensures AlignUp(value, alignment) % alignment == 0
  {
    var q, rem := value / alignment, value % alignment;
    if rem != 0 {
      assert value + (alignment - rem) == (q + 1) * alignment;
      ProductDivides(q + 1, alignment);
    }
  }

  // ---------------------------------------------------------------- one directory entry

  function Product(dims: seq<nat>): nat {
    if dims == [] then 1 else Product(dims[..|dims| - 1]) * dims[|dims| - 1]
  }

  /** No product of leading dimensions overflows 64 bits. */
  ghost predicate NoOverflow(dims: seq<nat>) {
    forall k :: 0 <= k <= |dims| ==> Product(dims[..k]) <= 0xffff_ffff_ffff_ffff
  }

  datatype Dims = Dims(dims: seq<nat>, elements: nat)

  /** The dimensions at the cursor; `None` when the file ends or a product overflows. */
  function TakeDims(bytes: seq<byte>, pos: nat, n: nat, dims: seq<nat>, elements: nat): (o: Option<At<Dims>>)
    requires pos <= |bytes|
    ensures o.Some? ==> pos <= o.value.pos <= |bytes|
    decreases n
  {
    if n == 0 then Some(At(Dims(dims, elements), pos))
    else
      var dim :- TakeU64(bytes, pos);
      if dim.value != 0 && elements > U64_MAX / dim.value then None
      else TakeDims(bytes, dim.pos, n - 1, dims + [dim.value], SaturatingMul(elements, dim.value))
  }

  lemma Quotient(n: nat, d: nat, q: nat)
    requires d > 0 && q == n / d
    ensures forall e: nat {:trigger e * d} :: e * d <= n <==> e <= q
  {
    forall e: nat
      ensures e * d <= n <==> e <= q
    {
      var r := n % d;
      assert n == q * d + r;
      if e <= q {
        Monotone(e, q, d);
      } else {
        Monotone(q + 1, e, d);
        assert (q + 1) * d == q * d + d;
      }
    }
  }

  lemma Monotone(a: nat, b: nat, d: nat)
    requires a <= b
    ensures a * d <= b * d
  {
    assert (b - a) * d >= 0;
    assert b * d == a * d + (b - a) * d;
  }

  lemma GuardIsOverflow(elements: nat, dim: nat)
    requires elements <= U64_MAX
    ensures (dim != 0 && elements > U64_MAX / dim) <==> elements * dim > U64_MAX
  {
    if dim != 0 {
      Quotient(U64_MAX, dim, U64_MAX / dim);
      assert elements * dim <= U64_MAX <==> elements <= U64_MAX / dim;
    }
  }

  ghost function TakeTensor(text: TextCheck, bytes: seq<byte>, pos: nat): (o: Option<At<Tensor>>)
    requires pos <= |bytes|
    ensures o.Some? ==> pos <= o.value.pos <= |bytes|
  {
    var name :- TakeString(text, bytes, pos);
    var ndim :- TakeU32(bytes, name.pos);
    if ndim.value == 0 || ndim.value > MAX_DIMS then None
    else
      var dims :- TakeDims(bytes, ndim.pos, ndim.value, [], 1);
      var ty :- TakeU32(bytes, dims.pos);
      var offset :- TakeU64(bytes, ty.pos);
      var size := TensorBytesOf(ty.value, dims.value.elements);
      Some(At(Tensor(name.value, dims.value.dims, ty.value, offset.value, 0, dims.value.elements, if size.None? then 0 else size.value),
              offset.pos))
  }

  method ReadDims(r: Reader, ndim: nat) returns (o: Option<Dims>)
    requires r.Valid()
    modifies r
    ensures r.Valid()
    ensures TakeDims(r.bytes, old(r.pos), ndim, [], 1) == if o.Some? then Some(At(o.value, r.pos)) else None
  {
    var dims: seq<nat> := [];
    var elements: nat := 1;
    ghost var whole := TakeDims(r.bytes, r.pos, ndim, [], 1);
    for i := 0 to ndim
      invariant r.Valid() && whole == TakeDims(r.bytes, r.pos, ndim - i, dims, elements)
    {
      var dim := r.ReadU64();
      if dim.None? {
        return None;
      }
      if dim.value != 0 && elements > U64_MAX / dim.value {
        return None;
      }
      elements := SaturatingMul(elements, dim.value);
      dims := dims + [dim.value];
    }
    o := Some(Dims(dims, elements));
  }

  /** What every entry read satisfies. */
  ghost predicate Described(t: Tensor) {
    1 <= |t.dims| <= 4 && NoOverflow(t.dims) && t.elements == Product(t.dims)
    && t.bytes == (if TensorBytesOf(t.tensorType, t.elements).None? then 0 else TensorBytesOf(t.tensorType, t.elements).value)
  }

  ghost predicate DimsRight(o: Option<At<Dims>>, count: nat) {
    o.Some? ==> |o.value.value.dims| == count && NoOverflow(o.value.value.dims) && o.value.value.elements == Product(o.value.value.dims)
  }

  lemma {:induction false} DimsDescribe(bytes: seq<byte>, pos: nat, n: nat, dims: seq<nat>, elements: nat, count: nat)
    requires pos <= |bytes| && NoOverflow(dims) && elements == Product(dims) && count == |dims| + n
    ensures DimsRight(TakeDims(bytes, pos, n, dims, elements), count)
    decreases n
  {
    if n == 0 || TakeU64(bytes, pos).None? {
    } else {
      var dim := TakeU64(bytes, pos).value;
      AllWithin(dims);
      GuardIsOverflow(elements, dim.value);
      if elements * dim.value <= U64_MAX {
        DimsGrow(dims, dim.value);
        DimsDescribe(bytes, dim.pos, n - 1, dims + [dim.value], elements * dim.value, count);
      }
    }
  }

  lemma AllWithin(dims: seq<nat>)
    requires NoOverflow(dims)
    ensures Product(dims) <= U64_MAX
  {
    assert dims[..|dims|] == dims;
  }

  lemma DimsGrow(dims: seq<nat>, dim: nat)
    requires NoOverflow(dims) && Product(dims) * dim <= U64_MAX
    ensures NoOverflow(dims + [dim]) && Product(dims + [dim]) == Product(dims) * dim
  {
    var longer := dims + [dim];
    assert longer[..|dims|] == dims;
    forall k | 0 <= k <= |longer|
      ensures Product(longer[..k]) <= U64_MAX
    {
      if k <= |dims| {
        assert longer[..k] == dims[..k];
      } else {
        assert longer[..k] == longer;
      }
    }
  }

  lemma TensorDescribed(text: TextCheck, bytes: seq<byte>, pos: nat)
    requires pos <= |bytes|
    ensures TakeTensor(text, bytes, pos).Some? ==> Described(TakeTensor(text, bytes, pos).value.value)
  {
    var name := TakeString(text, bytes, pos);
    if name.Some? {
      var ndim := TakeU32(bytes, name.value.pos);
      if ndim.Some? {
        var none: seq<nat> := [];
        assert Product(none) == 1 && none[..0] == none;
        DimsDescribe(bytes, ndim.value.pos, ndim.value.value, none, 1, ndim.value.value);
      }
    }
  }

  method ReadTensor(r: Reader) returns (o: Option<Tensor>)
    requires r.Valid()
    modifies r
    ensures r.Valid() && (o.Some? ==> Described(o.value))
    ensures TakeTensor(IsText, r.bytes, old(r.pos)) == if o.Some? then Some(At(o.value, r.pos)) else None
  {
    TensorDescribed(IsText, r.bytes, r.pos);
    var name := r.ReadString();
    if name.None? {
      return None;
    }
    var ndim := r.ReadU32();
    if ndim.None? || ndim.value == 0 || ndim.value > MAX_DIMS {
      return None;
    }
    var dims := ReadDims(r, ndim.value);
    if dims.None? {
      return None;
    }
    var ty := r.ReadU32();
    if ty.None? {
      return None;
    }
    var offset := r.ReadU64();
    if offset.None? {
      return None;
    }
    var size := TensorBytesOf(ty.value, dims.value.elements);
    o := Some(Tensor(name.value, dims.value.dims, ty.value, offset.value, 0, dims.value.elements, if size.None? then 0 else size.value));
  }

  // ---------------------------------------------------------------- the directory

  datatype Model = Model(
    header: Header,
    fileSize: nat,
    tensorDataPos: nat,
    tensors: seq<Tensor>,
    byName: map<seq<byte>, nat>,
    data: seq<byte>)

  /** A tensor with bytes lies inside the file. */
  ghost predicate Inside(t: Tensor, dataPos: nat, fileSize: nat) {
    t.absOffset == dataPos + t.relOffset && (t.bytes != 0 ==> t.absOffset + t.bytes <= fileSize)
  }

  /** Names map to the last tensor that has them. */
  ghost predicate Named(byName: map<seq<byte>, nat>, tensors: seq<Tensor>) {
    (forall s :: s in byName ==> byName[s] < |tensors| && tensors[byName[s]].name == s)
    && (forall i :: 0 <= i < |tensors| ==> tensors[i].name in byName && i <= byName[tensors[i].name])
  }

  /** The entries of the directory at the cursor. */
  ghost function TakeTensors(text: TextCheck, bytes: seq<byte>, pos: nat, n: nat): (o: Option<At<seq<Tensor>>>)
    requires pos <= |bytes|
    ensures o.Some? ==> pos <= o.value.pos <= |bytes| && |o.value.value| == n
    decreases n
  {
    if n == 0 then Some(At([], pos))
    else
      var t :- TakeTensor(text, bytes, pos);
      var rest :- TakeTensors(text, bytes, t.pos, n - 1);
      Some(At([t.value] + rest.value, rest.pos))
  }

  ghost function Behind(done: seq<Tensor>, rest: Option<At<seq<Tensor>>>): Option<At<seq<Tensor>>> {
    if rest.None? then None else Some(At(done + rest.value.value, rest.value.pos))
  }

  lemma TensorsStep(text: TextCheck, bytes: seq<byte>, pos: nat, n: nat, done: seq<Tensor>, t: Option<At<Tensor>>)
    requires pos <= |bytes| && n > 0 && t == TakeTensor(text, bytes, pos)
    ensures Behind(done, TakeTensors(text, bytes, pos, n))
         == if t.None? then None else Behind(done + [t.value.value], TakeTensors(text, bytes, t.value.pos, n - 1))
  {
    if t.Some? {
      var rest := TakeTensors(text, bytes, t.value.pos, n - 1);
      if rest.Some? {
        assert done + ([t.value.value] + rest.value.value) == (done + [t.value.value]) + rest.value.value;
      }
    }
  }

  /** One entry read behind those of the first `|tensors|` turns; the map gets its name. */
  method ReadEntry(r: Reader, n: nat, tensors: seq<Tensor>, byName: map<seq<byte>, nat>, ghost whole: Option<At<seq<Tensor>>>)
    returns (o: Option<(seq<Tensor>, map<seq<byte>, nat>)>)
    requires r.Valid() && n > 0 && Named(byName, tensors) && AllDescribed(tensors)
    requires whole == Behind(tensors, TakeTensors(IsText, r.bytes, r.pos, n))
    modifies r
    ensures r.Valid() && (o.None? ==> whole.None?)
    ensures o.Some? ==> |o.value.0| == |tensors| + 1 && Named(o.value.1, o.value.0) && AllDescribed(o.value.0)
    ensures o.Some? ==> whole == Behind(o.value.0, TakeTensors(IsText, r.bytes, r.pos, n - 1))
  {
    TensorsStep(IsText, r.bytes, r.pos, n, tensors, TakeTensor(IsText, r.bytes, r.pos));
    var t := ReadTensor(r);
    if t.None? {
      return None;
    }
    NamedNext(byName, tensors, t.value);
    o := Some((tensors + [t.value], byName[t.value.name := |tensors|]));
  }

  lemma NamedNext(byName: map<seq<byte>, nat>, tensors: seq<Tensor>, t: Tensor)
    requires Named(byName, tensors) && AllDescribed(tensors) && Described(t)
    ensures Named(byName[t.name := |tensors|], tensors + [t]) && AllDescribed(tensors + [t])
  {
  }

  lemma NothingBehind(whole: Option<At<seq<Tensor>>>, done: seq<Tensor>, pos: nat)
    ensures Behind([], whole) == whole && Behind(done, Some(At([], pos))) == Some(At(done, pos))
  {
    assert whole.Some? ==> [] + whole.value.value == whole.value.value;
    assert done + [] == done;
  }

  /** The loop over the entries, for the directory `whole`. */
  method ReadEntries(r: Reader, n: nat, ghost whole: Option<At<seq<Tensor>>>) returns (o: Option<(seq<Tensor>, map<seq<byte>, nat>)>)
    requires r.Valid() && whole == Behind([], TakeTensors(IsText, r.bytes, r.pos, n))
    modifies r
    ensures r.Valid() && (o.None? ==> whole.None?)
    ensures o.Some? ==> whole == Behind(o.value.0, Some(At([], r.pos))) && Named(o.value.1, o.value.0) && AllDescribed(o.value.0)
  {
    var read: (seq<Tensor>, map<seq<byte>, nat>) := ([], map[]);
    for k := 0 to n
      invariant r.Valid() && |read.0| == k && Named(read.1, read.0) && AllDescribed(read.0)
      invariant whole == Behind(read.0, TakeTensors(IsText, r.bytes, r.pos, n - k))
    {
      var next := ReadEntry(r, n - k, read.0, read.1, whole);
      if next.None? {
        return None;
      }
      read := next.value;
    }
    o := Some(read);
  }

  /** The directory's entries in file order, and the map from names to entries. */
  method ReadDirectory(r: Reader, n: nat) returns (o: Option<(seq<Tensor>, map<seq<byte>, nat>)>)
    requires r.Valid()
    modifies r
    ensures r.Valid()
    ensures TakeTensors(IsText, r.bytes, old(r.pos), n) == if o.Some? then Some(At(o.value.0, r.pos)) else None
    ensures o.Some? ==> Named(o.value.1, o.value.0) && AllDescribed(o.value.0)
  {
    ghost var whole := TakeTensors(IsText, r.bytes, r.pos, n);
    NothingBehind(whole, [], 0);
    o := ReadEntries(r, n, whole);
    NothingBehind(whole, if o.Some? then o.value.0 else [], r.pos);
  }

  ghost predicate AllDescribed(tensors: seq<Tensor>) {
    forall i :: 0 <= i < |tensors| ==> Described(tensors[i])
  }

  /** What makes the load fail: an offset past 64 bits, or bytes past the file. */
  ghost predicate Outside(t: Tensor, dataPos: nat, fileSize: nat) {
    dataPos + t.relOffset > 0xffff_ffff_ffff_ffff || (t.bytes != 0 && dataPos + t.relOffset + t.bytes > fileSize)
  }

  ghost predicate SameButPlaced(t: Tensor, u: Tensor) {
    u == t.(absOffset := u.absOffset)
  }

  /** The second loop: absolute offsets, and the check that every tensor is inside the file. */
  method Locate(tensors: seq<Tensor>, dataPos: nat, fileSize: nat) returns (o: Option<seq<Tensor>>)
    ensures o.Some? ==> |o.value| == |tensors| && forall i :: 0 <= i < |tensors| ==>
              SameButPlaced(tensors[i], o.value[i]) && Inside(o.value[i], dataPos, fileSize)
    ensures o.Some? ==> forall i :: 0 <= i < |tensors| ==> !Outside(tensors[i], dataPos, fileSize)
    ensures o.None? ==> exists i :: 0 <= i < |tensors| && Outside(tensors[i], dataPos, fileSize)
  {
    var out: seq<Tensor> := [];
    for k := 0 to |tensors|
      invariant |out| == k
      invariant forall i :: 0 <= i < k ==> SameButPlaced(tensors[i], out[i]) && Inside(out[i], dataPos, fileSize)
      invariant forall i :: 0 <= i < k ==> !Outside(tensors[i], dataPos, fileSize)
    {
      var t := tensors[k];
      var absOffset := dataPos + t.relOffset;
      if absOffset > U64_MAX {
        assert Outside(t, dataPos, fileSize);
        return None;
      }
      if t.bytes != 0 && (absOffset > fileSize || t.bytes > (if absOffset > fileSize then 0 else fileSize - absOffset)) {
        assert Outside(t, dataPos, fileSize);
        return None;
      }
      out := out + [t.(absOffset := absOffset)];
    }
    o := Some(out);
  }

  lemma PlacedNamed(byName: map<seq<byte>, nat>, tensors: seq<Tensor>, placed: seq<Tensor>)
    requires Named(byName, tensors) && |placed| == |tensors| && forall i :: 0 <= i < |tensors| ==> SameButPlaced(tensors[i], placed[i])
    ensures Named(byName, placed) && forall i :: 0 <= i < |tensors| ==> Described(tensors[i]) ==> Described(placed[i])
  {
    forall i | 0 <= i < |tensors|
      ensures placed[i].name == tensors[i].name
    {
      assert SameButPlaced(tensors[i], placed[i]);
    }
    forall i | 0 <= i < |tensors| && Described(tensors[i])
      ensures Described(placed[i])
    {
      assert SameButPlaced(tensors[i], placed[i]);
    }
  }

  // ---------------------------------------------------------------- the whole file

  ghost predicate Loaded(m: Model) {
    && m.fileSize == |m.data| && Named(m.byName, m.tensors)
    && forall i :: 0 <= i < |m.tensors| ==> Described(m.tensors[i]) && Inside(m.tensors[i], m.tensorDataPos, m.fileSize)
  }

  /** The same entries, each with its place in the file. */
  ghost predicate Placed(entries: seq<Tensor>, tensors: seq<Tensor>, dataPos: nat) {
    |tensors| == |entries|
    && forall i :: 0 <= i < |entries| ==> tensors[i] == entries[i].(absOffset := dataPos + entries[i].relOffset)
  }

  /** What the directory at `pos` makes of the load: a model of its entries, or nothing. */
  ghost predicate DirectoryLoads(data: seq<byte>, pos: nat, header: Header, n: nat, m: Option<Model>) {
    pos <= |data|
    && var dir := TakeTensors(IsText, data, pos, n);
       if dir.None? then m.None? else EntriesLoad(data, dir.value.value, AlignUp(dir.value.pos, header.alignment), header, m)
  }

  ghost predicate EntriesLoad(data: seq<byte>, entries: seq<Tensor>, dataPos: nat, header: Header, m: Option<Model>) {
    if exists i :: 0 <= i < |entries| && Outside(entries[i], dataPos, |data|) then m.None?
    else
      m.Some? && Loaded(m.value) && m.value.header == header && m.value.data == data
      && m.value.tensorDataPos == dataPos && Placed(entries, m.value.tensors, dataPos)
  }

  /** `parse_tensors` */
  method ParseTensors(r: Reader, header: Header, n: nat) returns (o: Option<Model>)
    requires r.Valid()
    modifies r
    ensures r.Valid() && DirectoryLoads(r.bytes, old(r.pos), header, n, o)
  {
    var directory := ReadDirectory(r, n);
    if directory.None? {
      return None;
    }
    var (tensors, byName) := directory.value;
    o := PlaceTensors(tensors, byName, AlignUp(r.pos, header.alignment), header, r.bytes);
  }

  method PlaceTensors(entries: seq<Tensor>, byName: map<seq<byte>, nat>, dataPos: nat, header: Header, data: seq<byte>)
    returns (o: Option<Model>)
    requires Named(byName, entries) && AllDescribed(entries)
    ensures EntriesLoad(data, entries, dataPos, header, o)
  {
    var placed := Locate(entries, dataPos, |data|);
    if placed.None? {
      return None;
    }
    PlacedNamed(byName, entries, placed.value);
    forall i | 0 <= i < |entries|
      ensures placed.value[i] == entries[i].(absOffset := dataPos + entries[i].relOffset)
    {
      assert SameButPlaced(entries[i], placed.value[i]) && Inside(placed.value[i], dataPos, |data|);
    }
    o := Some(Model(header, |data|, dataPos, placed.value, byName, data));
  }

  ghost predicate StartsAsGguf(data: seq<byte>) {
    |data| >= MIN_FILE_BYTES && U32At(data, 0) == GGUF_MAGIC && U32At(data, 4) == GGUF_VERSION
  }

  const METADATA_POS: nat := 24

  function EmptyHeader(): Header { Header(DEFAULT_ALIGNMENT, None, None, [], []) }

  /** What a file loads as: nothing, or the header and the tensors its bytes say. */
  ghost predicate LoadsAs(keys: Keys, data: seq<byte>, m: Option<Model>) {
    if !StartsAsGguf(data) then m.None?
    else
      var kv := TakePairs(IsText, keys, data, METADATA_POS, EmptyHeader(), U64At(data, 16));
      if kv.None? then m.None?
      else DirectoryLoads(data, kv.value.pos, kv.value.value, U64At(data, 8), m)
  }

  /**
   `load_model`, from the bytes of the file. A file that does not start as GGUF v3 is refused, and so is
   one whose metadata or directory cannot be read or that has a tensor outside the file; any other loads
   with the header and the tensors that stand in it.
   */
  method Load(keys: Keys, data: seq<byte>) returns (o: Option<Model>)
    ensures LoadsAs(keys, data, o)
  {
    if |data| < MIN_FILE_BYTES {
      return None;
    }
    var r := new Reader(data);
    var magic := r.ReadU32();
    if magic != Some(GGUF_MAGIC) {
      return None;
    }
    var version := r.ReadU32();
    if version != Some(GGUF_VERSION) {
      return None;
    }
    var nTensors := r.ReadU64();
    var nKv := r.ReadU64();
    if nTensors.None? || nKv.None? {
      return None;
    }
    var header := ReadPairs(r, keys, EmptyHeader(), nKv.value);
    if header.None? {
      return None;
    }
    o := ParseTensors(r, header.value, nTensors.value);
  }

  /** The same with the source's keys. */
  method LoadModel(data: seq<byte>) returns (o: Option<Model>)
    ensures LoadsAs(ModelKeys(), data, o)
  {
    o := Load(ModelKeys(), data);
  }

  /** `tensor_bytes` */
  function TensorBytes(m: Model, t: Tensor): Option<seq<byte>> {
    if t.absOffset + t.bytes <= |m.data| then Some(m.data[t.absOffset..t.absOffset + t.bytes]) else None
  }

  /**
   After any load, a tensor of a known type that is not empty has bytes: exactly its blocks, from its
   own offset past the aligned start of the data.
   */
  lemma TensorBytesExact(m: Model, i: nat)
    requires Loaded(m) && i < |m.tensors| && m.tensors[i].bytes != 0
    ensures var t := m.tensors[i]; var shape := BlockShape(t.tensorType);
            shape.Some? && TensorBytes(m, t).Some?
            && TensorBytes(m, t).value == m.data[m.tensorDataPos + t.relOffset..m.tensorDataPos + t.relOffset + t.bytes]
            && exists blocks: nat {:trigger blocks * shape.value.bytes} ::
                 |TensorBytes(m, t).value| == blocks * shape.value.bytes
                 && blocks * shape.value.elems >= Product(t.dims) && (blocks - 1) * shape.value.elems < Product(t.dims)
  {
    var t := m.tensors[i];
    assert Described(t) && Inside(t, m.tensorDataPos, m.fileSize);
    SizeIsWholeBlocks(t.tensorType, t.elements);
  }
}
