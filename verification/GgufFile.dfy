/**
 Whole GGUF files: what was encoded is what loads. A file is a fixed start, the metadata, the directory,
 and whatever follows. It loads exactly when its pairs are kept, its entries are accepted and no tensor
 lies outside; and then as what was encoded.
 */
module GgufFile {
  import opened Wrappers
  import opened Utf8
  import opened Utf8Text
  import opened LittleEndian
  import opened GgufReader
  import opened GgufMetadata
  import opened GgufModel

  /** A directory entry as it is written. */
  datatype Entry = Entry(name: seq<byte>, dims: seq<nat>, tensorType: nat, relOffset: nat)

  function EncodeDims(dims: seq<nat>): seq<byte> {
    if dims == [] then [] else Long(dims[0]) + EncodeDims(dims[1..])
  }

  function EncodeEntry(e: Entry): seq<byte> {
    (Long(|e.name|) + e.name)
    + (Le32(Truncate(|e.dims|)) + (EncodeDims(e.dims) + (Le32(Truncate(e.tensorType)) + Long(e.relOffset))))
  }

  function EncodeEntries(es: seq<Entry>): seq<byte> {
    if es == [] then [] else EncodeEntry(es[0]) + EncodeEntries(es[1..])
  }

  /** Every number fits its field and the name is a text. */
  ghost predicate ValidEntry(text: TextCheck, e: Entry) {
    && |e.name| < TWO_TO_THE_64 && text(e.name) && |e.dims| < TWO_TO_THE_32
    && (forall i :: 0 <= i < |e.dims| ==> e.dims[i] < TWO_TO_THE_64)
    && e.tensorType < TWO_TO_THE_32 && e.relOffset < TWO_TO_THE_64
  }

  /** The reader takes one to four dimensions whose products fit 64 bits. */
  ghost predicate Accepted(e: Entry) {
    1 <= |e.dims| <= 4 && NoOverflow(e.dims)
  }

  function TensorOf(e: Entry): Tensor {
    var n := Product(e.dims);
    var size := TensorBytesOf(e.tensorType, n);
    Tensor(e.name, e.dims, e.tensorType, e.relOffset, 0, n, if size.None? then 0 else size.value)
  }

  // ---------------------------------------------------------------- one entry

  ghost predicate DimsRead(bytes: seq<byte>, pos: nat, n: nat, dims: seq<nat>, elements: nat, o: Option<Dims>, end: nat) {
    pos <= |bytes| && TakeDims(bytes, pos, n, dims, elements) == if o.None? then None else Some(At(o.value, end))
  }

  function DimsOf(dims: seq<nat>): Dims { Dims(dims, Product(dims)) }

  ghost function AcceptedDims(dims: seq<nat>): Option<Dims> {
    if NoOverflow(dims) then Some(DimsOf(dims)) else None
  }

  lemma Overflows(done: seq<nat>, dim: nat, rest: seq<nat>)
    requires NoOverflow(done) && Product(done) * dim > U64_MAX
    ensures !NoOverflow(done + ([dim] + rest))
  {
    var all, k := done + ([dim] + rest), |done| + 1;
    assert all[..k] == done + [dim];
    assert Product(done + [dim]) == Product(done) * dim by {
      assert (done + [dim])[..|done|] == done;
    }
  }

  /** One dimension whose product fits, then the rest; one whose product does not. */
  lemma OneDim(bytes: seq<byte>, pos: nat, n: nat, done: seq<nat>, dim: nat, o: Option<Dims>, next: nat, end: nat)
    requires NoOverflow(done) && pos <= |bytes| && TakeU64(bytes, pos) == Some(At(dim, next))
    requires Product(done) * dim <= U64_MAX ==> DimsRead(bytes, next, n, done + [dim], Product(done) * dim, o, end)
    requires Product(done) * dim > U64_MAX ==> o == None
    ensures DimsRead(bytes, pos, n + 1, done, Product(done), o, end)
  {
    AllWithin(done);
    GuardIsOverflow(Product(done), dim);
  }

  /** The dimensions are read back, unless a product overflows. */
  lemma {:induction false} DimsReadBack(bytes: seq<byte>, pos: nat, done: seq<nat>, rest: seq<nat>, end: nat)
    requires NoOverflow(done) && (forall i :: 0 <= i < |rest| ==> rest[i] < TWO_TO_THE_64) && pos <= |bytes|
    requires Holds(bytes, pos, EncodeDims(rest)) && end == pos + |EncodeDims(rest)|
    ensures DimsRead(bytes, pos, |rest|, done, Product(done), AcceptedDims(done + rest), end)
    decreases rest
  {
    if rest == [] {
      assert done + rest == done;
    } else {
      var dim, more, next := rest[0], rest[1..], pos + 8;
      HoldsParts(bytes, pos, Long(dim), next, EncodeDims(more));
      LongHolds(bytes, pos, dim);
      HoldsSlice(bytes, next, EncodeDims(more));
      Unsplit(done, dim, more, rest);
      if Product(done) * dim > U64_MAX {
        Overflows(done, dim, more);
      } else {
        DimsGrow(done, dim);
        DimsReadBack(bytes, next, done + [dim], more, end);
      }
      OneDim(bytes, pos, |more|, done, dim, AcceptedDims(done + rest), next, end);
    }
  }

  lemma Unsplit(done: seq<nat>, dim: nat, more: seq<nat>, rest: seq<nat>)
    requires rest != [] && dim == rest[0] && more == rest[1..]
    ensures done + rest == done + ([dim] + more) && (done + [dim]) + more == done + rest
  {
    assert rest == [dim] + more;
  }

  lemma AllDimsReadBack(bytes: seq<byte>, pos: nat, dims: seq<nat>, end: nat)
    requires (forall i :: 0 <= i < |dims| ==> dims[i] < TWO_TO_THE_64) && pos <= |bytes|
    requires Holds(bytes, pos, EncodeDims(dims)) && end == pos + |EncodeDims(dims)|
    ensures DimsRead(bytes, pos, |dims|, [], 1, AcceptedDims(dims), end)
  {
    var none: seq<nat> := [];
    assert none[..0] == none && Product(none) == 1;
    assert none + dims == dims;
    DimsReadBack(bytes, pos, none, dims, end);
  }

  /** Where the parts of an entry stand. */
  lemma EntryStands(bytes: seq<byte>, pos: nat, e: Entry, countAt: nat, dimsAt: nat, typeAt: nat, offsetAt: nat)
    requires Holds(bytes, pos, EncodeEntry(e)) && countAt == pos + 8 + |e.name|
    requires dimsAt == countAt + 4 && typeAt == dimsAt + |EncodeDims(e.dims)| && offsetAt == typeAt + 4
    ensures Holds(bytes, pos, Long(|e.name|) + e.name) && Holds(bytes, countAt, Le32(Truncate(|e.dims|)))
    ensures Holds(bytes, dimsAt, EncodeDims(e.dims)) && Holds(bytes, typeAt, Le32(Truncate(e.tensorType)))
    ensures Holds(bytes, offsetAt, Long(e.relOffset)) && |EncodeEntry(e)| == offsetAt + 8 - pos
  {
    var last := Le32(Truncate(e.tensorType)) + Long(e.relOffset);
    HoldsParts(bytes, pos, Long(|e.name|) + e.name, countAt, Le32(Truncate(|e.dims|)) + (EncodeDims(e.dims) + last));
    HoldsParts(bytes, countAt, Le32(Truncate(|e.dims|)), dimsAt, EncodeDims(e.dims) + last);
    HoldsParts(bytes, dimsAt, EncodeDims(e.dims), typeAt, last);
    HoldsParts(bytes, typeAt, Le32(Truncate(e.tensorType)), offsetAt, Long(e.relOffset));
  }

  ghost predicate TensorReads(text: TextCheck, bytes: seq<byte>, pos: nat, o: Option<Tensor>, end: nat) {
    pos <= |bytes| && TakeTensor(text, bytes, pos) == if o.None? then None else Some(At(o.value, end))
  }

  ghost function AcceptedTensor(e: Entry): Option<Tensor> {
    if Accepted(e) then Some(TensorOf(e)) else None
  }

  /** What the reader finds in an entry. */
  ghost predicate EntryParts(text: TextCheck, bytes: seq<byte>, pos: nat, e: Entry, countAt: nat, dimsAt: nat, typeAt: nat, offsetAt: nat) {
    && pos <= |bytes| && TakeString(text, bytes, pos) == Some(At(e.name, countAt))
    && TakeU32(bytes, countAt) == Some(At(|e.dims|, dimsAt)) && TakeU32(bytes, typeAt) == Some(At(e.tensorType, offsetAt))
    && TakeU64(bytes, offsetAt) == Some(At(e.relOffset, offsetAt + 8))
  }

  lemma EntryPartsRead(text: TextCheck, bytes: seq<byte>, pos: nat, e: Entry, countAt: nat, dimsAt: nat, typeAt: nat, offsetAt: nat)
    requires ValidEntry(text, e) && Holds(bytes, pos, EncodeEntry(e)) && pos <= |bytes| && countAt == pos + 8 + |e.name|
    requires dimsAt == countAt + 4 && typeAt == dimsAt + |EncodeDims(e.dims)| && offsetAt == typeAt + 4
    ensures EntryParts(text, bytes, pos, e, countAt, dimsAt, typeAt, offsetAt) && |EncodeEntry(e)| == offsetAt + 8 - pos
    ensures Holds(bytes, dimsAt, EncodeDims(e.dims))
  {
    EntryStands(bytes, pos, e, countAt, dimsAt, typeAt, offsetAt);
    StringHolds(text, bytes, pos, e.name, countAt);
    WordHolds(bytes, countAt, |e.dims|);
    WordHolds(bytes, typeAt, e.tensorType);
    LongHolds(bytes, offsetAt, e.relOffset);
  }

  /** The tensor that known parts of an entry make. */
  lemma TensorFromParts(text: TextCheck, bytes: seq<byte>, pos: nat, e: Entry, countAt: nat, dimsAt: nat, typeAt: nat, offsetAt: nat,
                        end: nat)
    requires EntryParts(text, bytes, pos, e, countAt, dimsAt, typeAt, offsetAt) && end == offsetAt + 8
    requires DimsRead(bytes, dimsAt, |e.dims|, [], 1, AcceptedDims(e.dims), typeAt)
    ensures TensorReads(text, bytes, pos, AcceptedTensor(e), end)
  {
  }

  lemma PartsReadBack(text: TextCheck, bytes: seq<byte>, pos: nat, e: Entry, countAt: nat, dimsAt: nat, typeAt: nat, end: nat)
    requires forall i :: 0 <= i < |e.dims| ==> e.dims[i] < TWO_TO_THE_64
    requires EntryParts(text, bytes, pos, e, countAt, dimsAt, typeAt, typeAt + 4) && end == typeAt + 12
    requires Holds(bytes, dimsAt, EncodeDims(e.dims)) && typeAt == dimsAt + |EncodeDims(e.dims)|
    ensures TensorReads(text, bytes, pos, AcceptedTensor(e), end)
  {
    AllDimsReadBack(bytes, dimsAt, e.dims, typeAt);
    TensorFromParts(text, bytes, pos, e, countAt, dimsAt, typeAt, typeAt + 4, end);
  }

  /** An entry is read back exactly when the reader accepts its dimensions; otherwise it is refused. */
  lemma TensorReadsBack(text: TextCheck, bytes: seq<byte>, pos: nat, e: Entry, end: nat)
    requires ValidEntry(text, e) && Holds(bytes, pos, EncodeEntry(e)) && end == pos + |EncodeEntry(e)| && pos <= |bytes|
    ensures TensorReads(text, bytes, pos, AcceptedTensor(e), end)
  {
    var countAt := pos + 8 + |e.name|;
    var dimsAt := countAt + 4;
    var typeAt := dimsAt + |EncodeDims(e.dims)|;
    EntryPartsRead(text, bytes, pos, e, countAt, dimsAt, typeAt, typeAt + 4);
    PartsReadBack(text, bytes, pos, e, countAt, dimsAt, typeAt, end);
  }

  // ---------------------------------------------------------------- the directory

  ghost predicate TensorsRead(text: TextCheck, bytes: seq<byte>, pos: nat, n: nat, o: Option<seq<Tensor>>, end: nat) {
    pos <= |bytes| && TakeTensors(text, bytes, pos, n) == if o.None? then None else Some(At(o.value, end))
  }

  /** The tensors of a directory; the first entry that is refused stops the load. */
  ghost function AcceptedAll(es: seq<Entry>): (o: Option<seq<Tensor>>)
    ensures o.Some? ==> |o.value| == |es|
  {
    if es == [] then Some([])
    else
      var t :- AcceptedTensor(es[0]);
      var rest :- AcceptedAll(es[1..]);
      Some([t] + rest)
  }

  lemma {:induction false} AcceptedAllIs(es: seq<Entry>)
    ensures AcceptedAll(es).Some? <==> forall i :: 0 <= i < |es| ==> Accepted(es[i])
    ensures AcceptedAll(es).Some? ==> forall i :: 0 <= i < |es| ==> AcceptedAll(es).value[i] == TensorOf(es[i])
  {
    if es == [] {
    } else {
      AcceptedAllIs(es[1..]);
      if AcceptedAll(es[1..]).None? {
        var i :| 0 <= i < |es[1..]| && !Accepted(es[1..][i]);
        assert !Accepted(es[i + 1]);
      } else {
        forall i | 0 < i < |es|
          ensures es[i] == es[1..][i - 1] && Accepted(es[i])
        {
          assert Accepted(es[1..][i - 1]);
        }
      }
    }
  }

  lemma {:induction false} DirectoryReadsBack(text: TextCheck, bytes: seq<byte>, pos: nat, es: seq<Entry>, end: nat)
    requires (forall e :: e in es ==> ValidEntry(text, e)) && pos <= |bytes|
    requires Holds(bytes, pos, EncodeEntries(es)) && end == pos + |EncodeEntries(es)|
    ensures TensorsRead(text, bytes, pos, |es|, AcceptedAll(es), end)
    decreases es
  {
    if es == [] {
    } else {
      var e, rest := es[0], es[1..];
      var next := pos + |EncodeEntry(e)|;
      HoldsParts(bytes, pos, EncodeEntry(e), next, EncodeEntries(rest));
      HoldsSlice(bytes, next, EncodeEntries(rest));
      TensorReadsBack(text, bytes, pos, e, next);
      DirectoryReadsBack(text, bytes, next, rest, end);
    }
  }

  // ---------------------------------------------------------------- the whole file

  function Start(magic: u32, version: u32, nTensors: nat, nPairs: nat): (b: seq<byte>)
    ensures |b| == 24
  {
    Le32(magic) + (Le32(version) + (Long(nTensors) + Long(nPairs)))
  }

  function FileStart(nTensors: nat, nPairs: nat): (b: seq<byte>)
    ensures |b| == 24
  {
    Start(0x4655_4747, 3, nTensors, nPairs)
  }

  function EncodeFile(ps: seq<Pair>, es: seq<Entry>, data: seq<byte>): seq<byte> {
    FileStart(|es|, |ps|) + (EncodePairs(ps) + (EncodeEntries(es) + data))
  }

  ghost predicate ValidFile(ps: seq<Pair>, es: seq<Entry>, data: seq<byte>) {
    && |ps| < TWO_TO_THE_64 && |es| < TWO_TO_THE_64
    && (forall p :: p in ps ==> ValidPair(IsText, p)) && (forall e :: e in es ==> ValidEntry(IsText, e))
    && 32 <= |EncodeFile(ps, es, data)| <= MAX_BUFFER
  }

  lemma StartStands(bytes: seq<byte>, magic: u32, version: u32, a: nat, b: nat)
    requires Holds(bytes, 0, Start(magic, version, a, b)) && |bytes| >= METADATA_POS && a < TWO_TO_THE_64 && b < TWO_TO_THE_64
    ensures U32At(bytes, 0) == magic && U32At(bytes, 4) == version && U64At(bytes, 8) == a && U64At(bytes, 16) == b
  {
    HoldsParts(bytes, 0, Le32(magic), 4, Le32(version) + (Long(a) + Long(b)));
    HoldsParts(bytes, 4, Le32(version), 8, Long(a) + Long(b));
    HoldsParts(bytes, 8, Long(a), 16, Long(b));
    HoldsWord(bytes, 0, magic);
    HoldsWord(bytes, 4, version);
    LongHolds(bytes, 8, a);
    LongHolds(bytes, 16, b);
  }

  lemma StartReadsBack(bytes: seq<byte>, nTensors: nat, nPairs: nat)
    requires nTensors < TWO_TO_THE_64 && nPairs < TWO_TO_THE_64 && Holds(bytes, 0, FileStart(nTensors, nPairs))
    requires |bytes| >= MIN_FILE_BYTES
    ensures StartsAsGguf(bytes) && U64At(bytes, 8) == nTensors && U64At(bytes, 16) == nPairs
  {
    StartStands(bytes, 0x4655_4747, 3, nTensors, nPairs);
  }

  /** Where the directory of an encoded file ends. */
  function DirectoryEnd(ps: seq<Pair>, es: seq<Entry>): nat {
    24 + |EncodePairs(ps)| + |EncodeEntries(es)|
  }

  /** What a file with this header and these tensors should load as. */
  ghost predicate FileLoads(bytes: seq<byte>, h: Option<Header>, ts: Option<seq<Tensor>>, end: nat, m: Option<Model>) {
    if h.None? || ts.None? then m.None?
    else EntriesLoad(bytes, ts.value, AlignUp(end, h.value.alignment), h.value, m)
  }

  /**
   Every encoded file, with any keys: it is refused if its pairs or entries are, or if a tensor lies
   outside; otherwise it loads with the header its pairs say and the tensors of its entries in their places.
   */
  lemma FileReadsBack(keys: Keys, ps: seq<Pair>, es: seq<Entry>, data: seq<byte>, m: Option<Model>)
    requires ValidFile(ps, es, data) && LoadsAs(keys, EncodeFile(ps, es, data), m)
    ensures FileLoads(EncodeFile(ps, es, data), KeptAll(keys, Header(32, None, None, [], []), ps), AcceptedAll(es),
                      DirectoryEnd(ps, es), m)
  {
    var bytes, h0 := EncodeFile(ps, es, data), EmptyHeader();
    var dirAt := METADATA_POS + |EncodePairs(ps)|;
    var end := DirectoryEnd(ps, es);
    FileStands(bytes, ps, es, data, dirAt, end);
    StartReadsBack(bytes, |es|, |ps|);
    MetadataReadsBack(IsText, keys, bytes, METADATA_POS, h0, ps, dirAt);
    DirectoryReadsBack(IsText, bytes, dirAt, es, end);
    LoadsFromParts(keys, bytes, |ps|, |es|, KeptAll(keys, h0, ps), AcceptedAll(es), dirAt, end, m);
  }

  /** Where the parts of a file stand. */
  lemma FileStands(bytes: seq<byte>, ps: seq<Pair>, es: seq<Entry>, data: seq<byte>, dirAt: nat, end: nat)
    requires bytes == EncodeFile(ps, es, data) && dirAt == METADATA_POS + |EncodePairs(ps)| && end == dirAt + |EncodeEntries(es)|
    ensures Holds(bytes, 0, FileStart(|es|, |ps|)) && Holds(bytes, METADATA_POS, EncodePairs(ps))
    ensures Holds(bytes, dirAt, EncodeEntries(es)) && end <= |bytes|
  {
    HoldsAll(bytes, bytes);
    HoldsParts(bytes, 0, FileStart(|es|, |ps|), METADATA_POS, EncodePairs(ps) + (EncodeEntries(es) + data));
    HoldsParts(bytes, METADATA_POS, EncodePairs(ps), dirAt, EncodeEntries(es) + data);
    HoldsParts(bytes, dirAt, EncodeEntries(es), end, data);
  }

  lemma LoadsFromParts(keys: Keys, bytes: seq<byte>, nPairs: nat, nTensors: nat, h: Option<Header>, ts: Option<seq<Tensor>>,
                       dirAt: nat, end: nat, m: Option<Model>)
    requires StartsAsGguf(bytes) && U64At(bytes, 8) == nTensors && U64At(bytes, 16) == nPairs && LoadsAs(keys, bytes, m)
    requires PairsRead(IsText, keys, bytes, METADATA_POS, EmptyHeader(), nPairs, h, dirAt)
    requires TensorsRead(IsText, bytes, dirAt, nTensors, ts, end)
    ensures FileLoads(bytes, h, ts, end, m)
  {
  }
}
