/**
 Little-endian integers in byte strings: how they are written, how they are read at a position, and
 how to find the parts of bytes that were laid end to end.
 */
module LittleEndian {
  import opened Utf8
  import opened Seqs

  const TWO_TO_THE_32: nat := 0x1_0000_0000
  const TWO_TO_THE_64: nat := 0x1_0000_0000_0000_0000

  type u32 = x: int | 0 <= x < 0x1_0000_0000
  type i32 = x: int | -0x8000_0000 <= x < 0x8000_0000
  type u64 = x: int | 0 <= x < 0x1_0000_0000_0000_0000

  /** One more than the largest number of `n` bytes. */
  function Limit(n: nat): (l: nat)
    ensures l > 0
  {
    if n == 0 then 1 else 256 * Limit(n - 1)
  }

  /** `n` bytes of a number, least significant first. */
  function Le(x: nat, n: nat): (b: seq<byte>)
    requires x < Limit(n)
    ensures |b| == n
  {
    if n == 0 then [] else [x % 256] + Le(x / 256, n - 1)
  }

  function LeValue(b: seq<byte>): (x: nat)
    ensures x < Limit(|b|)
  {
    if b == [] then 0
    else
      var low: int := b[0];
      low + 256 * LeValue(b[1..])
  }

  lemma {:induction false} LeRoundTrip(x: nat, n: nat)
    requires x < Limit(n)
    ensures LeValue(Le(x, n)) == x
  {
    if n == 0 {
    } else {
      LeRoundTrip(x / 256, n - 1);
      assert Le(x, n)[1..] == Le(x / 256, n - 1);
    }
  }

  /** `u32::to_le_bytes` */
  function Le32(x: u32): (b: seq<byte>)
    ensures |b| == 4 && LeValue(b) == x
  {
    LeRoundTrip(x, 4);
    Le(x, 4)
  }

  /** `u64::to_le_bytes` */
  function Le64(x: u64): (b: seq<byte>)
    ensures |b| == 8 && LeValue(b) == x
  {
    LeRoundTrip(x, 8);
    Le(x, 8)
  }

  function U32At(bytes: seq<byte>, at: nat): (x: int)
    requires at + 4 <= |bytes|
    ensures 0 <= x < TWO_TO_THE_32
  {
    var b := bytes[at..at + 4];
    assert Limit(4) == TWO_TO_THE_32 && |b| == 4;
    LeValue(b)
  }

  /** Word `i` of those that start at `at`. */
  function WordNo(bytes: seq<byte>, at: nat, i: nat): (x: int)
    requires at + 4 * i + 4 <= |bytes|
    ensures 0 <= x < TWO_TO_THE_32
  {
    U32At(bytes, at + 4 * i)
  }

  function U64At(bytes: seq<byte>, at: nat): (x: int)
    requires at + 8 <= |bytes|
    ensures 0 <= x < TWO_TO_THE_64
  {
    var b := bytes[at..at + 8];
    assert Limit(8) == TWO_TO_THE_64 && |b| == 8;
    LeValue(b)
  }

  /** The bits of a signed integer, and back. */
  function Bits(t: i32): (x: u32)
    ensures Signed(x) == t
  {
    if t < 0 then t + TWO_TO_THE_32 else t
  }

  function Signed(x: u32): (t: i32)
    ensures x - t == 0 || x - t == 0x1_0000_0000
  {
    if x < 0x8000_0000 then x else x - TWO_TO_THE_32
  }

  /** `as u32` of a wider integer. */
  function Truncate(n: nat): (x: u32)
    ensures n < TWO_TO_THE_32 ==> x == n
  {
    n % TWO_TO_THE_32
  }

  lemma LeStep(b: seq<byte>, rest: seq<byte>)
    requires b != [] && b[1..] == rest
    ensures LeValue(b) == b[0] as int + 256 * LeValue(rest)
  {
  }

  /** The lowest byte comes first. */
  lemma WordIs(bytes: seq<byte>, at: nat)
    requires at + 4 <= |bytes|
    ensures U32At(bytes, at) == bytes[at] as int + 256 * bytes[at + 1] as int + 65536 * bytes[at + 2] as int
                                + 16777216 * bytes[at + 3] as int
  {
    LeStep(bytes[at..at + 4], bytes[at + 1..at + 4]);
    LeStep(bytes[at + 1..at + 4], bytes[at + 2..at + 4]);
    LeStep(bytes[at + 2..at + 4], bytes[at + 3..at + 4]);
    LeStep(bytes[at + 3..at + 4], []);
  }

  lemma {:induction false} ValueConcat(a: seq<byte>, b: seq<byte>, v: nat)
    requires v == LeValue(b)
    ensures LeValue(a + b) == LeValue(a) + Limit(|a|) * v
  {
    if a == [] {
      assert a + b == b;
    } else {
      var rest := a[1..];
      ValueConcat(rest, b, v);
      LeStep(a + b, rest + b);
      LeStep(a, rest);
      Regroup256(Limit(|rest|), v);
    }
  }

  lemma Regroup256(l: int, v: int)
    ensures 256 * (l * v) == (256 * l) * v
  {
  }

  /** Of eight bytes the lower four come first. */
  lemma LongIs(bytes: seq<byte>, at: nat)
    requires at + 8 <= |bytes|
    ensures U64At(bytes, at) == U32At(bytes, at) + 0x1_0000_0000 * U32At(bytes, at + 4)
  {
    var lo, hi := bytes[at..at + 4], bytes[at + 4..at + 8];
    assert bytes[at..at + 8] == lo + hi;
    ValueConcat(lo, hi, LeValue(hi));
    assert Limit(4) == 0x1_0000_0000;
  }

  /** Words laid end to end. */
  function WordBytes(ws: seq<u32>): (b: seq<byte>)
    ensures |b| == 4 * |ws|
  {
    if ws == [] then [] else WordBytes(ws[..|ws| - 1]) + Le32(ws[|ws| - 1])
  }

  lemma WordBytesAppend(ws: seq<u32>, w: u32)
    ensures WordBytes(ws + [w]) == WordBytes(ws) + Le32(w)
  {
    assert (ws + [w])[..|ws|] == ws;
  }

  // ---------------------------------------------------------------- byte strings inside byte strings

  /** `x` stands at position `at`; recursive, so that it is unfolded only where it is needed. */
  ghost predicate Holds(bytes: seq<byte>, at: nat, x: seq<byte>)
    decreases |x|
  {
    at + |x| <= |bytes| && (x == [] || (bytes[at] == x[0] && Holds(bytes, at + 1, x[1..])))
  }

  lemma {:induction false} HoldsSlice(bytes: seq<byte>, at: nat, x: seq<byte>)
    requires Holds(bytes, at, x)
    ensures at + |x| <= |bytes| && bytes[at..at + |x|] == x
    decreases |x|
  {
    if x == [] {
    } else {
      HoldsSlice(bytes, at + 1, x[1..]);
      assert bytes[at..at + |x|] == [bytes[at]] + bytes[at + 1..at + |x|];
    }
  }

  lemma {:induction false} SliceHolds(bytes: seq<byte>, at: nat, x: seq<byte>)
    requires at + |x| <= |bytes| && bytes[at..at + |x|] == x
    ensures Holds(bytes, at, x)
    decreases |x|
  {
    if x == [] {
    } else {
      assert bytes[at..at + |x|][0] == bytes[at];
      assert bytes[at..at + |x|][1..] == bytes[at + 1..at + |x|];
      SliceHolds(bytes, at + 1, x[1..]);
    }
  }

  lemma HoldsAll(bytes: seq<byte>, x: seq<byte>)
    requires bytes == x
    ensures Holds(bytes, 0, x)
  {
    assert bytes[0..|bytes|] == bytes;
    SliceHolds(bytes, 0, bytes);
  }

  lemma {:induction false} HoldsParts(bytes: seq<byte>, at: nat, x: seq<byte>, mid: nat, y: seq<byte>)
    requires Holds(bytes, at, x + y) && mid == at + |x|
    ensures Holds(bytes, at, x) && Holds(bytes, mid, y)
    decreases |x|
  {
    if x == [] {
      assert x + y == y;
    } else {
      assert (x + y)[1..] == x[1..] + y;
      HoldsParts(bytes, at + 1, x[1..], mid, y);
    }
  }

  lemma HoldsWord(bytes: seq<byte>, at: nat, x: u32)
    requires Holds(bytes, at, Le32(x))
    ensures at + 4 <= |bytes| && U32At(bytes, at) == x
  {
    HoldsSlice(bytes, at, Le32(x));
  }

  lemma HoldsLong(bytes: seq<byte>, at: nat, x: u64)
    requires Holds(bytes, at, Le64(x))
    ensures at + 8 <= |bytes| && U64At(bytes, at) == x
  {
    HoldsSlice(bytes, at, Le64(x));
  }

  /** Word `i` of words laid end to end stands at `4 * i`, wherever they all stand. */
  lemma {:induction false} WordStands(bytes: seq<byte>, at: nat, ws: seq<u32>, i: nat, j: nat)
    requires Holds(bytes, at, WordBytes(ws)) && i < |ws| && j == at + 4 * i
    ensures j + 4 <= |bytes| && U32At(bytes, j) == ws[i]
    decreases |ws|
  {
    var n := |ws| - 1;
    var last := at + 4 * n;
    HoldsParts(bytes, at, WordBytes(ws[..n]), last, Le32(ws[n]));
    if i < n {
      WordStands(bytes, at, ws[..n], i, j);
    } else {
      HoldsWord(bytes, j, ws[n]);
    }
  }

  lemma WordNoIs(bytes: seq<byte>, at: nat, i: nat, j: nat, x: int)
    requires j == at + 4 * i && j + 4 <= |bytes| && U32At(bytes, j) == x
    ensures WordNo(bytes, at, i) == x
  {
  }

  lemma WordNoStands(bytes: seq<byte>, at: nat, ws: seq<u32>, i: nat)
    requires Holds(bytes, at, WordBytes(ws)) && i < |ws|
    ensures at + 4 * i + 4 <= |bytes| && WordNo(bytes, at, i) == ws[i]
  {
    var j := at + 4 * i;
    WordStands(bytes, at, ws, i, j);
    WordNoIs(bytes, at, i, j, ws[i]);
  }

  lemma {:induction false} WordBytesConcat(a: seq<u32>, b: seq<u32>)
    ensures WordBytes(a + b) == WordBytes(a) + WordBytes(b)
  {
    if b == [] {
      assert a + b == a;
    } else {
      var n := |b| - 1;
      WordBytesConcat(a, b[..n]);
      assert a + b == (a + b[..n]) + [b[n]];
      WordBytesAppend(a + b[..n], b[n]);
      Regroup(WordBytes(a), WordBytes(b[..n]), Le32(b[n]));
    }
  }

}
