/** The numbers of the GGUF format: the start of a file, the sizes of its types, and the keys that are kept. */
module GgufRules {
  import opened Wrappers
  import opened Utf8
  import opened Utf8Text
  import opened LittleEndian
  import opened GgufReader
  import opened GgufMetadata
  import opened GgufModel

  /** A file starts with "GGUF" and version three. */
  lemma StartIs(data: seq<byte>)
    ensures StartsAsGguf(data) <==> |data| >= 32 && data[..4] == Ascii("GGUF") && data[4..8] == [3, 0, 0, 0]
  {
    if |data| >= 32 {
      WordIs(data, 0);
      WordIs(data, 4);
      FourBytes(data[0], data[1], data[2], data[3]);
      assert Ascii("GGUF") == [71, 71, 85, 70];
      assert data[..4] == [data[0], data[1], data[2], data[3]];
      assert data[4..8] == [data[4], data[5], data[6], data[7]];
    }
  }

  lemma FourBytes(a: byte, b: byte, c: byte, d: byte)
    ensures a as int + 256 * b as int + 65536 * c as int + 16777216 * d as int == 0x4655_4747
       <==> a == 71 && b == 71 && c == 85 && d == 70
  {
  }

  /** Scalars of types 0 to 12; 8 is a string and 9 an array. */
  lemma ScalarSizesAre(ty: nat)
    ensures ScalarSize(ty).Some? <==> ty <= 12 && ty != 8 && ty != 9
    ensures ScalarSize(ty).Some? ==> ScalarSize(ty).value == [1, 1, 2, 2, 4, 4, 4, 1, 0, 0, 8, 8, 8][ty]
  {
  }

  /** The tensor types: how many elements make a block, and how many bytes a block takes; 4 and 5 are unused. */
  lemma BlockShapesAre(ty: nat)
    ensures BlockShape(ty).Some? <==> ty <= 30 && ty != 4 && ty != 5
    ensures BlockShape(ty).Some? ==>
              BlockShape(ty).value.elems == if ty <= 1 || 24 <= ty <= 28 || ty == 30 then 1 else if ty <= 9 then 32 else 256
    ensures BlockShape(ty).Some? ==>
              BlockShape(ty).value.bytes == [4, 2, 18, 20, 0, 0, 22, 24, 34, 40, 84, 110, 144, 176, 210, 292,
                                             66, 74, 98, 110, 50, 110, 82, 136, 1, 2, 4, 8, 8, 56, 2][ty]
  {
  }

  /** There is no size for an unknown type, nor where the rounding or the product passes 64 bits. */
  lemma NoSize(ty: nat, elements: nat, blocks: nat)
    requires BlockShape(ty).Some? ==> blocks == (elements + BlockShape(ty).value.elems - 1) / BlockShape(ty).value.elems
    ensures TensorBytesOf(ty, elements).None?
       <==> BlockShape(ty).None? || elements + BlockShape(ty).value.elems > 0x1_0000_0000_0000_0000
            || blocks * BlockShape(ty).value.bytes >= 0x1_0000_0000_0000_0000
  {
  }

  // The five keys whose values are kept.

  lemma AlignmentKey()
    ensures ModelKeys().alignment == Ascii("general.alignment")
  {
    AsciiBytes("general.alignment");
  }

  lemma ArchitectureKey()
    ensures ModelKeys().architecture == Ascii("general.architecture")
  {
    AsciiBytes("general.architecture");
  }

  lemma VocabSizeKey()
    ensures ModelKeys().vocabSize == Ascii("deepseek4.vocab_size")
  {
    AsciiBytes("deepseek4.vocab_size");
  }

  lemma TokensKey()
    ensures ModelKeys().tokens == Ascii("tokenizer.ggml.tokens")
  {
    AsciiBytes("tokenizer.ggml.tokens");
  }

  lemma MergesKey()
    ensures ModelKeys().merges == Ascii("tokenizer.ggml.merges")
  {
    AsciiBytes("tokenizer.ggml.merges");
  }

  /** A value of 32 is assumed for the alignment until the metadata says otherwise, and nothing else. */
  lemma NothingKeptYet()
    ensures EmptyHeader() == Header(32, None, None, [], [])
  {
  }
}
