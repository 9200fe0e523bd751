/** The base-relocation encoder of the PE builder: a list of relocation
    blocks becomes the raw bytes of a `.reloc`-style section, laid out as in
    section 6.6.1 ("Base Relocation Block") of the Microsoft PE/COFF
    Specification. */
module Relocations {
  import opened Bytes

  /** Size of the `{PageRVA, BlockSize}` block header. */
  const BlockHeaderSize: nat := 8

  /** One relocation block: the page it patches and its 16-bit entries
      (type in the top four bits, offset in the page below), kept opaque. */
  datatype RelocationBlock = RelocationBlock(virtualAddress: u32, entries: seq<u16>)

  /** The unpadded length of a block: header plus two bytes per entry. */
  function RawBlockLength(b: RelocationBlock): nat {
    BlockHeaderSize + 2 * |b.entries|
  }

  /** The `BlockSize` field as computed: `(uint32_t)(n * 2 + 8)` aligned on
      four bytes, stored back into a `uint32_t`. */
  function BlockSizeField(b: RelocationBlock): u32 {
    Trunc32(Align(Trunc32(RawBlockLength(b)), 4))
  }

  /** A block whose size does not wrap around in 32 bits. */
  predicate SizeFits(b: RelocationBlock) {
    RawBlockLength(b) <= 0xFFFF_FFFC
  }

  /** The bytes one block contributes: header, entries, then zeros up to a
      four-byte boundary. */
  function BlockBytes(b: RelocationBlock): seq<u8> {
    LE32(b.virtualAddress) + LE32(BlockSizeField(b)) + LE16s(b.entries)
      + Zeros(Align(RawBlockLength(b), 4) - RawBlockLength(b))
  }

  /** All blocks, back to back, in the binary's order. */
  function RelocationBytes(bs: seq<RelocationBlock>): seq<u8> {
    if bs == [] then [] else BlockBytes(bs[0]) + RelocationBytes(bs[1..])
  }

  /** The content of the new section: the blocks, zero-padded up to the
      file alignment. */
  function SectionContent(bs: seq<RelocationBlock>, fileAlignment: u32): seq<u8> {
    var raw := RelocationBytes(bs);
    raw + Zeros(Align(|raw|, fileAlignment) - |raw|)
  }

  /** The encoding loop of `build_relocation`: the blocks are appended one
      by one, each entry by entry, each followed by the zeros that bring the
      whole content to a four-byte boundary; the result is then zero-padded
      to the file alignment. */
  method EncodeRelocations(blocks: seq<RelocationBlock>, fileAlignment: u32) returns (content: seq<u8>)
    ensures content == SectionContent(blocks, fileAlignment)
  {
    content := [];
    for i := 0 to |blocks|
      invariant content == RelocationBytes(blocks[..i])
      invariant |content| % 4 == 0
    {
      var block := blocks[i];
      ghost var before := content;
      content := content + LE32(block.virtualAddress) + LE32(BlockSizeField(block));
      for j := 0 to |block.entries|
        invariant content == before + LE32(block.virtualAddress) + LE32(BlockSizeField(block))
                             + LE16s(block.entries[..j])
      {
        LE16sPrefix(block.entries, j);
        content := content + LE16(block.entries[j]);
      }
      LE16sPrefix(block.entries, |block.entries|);
      AppendBlock(before, block, content);
      content := content + Zeros(Align(|content|, 4) - |content|);
      RelocationBytesPrefix(blocks, i);
    }
    RelocationBytesPrefix(blocks, |blocks|);
    content := content + Zeros(Align(|content|, fileAlignment) - |content|);
  }

  /** The entries' bytes grow by one entry at a time; all of them are the
      bytes of the whole list. */
  lemma {:induction false} LE16sPrefix(es: seq<u16>, j: nat)
    requires j <= |es|
    ensures j < |es| ==> LE16s(es[..j + 1]) == LE16s(es[..j]) + LE16(es[j])
    ensures j == |es| ==> LE16s(es[..j]) == LE16s(es)
  {
    if j < |es| {
      assert es[..j + 1] == es[..j] + [es[j]];
      LE16sSnoc(es[..j], es[j]);
    } else {
      assert es[..j] == es;
    }
  }

  /** The same for the blocks. */
  lemma {:induction false} RelocationBytesPrefix(bs: seq<RelocationBlock>, i: nat)
    requires i <= |bs|
    ensures i < |bs| ==> RelocationBytes(bs[..i + 1]) == RelocationBytes(bs[..i]) + BlockBytes(bs[i])
    ensures i == |bs| ==> RelocationBytes(bs[..i]) == RelocationBytes(bs)
  {
    if i < |bs| {
      assert bs[..i + 1] == bs[..i] + [bs[i]];
      RelocationBytesSnoc(bs[..i], bs[i]);
    } else {
      assert bs[..i] == bs;
    }
  }

  lemma {:induction false} RelocationBytesSnoc(bs: seq<RelocationBlock>, b: RelocationBlock)
    ensures RelocationBytes(bs + [b]) == RelocationBytes(bs) + BlockBytes(b)
  {
    if bs != [] {
      assert (bs + [b])[1..] == bs[1..] + [b];
      RelocationBytesSnoc(bs[1..], b);
    }
  }

  /** Padding the whole content to four bytes after appending `n` bytes to a
      four-byte-aligned prefix adds exactly the padding of the `n` bytes. */
  lemma PadAfterAlignedPrefix(prefix: nat, n: nat)
    requires prefix % 4 == 0
    ensures Align(prefix + n, 4) - (prefix + n) == Align(n, 4) - n
  {
    assert (prefix + n) % 4 == n % 4;
  }

  /** One pass of the outer loop appends exactly the block's bytes, and the
      content stays four-byte aligned. */
  lemma AppendBlock(before: seq<u8>, b: RelocationBlock, unpadded: seq<u8>)
    requires |before| % 4 == 0
    requires unpadded == before + LE32(b.virtualAddress) + LE32(BlockSizeField(b)) + LE16s(b.entries)
    ensures unpadded + Zeros(Align(|unpadded|, 4) - |unpadded|) == before + BlockBytes(b)
    ensures |before + BlockBytes(b)| % 4 == 0
  {
    assert |unpadded| == |before| + RawBlockLength(b);
    PadAfterAlignedPrefix(|before|, RawBlockLength(b));
    BlockLength(b);
    SumOfMultiplesOfFour(|before|, |BlockBytes(b)|);
  }

  /** A block takes exactly `align(8 + 2n, 4)` bytes, a multiple of four;
      when that size fits in 32 bits, it is also the `BlockSize` field. */
  lemma BlockLength(b: RelocationBlock)
    ensures |BlockBytes(b)| == Align(RawBlockLength(b), 4)
    ensures |BlockBytes(b)| % 4 == 0
    ensures SizeFits(b) ==> BlockSizeField(b) == |BlockBytes(b)|
  {
    AlignIsLeastMultiple(RawBlockLength(b), 4);
  }

  /** The block header comes first, then the entries in order, then zeros. */
  lemma BlockLayout(b: RelocationBlock)
    ensures BlockBytes(b)[0..4] == LE32(b.virtualAddress)
    ensures BlockBytes(b)[4..8] == LE32(BlockSizeField(b))
    ensures forall k :: 0 <= k < |b.entries| ==> BlockBytes(b)[8 + 2 * k..10 + 2 * k] == LE16(b.entries[k])
    ensures forall i :: RawBlockLength(b) <= i < |BlockBytes(b)| ==> BlockBytes(b)[i] == 0
  {
    var bytes := BlockBytes(b);
    var es := LE16s(b.entries);
    assert bytes[8..8 + |es|] == es;
    forall k | 0 <= k < |b.entries|
      ensures bytes[8 + 2 * k..10 + 2 * k] == LE16(b.entries[k])
    {
      LE16sAt(b.entries, k);
      assert bytes[8 + 2 * k..10 + 2 * k] == es[2 * k..2 * k + 2];
    }
  }

  /** The encoded blocks end on a four-byte boundary. */
  lemma {:induction false} RelocationBytesAligned(bs: seq<RelocationBlock>)
    ensures |RelocationBytes(bs)| % 4 == 0
  {
    if bs != [] {
      BlockLength(bs[0]);
      RelocationBytesAligned(bs[1..]);
      var x, y := |BlockBytes(bs[0])|, |RelocationBytes(bs[1..])|;
      assert |RelocationBytes(bs)| == x + y;
      SumOfMultiplesOfFour(x, y);
    }
  }

  lemma SumOfMultiplesOfFour(x: nat, y: nat)
    requires x % 4 == 0 && y % 4 == 0
    ensures (x + y) % 4 == 0
  {
  }

  /** The section content starts with the encoded blocks, continues with
      zeros, and its length is a multiple of the file alignment (and of four
      when the file alignment is). */
  lemma SectionContentLayout(bs: seq<RelocationBlock>, fileAlignment: u32)
    ensures var c := SectionContent(bs, fileAlignment);
      && c[..|RelocationBytes(bs)|] == RelocationBytes(bs)
      && (forall i :: |RelocationBytes(bs)| <= i < |c| ==> c[i] == 0)
      && (fileAlignment > 0 ==> |c| % fileAlignment == 0)
      && (fileAlignment % 4 == 0 ==> |c| % 4 == 0)
  {
    var raw := RelocationBytes(bs);
    var c := SectionContent(bs, fileAlignment);
    assert |c| == Align(|raw|, fileAlignment);
    RelocationBytesAligned(bs);
    if fileAlignment > 0 {
      AlignIsLeastMultiple(|raw|, fileAlignment);
    }
    AlignMultipleOfFour(|raw|, fileAlignment);
  }

  /** When the file alignment is a multiple of four (as PE requires, being a
      power of two of at least 512) the padded length stays a multiple of
      four; for any other alignment the padded length can break the
      four-byte rhythm, so the fact is stated for aligned inputs only. */
  lemma AlignMultipleOfFour(n: nat, a: nat)
    requires n % 4 == 0
    ensures a % 4 == 0 ==> Align(n, a) % 4 == 0
  {
    if a > 0 && a % 4 == 0 {
      AlignIsLeastMultiple(n, a);
      var m := Align(n, a);
      assert m % a == 0;
      assert m == (m / a) * a;
      MultipleMod((m / a) * (a / 4), 4);
      assert (m / a) * a == ((m / a) * (a / 4)) * 4;
    }
  }

  /** One block of three entries at page 0x1000: fourteen bytes, padded
      to sixteen, which the `BlockSize` field reports; the section holds
      them and 496 zeros up to a 512-byte file alignment. */
  lemma ThreeEntryBlock()
    ensures var b := RelocationBlock(0x1000, [0x3004, 0x3008, 0x300C]);
      && BlockSizeField(b) == 16
      && |BlockBytes(b)| == 16
      && |SectionContent([b], 0x200)| == 0x200
  {
    var b := RelocationBlock(0x1000, [0x3004, 0x3008, 0x300C]);
    BlockLength(b);
    assert RelocationBytes([b]) == BlockBytes(b) + RelocationBytes([]);
  }

  // A reader of the encoded blocks, following section 6.6.1 of the PE/COFF
  // Specification: each block states its own size, and its entries fill
  // the rest of it.

  /** Two-byte entries, read in order. */
  function DecodeEntries(b: seq<u8>): (r: seq<u16>)
    requires |b| % 2 == 0
    ensures |r| == |b| / 2
    decreases |b|
  {
    if b == [] then [] else [ReadLE16(b[..2])] + DecodeEntries(b[2..])
  }

  /** Reads blocks until the bytes run out; `None` when a size field does
      not describe a whole block. */
  function DecodeBlocks(b: seq<u8>): Option<seq<RelocationBlock>>
    decreases |b|
  {
    if b == [] then Some([])
    else if |b| < BlockHeaderSize then None
    else
      var size := ReadLE32(b[4..8]);
      if size < BlockHeaderSize || |b| < size || size % 2 != 0 then None
      else
        match DecodeBlocks(b[size..])
        case None => None
        case Some(rest) => Some([RelocationBlock(ReadLE32(b[..4]), DecodeEntries(b[8..size]))] + rest)
  }

  /** An odd number of entries is completed by one zero entry
      (`IMAGE_REL_BASED_ABSOLUTE`, which a loader skips): that is what the
      four-byte padding of a block reads back as. */
  function Padded(b: RelocationBlock): RelocationBlock {
    if |b.entries| % 2 == 1 then b.(entries := b.entries + [0]) else b
  }

  function PaddedAll(bs: seq<RelocationBlock>): (r: seq<RelocationBlock>)
    ensures |r| == |bs|
  {
    if bs == [] then [] else [Padded(bs[0])] + PaddedAll(bs[1..])
  }

  lemma {:induction false} DecodeEntriesRoundTrip(es: seq<u16>)
    ensures DecodeEntries(LE16s(es)) == es
  {
    if es != [] {
      var b := LE16s(es);
      assert b[..2] == LE16(es[0]);
      assert b[2..] == LE16s(es[1..]);
      LE16RoundTrip(es[0]);
      DecodeEntriesRoundTrip(es[1..]);
    }
  }

  lemma {:induction false} DecodeEntriesAppend(a: seq<u8>, b: seq<u8>)
    requires |a| % 2 == 0 && |b| % 2 == 0
    ensures DecodeEntries(a + b) == DecodeEntries(a) + DecodeEntries(b)
    decreases |a|
  {
    if a != [] {
      assert (a + b)[..2] == a[..2];
      assert (a + b)[2..] == a[2..] + b;
      DecodeEntriesAppend(a[2..], b);
    } else {
      assert a + b == b;
    }
  }

  /** A block is padded by one zero entry when its entry count is odd. */
  lemma BlockPadding(b: RelocationBlock)
    ensures Align(RawBlockLength(b), 4) - RawBlockLength(b) == if |b.entries| % 2 == 1 then 2 else 0
  {
    var n := |b.entries|;
    assert RawBlockLength(b) % 4 == 2 * (n % 2) by {
      assert RawBlockLength(b) == 4 * (2 + n / 2) + 2 * (n % 2);
    }
  }

  /** The bytes after a block's header are its entries, padded. */
  lemma BlockBody(b: RelocationBlock)
    ensures BlockBytes(b)[8..] == LE16s(Padded(b).entries)
  {
    BlockPadding(b);
    var bytes := BlockBytes(b);
    if |b.entries| % 2 == 1 {
      LE16sSnoc(b.entries, 0);
      assert bytes[8..] == LE16s(b.entries) + Zeros(2);
      assert Zeros(2) == LE16(0);
    } else {
      assert bytes[8..] == LE16s(b.entries) + Zeros(0);
    }
  }

  /** The bytes of one block, whatever follows them, read back as that block,
      padded. */
  lemma BlockRoundTrip(b: RelocationBlock, tail: seq<u8>)
    requires SizeFits(b)
    ensures var bytes := BlockBytes(b) + tail;
      && ReadLE32(bytes[4..8]) == |BlockBytes(b)|
      && bytes[..4] == LE32(b.virtualAddress)
      && bytes[8..|BlockBytes(b)|] == LE16s(Padded(b).entries)
  {
    BlockLength(b);
    BlockLayout(b);
    BlockBody(b);
    var bytes := BlockBytes(b) + tail;
    assert bytes[4..8] == BlockBytes(b)[4..8];
    assert bytes[..4] == BlockBytes(b)[0..4];
    assert bytes[8..|BlockBytes(b)|] == BlockBytes(b)[8..];
    LE32RoundTrip(BlockSizeField(b));
  }

  /** Decoding the encoded blocks gives back the blocks, in order, each with
      the zero entry that fills its four-byte padding. */
  lemma {:induction false} DecodeRoundTrip(bs: seq<RelocationBlock>)
    requires forall i :: 0 <= i < |bs| ==> SizeFits(bs[i])
    ensures DecodeBlocks(RelocationBytes(bs)) == Some(PaddedAll(bs))
  {
    if bs != [] {
      DecodeRoundTrip(bs[1..]);
      DecodeStep(bs[0], RelocationBytes(bs[1..]), PaddedAll(bs[1..]));
      assert RelocationBytes(bs) == BlockBytes(bs[0]) + RelocationBytes(bs[1..]);
    }
  }

  /** One encoded block in front of bytes that decode puts that block,
      padded, in front of what they decode to. */
  lemma DecodeStep(b: RelocationBlock, tail: seq<u8>, decoded: seq<RelocationBlock>)
    requires SizeFits(b)
    requires DecodeBlocks(tail) == Some(decoded)
    ensures DecodeBlocks(BlockBytes(b) + tail) == Some([Padded(b)] + decoded)
  {
    var bytes := BlockBytes(b) + tail;
    var size := |BlockBytes(b)|;
    BlockLength(b);
    BlockRoundTrip(b, tail);
    assert bytes[size..] == tail;
    DecodeFirst(bytes, size, decoded);
    DecodeEntriesRoundTrip(Padded(b).entries);
    LE32RoundTrip(b.virtualAddress);
  }

  /** A size field that describes a whole block, in front of bytes that
      decode, is read as one block followed by what they decode to. */
  lemma DecodeFirst(bytes: seq<u8>, size: nat, rest: seq<RelocationBlock>)
    requires BlockHeaderSize <= size <= |bytes| && size % 2 == 0
    requires ReadLE32(bytes[4..8]) == size
    requires DecodeBlocks(bytes[size..]) == Some(rest)
    ensures DecodeBlocks(bytes)
            == Some([RelocationBlock(ReadLE32(bytes[..4]), DecodeEntries(bytes[8..size]))] + rest)
  {
  }
}
