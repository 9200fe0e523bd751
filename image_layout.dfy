/** Where `build` leaves each part of the image in the stream: the DOS
    header at 0, the file header at the signature offset the binary holds
    (`addressOfNewExeHeader`), the
    optional header and the data directories right after it, the section
    table after those, and every section's content at its file offset,
    provided the contents lie past the section table and do not overlap
    one another. */
module ImageLayout {
  import opened Bytes
  import opened Sink
  import opened Headers
  import opened PEBuilder

  /** `bytes` sit at `off` in `raw`. */
  predicate At(raw: seq<u8>, off: nat, bytes: seq<u8>) {
    off + |bytes| <= |raw| && raw[off..off + |bytes|] == bytes
  }

  /** The ranges `[lo, hi)` and `[at, at + len)` do not overlap. */
  predicate Apart(lo: nat, hi: nat, at: nat, len: nat) {
    hi <= at || at + len <= lo
  }

  /** Every section's content starts at or after `end`. */
  predicate ContentsFrom(secs: seq<Section>, end: nat) {
    forall j :: 0 <= j < |secs| ==> end <= secs[j].offset as nat
  }

  /** No two sections' contents overlap. */
  predicate ContentsApart(secs: seq<Section>) {
    forall i, j :: 0 <= i < j < |secs| ==>
      Apart(secs[i].offset as nat, secs[i].offset as nat + |secs[i].content|, secs[j].offset as nat, |secs[j].content|)
  }

  /** Writing one section (entry and content) away from a range keeps it. */
  lemma PutSectionKeeps(s: SinkState, sec: Section, lo: nat, hi: nat)
    requires lo <= hi <= |s.raw|
    requires Apart(lo, hi, s.pos, SectionHeaderSize) && Apart(lo, hi, sec.offset as nat, |sec.content|)
    ensures PutSection(s, sec).raw[lo..hi] == s.raw[lo..hi]
  {
    var afterEntry := Put(s, SectionRecord(sec));
    PutKeeps(s, SectionRecord(sec), lo, hi);
    PutKeeps(Seek(afterEntry, sec.offset as nat), sec.content, lo, hi);
  }

  /** The same, for bytes known to sit in the range. */
  lemma PutSectionKeepsAt(s: SinkState, sec: Section, off: nat, bytes: seq<u8>)
    requires At(s.raw, off, bytes)
    requires Apart(off, off + |bytes|, s.pos, SectionHeaderSize) && Apart(off, off + |bytes|, sec.offset as nat, |sec.content|)
    ensures At(PutSection(s, sec).raw, off, bytes)
  {
    PutSectionKeeps(s, sec, off, off + |bytes|);
  }

  /** The section loop keeps a range that lies away from the whole table
      and from every content. */
  lemma {:induction false} PutSectionsKeeps(s: SinkState, secs: seq<Section>, lo: nat, hi: nat)
    requires lo <= hi <= |s.raw|
    requires Apart(lo, hi, s.pos, SectionHeaderSize * |secs|)
    requires forall j :: 0 <= j < |secs| ==> Apart(lo, hi, secs[j].offset as nat, |secs[j].content|)
    ensures PutSections(s, secs).raw[lo..hi] == s.raw[lo..hi]
  {
    if secs != [] {
      var init := secs[..|secs| - 1];
      assert forall j :: 0 <= j < |init| ==> init[j] == secs[j];
      PutSectionsKeeps(s, init, lo, hi);
      var t := PutSections(s, init);
      PutSectionKeeps(t, secs[|secs| - 1], lo, hi);
    }
  }

  /** One section written: its content is at its offset, and its entry at
      the cursor when the content lies past the entry. */
  lemma PutSectionPlaced(s: SinkState, sec: Section)
    ensures At(PutSection(s, sec).raw, sec.offset as nat, sec.content)
    ensures s.pos + SectionHeaderSize <= sec.offset as nat ==> At(PutSection(s, sec).raw, s.pos, SectionRecord(sec))
  {
    var afterEntry := Put(s, SectionRecord(sec));
    if s.pos + SectionHeaderSize <= sec.offset as nat {
      PutKeeps(Seek(afterEntry, sec.offset as nat), sec.content, s.pos, s.pos + SectionHeaderSize);
    }
  }

  /** Entry `k` of a table ends no later than entry `n` starts. */
  lemma EntryBefore(k: nat, n: nat)
    requires k < n
    ensures SectionHeaderSize * k + SectionHeaderSize <= SectionHeaderSize * n
  {
  }

  /** The `k`-th section table entry is at `s.pos + 40 k` once the loop is
      done, when every content lies at or past `end`, the end of the table
      or later. */
  lemma {:induction false} SectionEntryPlaced(s: SinkState, secs: seq<Section>, k: nat, end: nat)
    requires k < |secs|
    requires s.pos + SectionHeaderSize * |secs| <= end && ContentsFrom(secs, end)
    ensures At(PutSections(s, secs).raw, s.pos + SectionHeaderSize * k, SectionRecord(secs[k]))
  {
    var init := secs[..|secs| - 1];
    var last := secs[|secs| - 1];
    var t := PutSections(s, init);
    EntryBefore(k, |secs|);
    if k == |secs| - 1 {
      PutSectionPlaced(t, last);
    } else {
      assert init[k] == secs[k];
      SectionEntryPlaced(s, init, k, end);
      EntryBefore(k, |init|);
      PutSectionKeepsAt(t, last, s.pos + SectionHeaderSize * k, SectionRecord(secs[k]));
    }
  }

  /** The `k`-th section's content is at its offset once the loop is done,
      when the contents lie past the table and apart from one another. */
  lemma {:induction false} SectionContentPlaced(s: SinkState, secs: seq<Section>, k: nat, end: nat)
    requires k < |secs|
    requires s.pos + SectionHeaderSize * |secs| <= end && ContentsFrom(secs, end) && ContentsApart(secs)
    ensures At(PutSections(s, secs).raw, secs[k].offset as nat, secs[k].content)
  {
    var init := secs[..|secs| - 1];
    var last := secs[|secs| - 1];
    var t := PutSections(s, init);
    if k == |secs| - 1 {
      PutSectionPlaced(t, last);
    } else {
      assert init[k] == secs[k];
      SectionContentPlaced(s, init, k, end);
      EntryBefore(|init|, |secs|);
      PutSectionKeepsAt(t, last, secs[k].offset as nat, secs[k].content);
    }
  }

  /** The offset of the section table: past the file header, the optional
      header and the data-directory table. */
  function TableOffset(v: BinaryView, optionalHeader: seq<u8>): nat {
    v.info.dosHeader.addressOfNewExeHeader as nat + FileHeaderSize + |optionalHeader|
    + |DirectoryTable(v.info.dataDirectories)|
  }

  /** A write away from bytes known to sit at `off` keeps them there. */
  lemma PutKeepsAt(s: SinkState, bytes: seq<u8>, off: nat, kept: seq<u8>)
    requires At(s.raw, off, kept) && Apart(off, off + |kept|, s.pos, |bytes|)
    ensures At(Put(s, bytes).raw, off, kept)
  {
    PutKeeps(s, bytes, off, off + |kept|);
  }

  /** What precedes the section loop: the DOS header at 0, the file header
      (with the section count) at the signature offset the binary holds, the
      optional header and the directory table after it, and the cursor at
      the section table. */
  lemma HeadersPlaced(s: SinkState, v: BinaryView, optionalHeader: seq<u8>)
    requires ValidDos(v.info.dosHeader) && ValidFileHeader(v.info.header)
    requires DosHeaderSize <= v.info.dosHeader.addressOfNewExeHeader as nat
    ensures var h := HeadersImage(s, v, optionalHeader);
      var addr := v.info.dosHeader.addressOfNewExeHeader as nat;
      && h.pos == TableOffset(v, optionalHeader) <= |h.raw|
      && HeadersAt(h.raw, v, optionalHeader)
  {
    var addr := v.info.dosHeader.addressOfNewExeHeader as nat;
    var dosRecord := DosRecordAsWritten(v.info.dosHeader);
    var fileRecord := FileHeaderRecord(v.info.header, Trunc16(|v.sections|));
    var table := DirectoryTable(v.info.dataDirectories);
    var dos := Put(Seek(s, 0), dosRecord);
    var header := Put(Seek(dos, addr), fileRecord);
    var optional := Put(header, optionalHeader);
    PutKeepsAt(Seek(dos, addr), fileRecord, 0, dosRecord);
    PutKeepsAt(header, optionalHeader, 0, dosRecord);
    PutKeepsAt(header, optionalHeader, addr, fileRecord);
    PutKeepsAt(optional, table, 0, dosRecord);
    PutKeepsAt(optional, table, addr, fileRecord);
    PutKeepsAt(optional, table, addr + FileHeaderSize, optionalHeader);
  }

  /** The section loop keeps everything before the table, when every
      content lies past the table. */
  lemma LoopKeepsPrefix(h: SinkState, secs: seq<Section>, end: nat)
    requires h.pos <= |h.raw|
    requires h.pos + SectionHeaderSize * |secs| <= end && ContentsFrom(secs, end)
    ensures PutSections(h, secs).raw[0..h.pos] == h.raw[0..h.pos]
  {
    forall j | 0 <= j < |secs|
      ensures Apart(0, h.pos, secs[j].offset as nat, |secs[j].content|)
    {
    }
    PutSectionsKeeps(h, secs, 0, h.pos);
  }

  /** Bytes that sit inside a range two sequences share sit in both. */
  lemma AtWithin(r: seq<u8>, raw: seq<u8>, lo: nat, hi: nat, off: nat, bytes: seq<u8>)
    requires lo <= off && off + |bytes| <= hi <= |r| && hi <= |raw|
    requires r[lo..hi] == raw[lo..hi] && At(raw, off, bytes)
    ensures At(r, off, bytes)
  {
    forall i | off <= i < off + |bytes|
      ensures r[i] == raw[i]
    {
      assert r[i] == r[lo..hi][i - lo];
    }
  }

  /** A part of bytes that sit at `off`. */
  lemma AtSlice(raw: seq<u8>, off: nat, bytes: seq<u8>, i: nat, j: nat)
    requires At(raw, off, bytes) && i <= j <= |bytes|
    ensures raw[off + i..off + j] == bytes[i..j]
  {
    forall t | 0 <= t < j - i
      ensures raw[off + i..off + j][t] == bytes[i..j][t]
    {
      assert raw[off + i + t] == raw[off..off + |bytes|][i + t];
    }
  }

  /** What a loader reads from the headers: `e_lfanew` holds the file
      header's offset `addr` modulo 2^16, which is `addr` exactly when `addr`
      is below 2^16; at `addr`, `NumberOfSections` is the count of sections,
      modulo 2^16. */
  predicate ReadsBack(raw: seq<u8>, v: BinaryView) {
    var addr := v.info.dosHeader.addressOfNewExeHeader as nat;
    && DosHeaderSize <= |raw|
    && ReadLE32(raw[NewExeHeaderOffset..DosHeaderSize]) == addr % 0x1_0000
    && (ReadLE32(raw[NewExeHeaderOffset..DosHeaderSize]) == addr <==> addr < 0x1_0000)
    && addr + 8 <= |raw| && ReadLE16(raw[addr + 6..addr + 8]) == Trunc16(|v.sections|)
  }

  /** Headers in place read back as such. */
  lemma HeadersReadBack(raw: seq<u8>, v: BinaryView, optionalHeader: seq<u8>)
    requires ValidDos(v.info.dosHeader) && ValidFileHeader(v.info.header)
    requires HeadersAt(raw, v, optionalHeader)
    ensures ReadsBack(raw, v)
  {
    var addr := v.info.dosHeader.addressOfNewExeHeader as nat;
    var fileRecord := FileHeaderRecord(v.info.header, Trunc16(|v.sections|));
    AtSlice(raw, 0, DosRecordAsWritten(v.info.dosHeader), NewExeHeaderOffset, DosHeaderSize);
    DosRecordAsWrittenNewHeader(v.info.dosHeader);
    AtSlice(raw, addr, fileRecord, 6, 8);
    FileHeaderFields(v.info.header, Trunc16(|v.sections|));
  }

  /** The headers sit where the format expects them in `raw`. */
  predicate HeadersAt(raw: seq<u8>, v: BinaryView, optionalHeader: seq<u8>)
    requires ValidDos(v.info.dosHeader) && ValidFileHeader(v.info.header)
  {
    var addr := v.info.dosHeader.addressOfNewExeHeader as nat;
    && At(raw, 0, DosRecordAsWritten(v.info.dosHeader))
    && At(raw, addr, FileHeaderRecord(v.info.header, Trunc16(|v.sections|)))
    && At(raw, addr + FileHeaderSize, optionalHeader)
    && At(raw, addr + FileHeaderSize + |optionalHeader|, DirectoryTable(v.info.dataDirectories))
  }

  /** The section loop keeps the headers before the table. */
  lemma LoopKeepsHeaders(h: SinkState, v: BinaryView, optionalHeader: seq<u8>, r: seq<u8>)
    requires ValidDos(v.info.dosHeader) && ValidFileHeader(v.info.header)
    requires DosHeaderSize <= v.info.dosHeader.addressOfNewExeHeader as nat
    requires HeadersAt(h.raw, v, optionalHeader) && h.pos == TableOffset(v, optionalHeader)
    requires h.pos <= |r| && r[0..h.pos] == h.raw[0..h.pos]
    ensures HeadersAt(r, v, optionalHeader)
  {
    var addr := v.info.dosHeader.addressOfNewExeHeader as nat;
    AtWithin(r, h.raw, 0, h.pos, 0, DosRecordAsWritten(v.info.dosHeader));
    AtWithin(r, h.raw, 0, h.pos, addr, FileHeaderRecord(v.info.header, Trunc16(|v.sections|)));
    AtWithin(r, h.raw, 0, h.pos, addr + FileHeaderSize, optionalHeader);
    AtWithin(r, h.raw, 0, h.pos, addr + FileHeaderSize + |optionalHeader|, DirectoryTable(v.info.dataDirectories));
  }

  /** The headers of the image `build` writes for the binary `v`, once the
      sections are written too: every header where the program puts it; a
      loader reading `e_lfanew` finds the file header exactly when its
      offset is below 2^16, and reads from it the final number of
      sections. */
  lemma ImageHeadersPlaced(s: SinkState, v: BinaryView, optionalHeader: seq<u8>)
    requires ValidDos(v.info.dosHeader) && ValidFileHeader(v.info.header)
    requires DosHeaderSize <= v.info.dosHeader.addressOfNewExeHeader as nat
    requires ContentsFrom(v.sections, TableOffset(v, optionalHeader) + SectionHeaderSize * |v.sections|)
    ensures HeadersAt(Image(s, v, optionalHeader).raw, v, optionalHeader)
    ensures ReadsBack(Image(s, v, optionalHeader).raw, v)
  {
    var h := HeadersImage(s, v, optionalHeader);
    var r := PutSections(h, v.sections).raw;
    assert Image(s, v, optionalHeader).raw == r;
    HeadersPlaced(s, v, optionalHeader);
    LoopKeepsPrefix(h, v.sections, TableOffset(v, optionalHeader) + SectionHeaderSize * |v.sections|);
    LoopKeepsHeaders(h, v, optionalHeader, r);
    HeadersReadBack(r, v, optionalHeader);
  }

  /** Where the section table starts. */
  lemma HeadersEnd(s: SinkState, v: BinaryView, optionalHeader: seq<u8>)
    requires ValidDos(v.info.dosHeader) && ValidFileHeader(v.info.header)
    ensures HeadersImage(s, v, optionalHeader).pos == TableOffset(v, optionalHeader)
  {
  }

  /** The sections of the image `build` writes for the binary `v`: the
      `k`-th entry of the section table and the `k`-th content at its file
      offset, when the contents lie past the table and apart from one
      another. */
  lemma ImageSectionPlaced(s: SinkState, v: BinaryView, optionalHeader: seq<u8>, k: nat)
    requires ValidDos(v.info.dosHeader) && ValidFileHeader(v.info.header)
    requires ContentsFrom(v.sections, TableOffset(v, optionalHeader) + SectionHeaderSize * |v.sections|)
    requires ContentsApart(v.sections)
    requires k < |v.sections|
    ensures var r := Image(s, v, optionalHeader).raw;
      && At(r, TableOffset(v, optionalHeader) + SectionHeaderSize * k, SectionRecord(v.sections[k]))
      && At(r, v.sections[k].offset as nat, v.sections[k].content)
  {
    var h := HeadersImage(s, v, optionalHeader);
    var end := TableOffset(v, optionalHeader) + SectionHeaderSize * |v.sections|;
    HeadersEnd(s, v, optionalHeader);
    SectionEntryPlaced(h, v.sections, k, end);
    SectionContentPlaced(h, v.sections, k, end);
  }
}
