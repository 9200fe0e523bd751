/** The fixed-size records the builder writes into the image: the MS-DOS
    header, the COFF file header, the data-directory table and the section
    table, laid out as section 3 ("Section Table") and section 2 ("Overview",
    MS-DOS stub, the signature offset at 0x3c) of the Microsoft PE/COFF
    Specification describe them, little-endian. */
module Headers {
  import opened Bytes

  const DosHeaderSize: nat := 64
  const FileHeaderSize: nat := 24
  const DataDirectorySize: nat := 8
  const SectionHeaderSize: nat := 40
  const SectionNameSize: nat := 8

  /** Offset of `AddressOfNewExeHeader` (`e_lfanew`) in the DOS header. */
  const NewExeHeaderOffset: nat := 60

  /** The DOS header: its thirty 16-bit words in record order (the fourteen
      named fields, `Reserved[4]`, `OEMid`, `OEMinfo`, `Reserved2[10]`),
      then the 32-bit offset of the PE signature. */
  datatype DosHeader = DosHeader(words: seq<u16>, addressOfNewExeHeader: u32)

  predicate ValidDos(d: DosHeader) {
    |d.words| == 30
  }

  /** The DOS header record as `operator<<(const DosHeader&)` fills it: the
      signature offset goes through a `uint16_t` cast before it is stored
      in the 32-bit field. */
  function DosRecordAsWritten(d: DosHeader): (r: seq<u8>)
    requires ValidDos(d)
    ensures |r| == DosHeaderSize
  {
    LE16s(d.words) + LE32(Trunc16(d.addressOfNewExeHeader))
  }

  /** The DOS header record with the whole 32-bit signature offset, the
      offset at which the builder then writes the file header. */
  function DosRecord(d: DosHeader): (r: seq<u8>)
    requires ValidDos(d)
    ensures |r| == DosHeaderSize
  {
    LE16s(d.words) + LE32(d.addressOfNewExeHeader)
  }

  /** A loader reading `e_lfanew` from the record finds the file header
      where the builder writes it. */
  lemma DosRecordNewHeader(d: DosHeader)
    requires ValidDos(d)
    ensures ReadLE32(DosRecord(d)[NewExeHeaderOffset..DosHeaderSize]) == d.addressOfNewExeHeader
    ensures DosRecord(d)[..NewExeHeaderOffset] == LE16s(d.words)
  {
    assert DosRecord(d)[NewExeHeaderOffset..DosHeaderSize] == LE32(d.addressOfNewExeHeader);
    LE32RoundTrip(d.addressOfNewExeHeader);
  }

  /** As written, `e_lfanew` reads back as the offset modulo 2^16, so it
      points at the file header exactly when the offset is below 2^16. */
  lemma DosRecordAsWrittenNewHeader(d: DosHeader)
    requires ValidDos(d)
    ensures ReadLE32(DosRecordAsWritten(d)[NewExeHeaderOffset..DosHeaderSize]) == d.addressOfNewExeHeader % 0x1_0000
    ensures ReadLE32(DosRecordAsWritten(d)[NewExeHeaderOffset..DosHeaderSize]) == d.addressOfNewExeHeader
            <==> d.addressOfNewExeHeader < 0x1_0000
  {
    assert DosRecordAsWritten(d)[NewExeHeaderOffset..DosHeaderSize] == LE32(Trunc16(d.addressOfNewExeHeader));
    LE32RoundTrip(Trunc16(d.addressOfNewExeHeader));
  }

  /** An image whose file header sits at 0x10000: the DOS header as
      written sends a loader to offset 0. */
  lemma DosRecordAsWrittenLosesOffset()
    ensures var d := DosHeader(seq(30, _ => 0), 0x1_0000);
      && ReadLE32(DosRecordAsWritten(d)[NewExeHeaderOffset..DosHeaderSize]) == 0
      && ReadLE32(DosRecord(d)[NewExeHeaderOffset..DosHeaderSize]) == 0x1_0000
  {
    var d := DosHeader(seq(30, _ => 0), 0x1_0000);
    DosRecordAsWrittenNewHeader(d);
    DosRecordNewHeader(d);
  }

  /** The COFF file header's fields besides `NumberOfSections`, which the
      builder takes from the section list. */
  datatype FileHeader = FileHeader(signature: seq<u8>, machine: u16, timeDateStamp: u32,
                                   pointerToSymbolTable: u32, numberOfSymbols: u32,
                                   sizeOfOptionalHeader: u16, characteristics: u16)

  predicate ValidFileHeader(h: FileHeader) {
    |h.signature| == 4
  }

  /** The signature followed by the file header, as
      `operator<<(const Header&)` fills it. */
  function FileHeaderRecord(h: FileHeader, numberOfSections: u16): (r: seq<u8>)
    requires ValidFileHeader(h)
    ensures |r| == FileHeaderSize
  {
    h.signature + LE16(h.machine) + LE16(numberOfSections) + LE32(h.timeDateStamp)
    + LE32(h.pointerToSymbolTable) + LE32(h.numberOfSymbols) + LE16(h.sizeOfOptionalHeader)
    + LE16(h.characteristics)
  }

  /** The record reads back as the signature, the machine and the section
      count it was given. */
  lemma FileHeaderFields(h: FileHeader, numberOfSections: u16)
    requires ValidFileHeader(h)
    ensures var r := FileHeaderRecord(h, numberOfSections);
      && r[..4] == h.signature
      && ReadLE16(r[4..6]) == h.machine
      && ReadLE16(r[6..8]) == numberOfSections
      && ReadLE32(r[8..12]) == h.timeDateStamp
  {
    var r := FileHeaderRecord(h, numberOfSections);
    assert r[4..6] == LE16(h.machine);
    assert r[6..8] == LE16(numberOfSections);
    assert r[8..12] == LE32(h.timeDateStamp);
    LE16RoundTrip(h.machine);
    LE16RoundTrip(numberOfSections);
    LE32RoundTrip(h.timeDateStamp);
  }

  /** One data-directory entry: {RVA, Size}. */
  datatype DataDirectory = DataDirectory(rva: u32, size: u32)

  function DirectoryRecord(d: DataDirectory): (r: seq<u8>)
    ensures |r| == DataDirectorySize
  {
    LE32(d.rva) + LE32(d.size)
  }

  /** The entries in order. */
  function DirectoryEntries(dirs: seq<DataDirectory>): (r: seq<u8>)
    ensures |r| == DataDirectorySize * |dirs|
  {
    if dirs == [] then [] else DirectoryEntries(dirs[..|dirs| - 1]) + DirectoryRecord(dirs[|dirs| - 1])
  }

  /** What the builder writes for the data directories: every entry, then
      one {0, 0} entry. */
  function DirectoryTable(dirs: seq<DataDirectory>): (r: seq<u8>) {
    DirectoryEntries(dirs) + DirectoryRecord(DataDirectory(0, 0))
  }

  /** The table has one entry more than the directories; entry `k` reads
      back as the `k`-th directory, and the last entry is all zeros. */
  lemma DirectoryTableLayout(dirs: seq<DataDirectory>, k: nat)
    requires k < |dirs|
    ensures var t := DirectoryTable(dirs);
      && |t| == DataDirectorySize * (|dirs| + 1)
      && ReadLE32(t[DataDirectorySize * k..DataDirectorySize * k + 4]) == dirs[k].rva
      && ReadLE32(t[DataDirectorySize * k + 4..DataDirectorySize * k + 8]) == dirs[k].size
      && ZeroRange(t, DataDirectorySize * |dirs|, |t|)
  {
    var t := DirectoryTable(dirs);
    DirectoryEntryAt(dirs, k);
    assert t[DataDirectorySize * k..DataDirectorySize * k + 8] == DirectoryEntries(dirs)[DataDirectorySize * k..DataDirectorySize * k + 8];
    var e := DirectoryRecord(dirs[k]);
    assert t[DataDirectorySize * k..DataDirectorySize * k + 4] == e[..4] == LE32(dirs[k].rva);
    assert t[DataDirectorySize * k + 4..DataDirectorySize * k + 8] == e[4..] == LE32(dirs[k].size);
    LE32RoundTrip(dirs[k].rva);
    LE32RoundTrip(dirs[k].size);
  }

  /** Entry `k` of the entries is the `k`-th directory's record. */
  lemma {:induction false} DirectoryEntryAt(dirs: seq<DataDirectory>, k: nat)
    requires k < |dirs|
    ensures DirectoryEntries(dirs)[DataDirectorySize * k..DataDirectorySize * k + 8] == DirectoryRecord(dirs[k])
  {
    var init := dirs[..|dirs| - 1];
    if k < |dirs| - 1 {
      DirectoryEntryAt(init, k);
      assert init[k] == dirs[k];
    }
  }

  /** A section as the builder sees it. Its `offset` is both the header's
      `PointerToRawData` and where its content is written. */
  datatype Section = Section(name: seq<u8>, virtualSize: u32, virtualAddress: u32, size: u32, offset: u32,
                             pointerToRelocations: u32, pointerToLineNumbers: u32,
                             numberOfRelocations: u16, numberOfLineNumbers: u16,
                             characteristics: u32, content: seq<u8>)

  /** The 8-byte `Name` field: the name's bytes, then its terminating NUL
      when shorter than eight bytes; what follows the terminator is read
      past the end of the name and is taken as zero here. */
  function NameField(name: seq<u8>): (r: seq<u8>)
    ensures |r| == SectionNameSize
    ensures forall i :: 0 <= i < |name| && i < SectionNameSize ==> r[i] == name[i]
    ensures |name| < SectionNameSize ==> r[|name|] == 0
  {
    if |name| >= SectionNameSize then name[..SectionNameSize] else name + Zeros(SectionNameSize - |name|)
  }

  /** A section-table entry, as `operator<<(const Section&)` fills it. */
  function SectionRecord(s: Section): (r: seq<u8>)
    ensures |r| == SectionHeaderSize
  {
    NameField(s.name) + LE32(s.virtualSize) + LE32(s.virtualAddress) + LE32(s.size) + LE32(s.offset)
    + LE32(s.pointerToRelocations) + LE32(s.pointerToLineNumbers) + LE16(s.numberOfRelocations)
    + LE16(s.numberOfLineNumbers) + LE32(s.characteristics)
  }

  /** The entry reads back as the section's placement, size and
      characteristics. */
  lemma SectionRecordFields(s: Section)
    ensures var r := SectionRecord(s);
      && ReadLE32(r[8..12]) == s.virtualSize
      && ReadLE32(r[12..16]) == s.virtualAddress
      && ReadLE32(r[16..20]) == s.size
      && ReadLE32(r[20..24]) == s.offset
      && ReadLE32(r[36..40]) == s.characteristics
  {
    var r := SectionRecord(s);
    assert r[8..12] == LE32(s.virtualSize);
    assert r[12..16] == LE32(s.virtualAddress);
    assert r[16..20] == LE32(s.size);
    assert r[20..24] == LE32(s.offset);
    assert r[36..40] == LE32(s.characteristics);
    LE32RoundTrip(s.virtualSize);
    LE32RoundTrip(s.virtualAddress);
    LE32RoundTrip(s.size);
    LE32RoundTrip(s.offset);
    LE32RoundTrip(s.characteristics);
  }
}
