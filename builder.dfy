/** The PE builder: it rebuilds the tables a `Binary` asks for (relocations,
    resources; TLS and imports are delegated) as new sections appended to
    the binary, then writes the whole image into its byte stream: the DOS
    header at 0, the file header at the signature offset the binary holds
    (`addressOfNewExeHeader`), the
    optional header, the data directories closed by an empty entry, and
    for every section its table entry at the cursor and its content at its
    file offset. */
module PEBuilder {
  import opened Bytes
  import opened Sink
  import opened Headers
  import opened Relocations
  import opened Resources
  import opened ResourceLayout
  import opened ResourceTree

  /** `DATA_DIRECTORY::RESOURCE_TABLE` and `DATA_DIRECTORY::BASE_RELOCATION_TABLE`,
      the digits in the names of the two sections the builder makes. */
  const ResourceTableIndex: nat := 2
  const BaseRelocationTableIndex: nat := 5

  /** IMAGE_SCN_CNT_INITIALIZED_DATA | IMAGE_SCN_MEM_DISCARDABLE | IMAGE_SCN_MEM_READ */
  const RelocationCharacteristics: u32 := 0x4200_0040
  /** IMAGE_SCN_CNT_INITIALIZED_DATA | IMAGE_SCN_MEM_READ */
  const ResourceCharacteristics: u32 := 0x4000_0040

  /** `".l" + std::to_string(index)` as bytes. */
  function SectionNameFor(index: nat): seq<u8>
    requires index < 10
  {
    [0x2E, 0x6C, 0x30 + index]
  }

  /** Where `Binary::add_section` puts a new section. The binary chooses
      it; the builder takes it as it comes. */
  datatype Placement = Placement(virtualAddress: u32, virtualSize: u32, size: u32, offset: u32)

  function Place(s: Section, at: Placement): Section {
    s.(virtualAddress := at.virtualAddress, virtualSize := at.virtualSize, size := at.size, offset := at.offset)
  }

  /** A section as the builder creates it: a name, characteristics and
      content, everything else zero until it is placed. */
  function NewSection(name: seq<u8>, characteristics: u32, content: seq<u8>): Section {
    Section(name, 0, 0, 0, 0, 0, 0, 0, 0, characteristics, content)
  }

  /** The parts of the binary the builder only reads. */
  datatype BinaryInfo = BinaryInfo(
    relocations: seq<RelocationBlock>,
    hasTls: bool, hasRelocations: bool, hasResources: bool, hasImports: bool,
    dosHeader: DosHeader, header: FileHeader, dataDirectories: seq<DataDirectory>,
    fileAlignment: u32)

  /** The binary as the builder sees it: the sections and the resource tree
      it changes (`None` for a null tree), and the rest. */
  datatype BinaryView = BinaryView(sections: seq<Section>, resources: Option<ResourceNode>, info: BinaryInfo)

  /** The builder's five switches. */
  datatype Flags = Flags(buildImports: bool, patchImports: bool, buildRelocations: bool,
                         buildTls: bool, buildResources: bool)

  /** What the steps done elsewhere contribute: the sections `build_tls`
      and `build_import_table` append, where `add_section` places the
      relocation and resource sections (`None` when it raises `not_found`),
      and the bytes of the optional header. */
  datatype Foreign = Foreign(tlsSections: seq<Section>, importSections: seq<Section>,
                             relocationAt: Placement, resourceAt: Option<Placement>,
                             optionalHeader: seq<u8>)

  // ---------------------------------------------------------------------
  // The rebuilding steps, stated on values
  // ---------------------------------------------------------------------

  /** The section `build_relocation` adds. */
  function RelocationSection(v: BinaryView, at: Placement): Section {
    Place(NewSection(SectionNameFor(BaseRelocationTableIndex), RelocationCharacteristics,
                     SectionContent(v.info.relocations, v.info.fileAlignment)), at)
  }

  /** What serializing the tree needs of it: below the root, a flagged id
      exactly for a named node, and the padded regions addressable in 32
      bits. */
  predicate TreeBuildable(v: BinaryView) {
    v.resources.Some? ==>
      WellNamed(v.resources.value) && Align(Plan(v.resources.value).Total(), v.info.fileAlignment) < Limit32
  }

  /** Whether `build` serializes the tree: the binary has resources and a
      tree, the switch is on, and `add_section` placed the section. */
  predicate ResourceStepRuns(v: BinaryView, f: Flags, x: Foreign) {
    v.info.hasResources && v.resources.Some? && f.buildResources && x.resourceAt.Some?
  }

  /** What the resource step needs: a buildable tree, when it runs. */
  predicate ResourcesBuildable(v: BinaryView, f: Flags, x: Foreign) {
    ResourceStepRuns(v, f, x) ==> TreeBuildable(v)
  }

  /** `build_resources` on values: a zeroed buffer of the planned size
      rounded up to the file alignment, with the three cursors at 0, H and
      H + N, serialized against the section's virtual address. */
  function BuiltResources(root: ResourceNode, fileAlignment: u32, baseRVA: u32): (e: Emitted)
    requires WellNamed(root) && Align(Plan(root).Total(), fileAlignment) < Limit32
  {
    var p := Plan(root);
    var buf := Zeros(Align(p.Total(), fileAlignment));
    ResourceBufferFits(root, fileAlignment, baseRVA);
    EmitNode(root, buf, Cursors(0, p.header, p.header + p.name), baseRVA)
  }

  /** The binary once `build_resources` has added its section at `at` and
      rewritten the tree's ids. */
  function WithResourceSection(v: BinaryView, at: Placement): BinaryView
    requires v.resources.Some? && TreeBuildable(v)
  {
    var e := BuiltResources(v.resources.value, v.info.fileAlignment, at.virtualAddress);
    var added := Place(NewSection(SectionNameFor(ResourceTableIndex), ResourceCharacteristics,
                                  Zeros(|e.buf|)), at);
    v.(sections := v.sections + [added.(content := e.buf)], resources := Some(e.node))
  }

  function TlsStep(v: BinaryView, f: Flags, x: Foreign): BinaryView {
    if v.info.hasTls && f.buildTls then v.(sections := v.sections + x.tlsSections) else v
  }

  function RelocationStep(v: BinaryView, f: Flags, x: Foreign): BinaryView {
    if v.info.hasRelocations && f.buildRelocations then v.(sections := v.sections + [RelocationSection(v, x.relocationAt)])
    else v
  }

  function ResourceStep(v: BinaryView, f: Flags, x: Foreign): BinaryView
    requires ResourcesBuildable(v, f, x)
  {
    if ResourceStepRuns(v, f, x) then
      WithResourceSection(v, x.resourceAt.value)
    else v
  }

  function ImportStep(v: BinaryView, f: Flags, x: Foreign): BinaryView {
    if v.info.hasImports && f.buildImports then v.(sections := v.sections + x.importSections) else v
  }

  /** The binary after the four steps of `build`, in the source's order. */
  function Rebuilt(v: BinaryView, f: Flags, x: Foreign): BinaryView
    requires ResourcesBuildable(v, f, x)
  {
    var v2 := RelocationStep(TlsStep(v, f, x), f, x);
    assert v2.info == v.info && v2.resources == v.resources;
    ImportStep(ResourceStep(RelocationStep(TlsStep(v, f, x), f, x), f, x), f, x)
  }

  /** `r` is `v` with sections appended and possibly another tree. */
  predicate Appends(v: BinaryView, r: BinaryView) {
    && |v.sections| <= |r.sections| && r.sections[..|v.sections|] == v.sections
    && r.info == v.info
  }

  lemma AppendsTrans(a: BinaryView, b: BinaryView, c: BinaryView)
    requires Appends(a, b) && Appends(b, c)
    ensures Appends(a, c)
  {
    assert c.sections[..|b.sections|][..|a.sections|] == c.sections[..|a.sections|];
  }

  lemma ResourceStepAppends(v: BinaryView, f: Flags, x: Foreign)
    requires ResourcesBuildable(v, f, x)
    ensures Appends(v, ResourceStep(v, f, x))
    ensures !ResourceStepRuns(v, f, x) ==> ResourceStep(v, f, x).resources == v.resources
  {
    var r := ResourceStep(v, f, x);
    assert r.sections[..|v.sections|] == v.sections;
  }

  /** Appending sections appends. */
  lemma WithSectionsAppends(v: BinaryView, added: seq<Section>)
    ensures Appends(v, v.(sections := v.sections + added))
  {
    assert (v.sections + added)[..|v.sections|] == v.sections;
  }

  /** The four steps only ever append sections: the sections already there
      stay first and in order, the tree changes only when the resource
      step runs, and the headers and directories the model holds are kept. */
  lemma RebuiltKeeps(v: BinaryView, f: Flags, x: Foreign)
    requires ResourcesBuildable(v, f, x)
    ensures Appends(v, Rebuilt(v, f, x))
    ensures !ResourceStepRuns(v, f, x) ==> Rebuilt(v, f, x).resources == v.resources
  {
    var v1 := TlsStep(v, f, x);
    var v2 := RelocationStep(v1, f, x);
    var v3 := ResourceStep(v2, f, x);
    var r := ImportStep(v3, f, x);
    WithSectionsAppends(v, x.tlsSections);
    WithSectionsAppends(v1, [RelocationSection(v1, x.relocationAt)]);
    ResourceStepAppends(v2, f, x);
    WithSectionsAppends(v3, x.importSections);
    AppendsTrans(v, v1, v2);
    AppendsTrans(v, v2, v3);
    AppendsTrans(v, v3, r);
  }

  /** With every switch off, as the constructor leaves them, the steps
      change nothing. */
  lemma NothingToBuild(v: BinaryView, x: Foreign)
    ensures Rebuilt(v, Flags(false, false, false, false, false), x) == v
  {
  }

  /** The steps add exactly the sections of the steps that run: those of
      `build_tls`, one for the relocations, one for the resources (none
      when `add_section` raises `not_found`), those of
      `build_import_table`. */
  lemma RebuiltSectionCount(v: BinaryView, f: Flags, x: Foreign)
    requires ResourcesBuildable(v, f, x)
    ensures |Rebuilt(v, f, x).sections| == |v.sections|
      + (if v.info.hasTls && f.buildTls then |x.tlsSections| else 0)
      + (if v.info.hasRelocations && f.buildRelocations then 1 else 0)
      + (if ResourceStepRuns(v, f, x) then 1 else 0)
      + (if v.info.hasImports && f.buildImports then |x.importSections| else 0)
  {
    var v1 := TlsStep(v, f, x);
    var v2 := RelocationStep(v1, f, x);
    assert v2.info == v.info && v2.resources == v.resources;
  }

  /** The relocation section comes right after the TLS sections, and is
      made from the binary's own blocks. */
  lemma RebuiltRelocationSection(v: BinaryView, f: Flags, x: Foreign)
    requires ResourcesBuildable(v, f, x)
    requires v.info.hasRelocations && f.buildRelocations
    ensures var k := |TlsStep(v, f, x).sections|;
      k < |Rebuilt(v, f, x).sections| && Rebuilt(v, f, x).sections[k] == RelocationSection(v, x.relocationAt)
  {
    var v1 := TlsStep(v, f, x);
    var v2 := RelocationStep(v1, f, x);
    var r := Rebuilt(v, f, x);
    ResourceStepAppends(v2, f, x);
    WithSectionsAppends(ResourceStep(v2, f, x), x.importSections);
    AppendsTrans(v2, ResourceStep(v2, f, x), r);
    assert r.sections[|v1.sections|] == r.sections[..|v2.sections|][|v1.sections|];
  }

  /** When the resource step runs, the section after the relocation one
      holds the tree laid out at every depth, and the binary keeps the tree
      with only its flagged ids below the root rewritten. */
  lemma RebuiltResourceSection(v: BinaryView, f: Flags, x: Foreign)
    requires ResourcesBuildable(v, f, x) && ResourceStepRuns(v, f, x)
    ensures |RelocationStep(TlsStep(v, f, x), f, x).sections| < |Rebuilt(v, f, x).sections|
    ensures HoldsTree(Rebuilt(v, f, x).sections[|RelocationStep(TlsStep(v, f, x), f, x).sections|].content,
                      v.resources.value, x.resourceAt.value.virtualAddress)
    ensures Rebuilt(v, f, x).resources.Some?
    ensures RenamedOnly(v.resources.value, Rebuilt(v, f, x).resources.value)
  {
    var v2 := RelocationStep(TlsStep(v, f, x), f, x);
    assert v2.info == v.info && v2.resources == v.resources;
    var v3 := WithResourceSection(v2, x.resourceAt.value);
    assert ResourceStep(v2, f, x) == v3;
    var r := ImportStep(v3, f, x);
    assert Rebuilt(v, f, x) == r;
    ResourceSectionLaidOut(v2, x.resourceAt.value);
    WithSectionsAppends(v3, x.importSections);
    assert r.sections[|v2.sections|] == r.sections[..|v3.sections|][|v2.sections|];
  }

  /** The relocation section: named `.l5`, placed where `add_section` put
      it, and holding the encoded blocks, which read back as the binary's
      blocks (each padded to four bytes by a zero entry), followed by zeros
      up to a multiple of the file alignment. */
  lemma RelocationSectionReadsBack(v: BinaryView, at: Placement)
    requires forall i :: 0 <= i < |v.info.relocations| ==> SizeFits(v.info.relocations[i])
    ensures var s := RelocationSection(v, at);
      var raw := RelocationBytes(v.info.relocations);
      && s.name == SectionNameFor(BaseRelocationTableIndex) && s.characteristics == RelocationCharacteristics
      && s.virtualAddress == at.virtualAddress && s.offset == at.offset && s.size == at.size
      && |raw| <= |s.content| && DecodeBlocks(s.content[..|raw|]) == Some(PaddedAll(v.info.relocations))
      && ZeroRange(s.content, |raw|, |s.content|)
      && (v.info.fileAlignment > 0 ==> |s.content| % v.info.fileAlignment as nat == 0)
  {
    SectionContentLayout(v.info.relocations, v.info.fileAlignment);
    DecodeRoundTrip(v.info.relocations);
  }

  /** The serialized tree fills a buffer as long as the planned regions
      rounded up to the file alignment, and leaves it zero past them. */
  lemma BuiltResourcesLayout(root: ResourceNode, fileAlignment: u32, baseRVA: u32)
    requires WellNamed(root) && Align(Plan(root).Total(), fileAlignment) < Limit32
    ensures var buf := BuiltResources(root, fileAlignment, baseRVA).buf;
      var total := Plan(root).Total();
      && |buf| == Align(total, fileAlignment) && total <= |buf|
      && ZeroRange(buf, total, |buf|)
      && (fileAlignment > 0 ==> |buf| % fileAlignment as nat == 0)
  {
    var total := Plan(root).Total();
    TopLevelBounds(root, Zeros(Align(total, fileAlignment)), baseRVA);
    if fileAlignment > 0 {
      AlignIsLeastMultiple(total, fileAlignment as nat);
    }
  }

  /** The resource section: one more section, named `.l2`, placed where
      `add_section` put it, holding the serialized tree. */
  lemma ResourceSectionAdded(v: BinaryView, at: Placement)
    requires v.resources.Some? && TreeBuildable(v)
    ensures var w := WithResourceSection(v, at);
      var e := BuiltResources(v.resources.value, v.info.fileAlignment, at.virtualAddress);
      && |w.sections| == |v.sections| + 1 && w.sections[..|v.sections|] == v.sections
      && w.resources == Some(e.node)
      && var s := w.sections[|v.sections|];
      && s.name == SectionNameFor(ResourceTableIndex) && s.characteristics == ResourceCharacteristics
      && s.virtualAddress == at.virtualAddress && s.offset == at.offset
      && s.content == e.buf
  {
    assert WithResourceSection(v, at).sections[..|v.sections|] == v.sections;
  }

  /** `content` holds the tree `root` laid out from offset 0, its names
      after the planned headers and its data after the names, with the data
      RVAs taken from `baseRVA`. */
  predicate HoldsTree(content: seq<u8>, root: ResourceNode, baseRVA: u32) {
    LaidOut(root, content, Cursors(0, Plan(root).header, Plan(root).header + Plan(root).name), baseRVA)
  }

  /** `kept` is `root` with only the ids of flagged nodes below the root
      rewritten. */
  predicate RenamedOnly(root: ResourceNode, kept: ResourceNode) {
    kept.id == root.id && Unnamed(kept) == Unnamed(root)
  }

  /** The resource section at every depth: its content holds the tree, and
      the binary now keeps the old tree but for the ids of its flagged
      nodes. */
  lemma ResourceSectionLaidOut(v: BinaryView, at: Placement)
    requires v.resources.Some? && TreeBuildable(v)
    ensures |WithResourceSection(v, at).sections| == |v.sections| + 1
    ensures HoldsTree(WithResourceSection(v, at).sections[|v.sections|].content, v.resources.value, at.virtualAddress)
    ensures WithResourceSection(v, at).resources.Some?
    ensures RenamedOnly(v.resources.value, WithResourceSection(v, at).resources.value)
  {
    var root := v.resources.value;
    var p := Plan(root);
    var e := BuiltResources(root, v.info.fileAlignment, at.virtualAddress);
    ResourceSectionAdded(v, at);
    BuiltResourcesLaidOut(root, v.info.fileAlignment, at.virtualAddress, p, e);
    BuiltResourcesIds(root, v.info.fileAlignment, at.virtualAddress, e);
  }

  /** `build_resources` starts from a zeroed buffer with the planned
      cursors. */
  lemma BuiltResourcesStart(root: ResourceNode, fileAlignment: u32, baseRVA: u32, p: Sizes, buf: seq<u8>, e: Emitted)
    requires WellNamed(root) && Align(Plan(root).Total(), fileAlignment) < Limit32
    requires p == Plan(root) && buf == Zeros(Align(p.Total(), fileAlignment))
    requires e == BuiltResources(root, fileAlignment, baseRVA)
    ensures Fits(root, Cursors(0, p.header, p.header + p.name), |buf|)
    ensures e == EmitNode(root, buf, Cursors(0, p.header, p.header + p.name), baseRVA)
  {
    var c := Cursors(0, p.header, p.header + p.name);
    ResourceBufferFits(root, fileAlignment, baseRVA);
    BuiltResourcesFrom(root, p, fileAlignment, baseRVA, buf, c, EmitNode(root, buf, c, baseRVA));
  }

  /** The serialized tree, laid out from the zeroed buffer. */
  lemma BuiltResourcesLaidOut(root: ResourceNode, fileAlignment: u32, baseRVA: u32, p: Sizes, e: Emitted)
    requires WellNamed(root) && Align(Plan(root).Total(), fileAlignment) < Limit32
    requires p == Plan(root) && e == BuiltResources(root, fileAlignment, baseRVA)
    ensures LaidOut(root, e.buf, Cursors(0, p.header, p.header + p.name), baseRVA)
  {
    var c := Cursors(0, p.header, p.header + p.name);
    var buf := Zeros(Align(p.Total(), fileAlignment));
    BuiltResourcesStart(root, fileAlignment, baseRVA, p, buf, e);
    assert ZeroRange(buf, c.data, c.data + DataAdvance(root));
    EmitNodeLaidOut(root, buf, c, baseRVA);
  }

  /** The tree handed back: the root's id, and the old tree but for the
      ids of the flagged nodes below it. */
  lemma BuiltResourcesIds(root: ResourceNode, fileAlignment: u32, baseRVA: u32, e: Emitted)
    requires WellNamed(root) && Align(Plan(root).Total(), fileAlignment) < Limit32
    requires e == BuiltResources(root, fileAlignment, baseRVA)
    ensures e.node.id == root.id && Unnamed(e.node) == Unnamed(root)
  {
    var p := Plan(root);
    var c := Cursors(0, p.header, p.header + p.name);
    var buf := Zeros(Align(p.Total(), fileAlignment));
    BuiltResourcesStart(root, fileAlignment, baseRVA, p, buf, e);
    EmitNodeIds(root, buf, c, baseRVA);
  }

  // ---------------------------------------------------------------------
  // The image, stated on the stream's state
  // ---------------------------------------------------------------------

  /** `operator<<(const Section&)`: the table entry at the cursor, the
      content at the section's offset, and the cursor back after the
      entry. */
  function PutSection(s: SinkState, sec: Section): (r: SinkState)
    ensures r.pos == s.pos + SectionHeaderSize
    ensures |s.raw| <= |r.raw|
  {
    var afterEntry := Put(s, SectionRecord(sec));
    Seek(Put(Seek(afterEntry, sec.offset), sec.content), afterEntry.pos)
  }

  /** The section loop of `build`. */
  function PutSections(s: SinkState, secs: seq<Section>): (r: SinkState)
    ensures r.pos == s.pos + SectionHeaderSize * |secs|
    ensures |s.raw| <= |r.raw|
  {
    if |secs| == 0 then s else PutSection(PutSections(s, secs[..|secs| - 1]), secs[|secs| - 1])
  }

  lemma PutSectionsSnoc(s: SinkState, secs: seq<Section>, i: nat)
    requires i < |secs|
    ensures PutSections(s, secs[..i + 1]) == PutSection(PutSections(s, secs[..i]), secs[i])
  {
    assert secs[..i + 1][..i] == secs[..i];
  }

  /** The stream after the first `i` directories: untouched before the
      first write, since even an empty write may grow it. */
  function DirectoriesWritten(s: SinkState, dirs: seq<DataDirectory>, i: nat): SinkState
    requires i <= |dirs|
  {
    if i == 0 then s else Put(s, DirectoryEntries(dirs[..i]))
  }

  lemma DirectoryEntriesSnoc(dirs: seq<DataDirectory>, i: nat)
    requires i < |dirs|
    ensures DirectoryEntries(dirs[..i + 1]) == DirectoryEntries(dirs[..i]) + DirectoryRecord(dirs[i])
  {
    assert dirs[..i + 1][..i] == dirs[..i];
  }

  lemma DirectoriesWrittenStep(s: SinkState, dirs: seq<DataDirectory>, i: nat, before: SinkState, after: SinkState)
    requires i < |dirs|
    requires before == DirectoriesWritten(s, dirs, i)
    requires after == Put(before, DirectoryRecord(dirs[i]))
    ensures after == DirectoriesWritten(s, dirs, i + 1)
  {
    var head := DirectoryEntries(dirs[..i]);
    var record := DirectoryRecord(dirs[i]);
    DirectoryEntriesSnoc(dirs, i);
    if i == 0 {
      assert head + record == record;
    } else {
      PutConcat(s, head, record);
    }
  }

  lemma DirectoriesWrittenEnd(s: SinkState, dirs: seq<DataDirectory>, entries: SinkState, after: SinkState)
    requires entries == DirectoriesWritten(s, dirs, |dirs|)
    requires after == Put(entries, DirectoryRecord(DataDirectory(0, 0)))
    ensures after == Put(s, DirectoryTable(dirs))
  {
    assert dirs[..|dirs|] == dirs;
    if dirs != [] {
      PutConcat(s, DirectoryEntries(dirs), DirectoryRecord(DataDirectory(0, 0)));
    }
  }

  /** Everything `build` writes before the section loop. */
  function HeadersImage(s: SinkState, v: BinaryView, optionalHeader: seq<u8>): SinkState
    requires ValidDos(v.info.dosHeader) && ValidFileHeader(v.info.header)
  {
    var dos := Put(Seek(s, 0), DosRecordAsWritten(v.info.dosHeader));
    var header := Put(Seek(dos, v.info.dosHeader.addressOfNewExeHeader),
                      FileHeaderRecord(v.info.header, Trunc16(|v.sections|)));
    Put(Put(header, optionalHeader), DirectoryTable(v.info.dataDirectories))
  }

  /** The stream once `build` has written the binary `v`. */
  function Image(s: SinkState, v: BinaryView, optionalHeader: seq<u8>): SinkState
    requires ValidDos(v.info.dosHeader) && ValidFileHeader(v.info.header)
  {
    PutSections(HeadersImage(s, v, optionalHeader), v.sections)
  }

  // ---------------------------------------------------------------------
  // The binary and the builder
  // ---------------------------------------------------------------------

  /** The tree fits the buffer `build_resources` allocates for it. */
  lemma ResourceBufferFits(root: ResourceNode, fileAlignment: u32, baseRVA: u32)
    requires WellNamed(root) && Align(Plan(root).Total(), fileAlignment) < Limit32
    ensures var p := Plan(root);
      Fits(root, Cursors(0, p.header, p.header + p.name), Align(p.Total(), fileAlignment))
  {
    var p := Plan(root);
    TopLevelBounds(root, Zeros(Align(p.Total(), fileAlignment)), baseRVA);
  }

  /** What serializing the tree into the zeroed buffer gives is
      `BuiltResources`. */
  lemma BuiltResourcesFrom(root: ResourceNode, sizes: Sizes, fileAlignment: u32, baseRVA: u32,
                           zeros: seq<u8>, c: Cursors, e: Emitted)
    requires WellNamed(root) && sizes == Plan(root) && Align(sizes.Total(), fileAlignment) < Limit32
    requires zeros == Zeros(Align(sizes.Total(), fileAlignment))
    requires c == Cursors(0, sizes.header, sizes.header + sizes.name)
    requires Fits(root, c, |zeros|) && EmitNode(root, zeros, c, baseRVA) == e
    ensures BuiltResources(root, fileAlignment, baseRVA) == e
  {
  }

  /** The middle of `build_resources`: a zeroed buffer of the planned size
      rounded up to the file alignment, and `construct_resources` on it
      with the cursors at 0, H and H + N. */
  method SerializeResources(root: ResourceNode, sizes: Sizes, fileAlignment: u32, baseRVA: u32)
    returns (content: seq<u8>, root': ResourceNode)
    requires WellNamed(root) && sizes == Plan(root) && Align(sizes.Total(), fileAlignment) < Limit32
    ensures content == BuiltResources(root, fileAlignment, baseRVA).buf
    ensures root' == BuiltResources(root, fileAlignment, baseRVA).node
  {
    var length := Align(sizes.Total(), fileAlignment);
    var buf := new u8[length](_ => 0);
    ghost var zeros := buf[..];
    assert zeros == Zeros(length);
    var c := Cursors(0, sizes.header, sizes.header + sizes.name);
    ResourceBufferFits(root, fileAlignment, baseRVA);
    var rewritten, c' := ConstructResources(root, buf, c, baseRVA);
    content := buf[..];
    BuiltResourcesFrom(root, sizes, fileAlignment, baseRVA, zeros, c, Emitted(rewritten, content, c'));
    root' := rewritten;
  }

  /** The binary the builder works on; it owns the sections and the
      resource tree the builder changes. */
  class Binary {
    var sections: seq<Section>
    var relocations: seq<RelocationBlock>
    var resources: Option<ResourceNode>
    var hasTls: bool
    var hasRelocations: bool
    var hasResources: bool
    var hasImports: bool
    var dosHeader: DosHeader
    var header: FileHeader
    var dataDirectories: seq<DataDirectory>
    var fileAlignment: u32

    function View(): BinaryView
      reads this
    {
      BinaryView(sections, resources, BinaryInfo(relocations, hasTls, hasRelocations, hasResources, hasImports,
                                                 dosHeader, header, dataDirectories, fileAlignment))
    }

    constructor (v: BinaryView)
      ensures View() == v
    {
      sections := v.sections;
      resources := v.resources;
      relocations := v.info.relocations;
      hasTls := v.info.hasTls;
      hasRelocations := v.info.hasRelocations;
      hasResources := v.info.hasResources;
      hasImports := v.info.hasImports;
      dosHeader := v.info.dosHeader;
      header := v.info.header;
      dataDirectories := v.info.dataDirectories;
      fileAlignment := v.info.fileAlignment;
    }

    /** `add_section`: the section, placed, goes after the others. */
    method AddSection(s: Section, at: Placement)
      modifies this
      ensures View() == old(View()).(sections := old(sections) + [Place(s, at)])
    {
      sections := sections + [Place(s, at)];
    }

    /** What a delegated step (`build_tls`, `build_import_table`) leaves:
        its sections after the others. */
    method AppendSections(added: seq<Section>)
      modifies this
      ensures View() == old(View()).(sections := old(sections) + added)
    {
      sections := sections + added;
    }

    /** `content(...)` on the section `add_section` returned, the last one. */
    method SetLastSectionContent(content: seq<u8>)
      requires sections != []
      modifies this
      ensures View() == old(View()).(sections := old(sections)[..|old(sections)| - 1]
                                                 + [old(sections)[|old(sections)| - 1].(content := content)])
    {
      sections := sections[..|sections| - 1] + [sections[|sections| - 1].(content := content)];
    }

    /** The tree after `construct_resources` rewrote its ids in place. */
    method SetResources(root: ResourceNode)
      modifies this
      ensures View() == old(View()).(resources := Some(root))
    {
      resources := Some(root);
    }
  }

  class Builder {
    const binary: Binary
    const ios: ByteSink
    var buildImports: bool
    var patchImports: bool
    var buildRelocations: bool
    var buildTls: bool
    var buildResources: bool

    function CurrentFlags(): Flags
      reads this
    {
      Flags(buildImports, patchImports, buildRelocations, buildTls, buildResources)
    }

    /** Every switch starts off and the stream starts empty. */
    constructor (binary: Binary)
      ensures this.binary == binary && fresh(ios)
      ensures ios.State() == SinkState([], 0)
      ensures CurrentFlags() == Flags(false, false, false, false, false)
    {
      this.binary := binary;
      ios := new ByteSink();
      buildImports := false;
      patchImports := false;
      buildRelocations := false;
      buildTls := false;
      buildResources := false;
    }

    method SetBuildImports(flag: bool)
      modifies this
      ensures CurrentFlags() == old(CurrentFlags()).(buildImports := flag)
    {
      buildImports := flag;
    }

    method SetPatchImports(flag: bool)
      modifies this
      ensures CurrentFlags() == old(CurrentFlags()).(patchImports := flag)
    {
      patchImports := flag;
    }

    method SetBuildRelocations(flag: bool)
      modifies this
      ensures CurrentFlags() == old(CurrentFlags()).(buildRelocations := flag)
    {
      buildRelocations := flag;
    }

    method SetBuildTls(flag: bool)
      modifies this
      ensures CurrentFlags() == old(CurrentFlags()).(buildTls := flag)
    {
      buildTls := flag;
    }

    method SetBuildResources(flag: bool)
      modifies this
      ensures CurrentFlags() == old(CurrentFlags()).(buildResources := flag)
    {
      buildResources := flag;
    }

    /** `build_relocation`: encodes the blocks, pads to the file alignment
        and appends the result as section `.l5`. */
    method BuildRelocation(at: Placement)
      modifies binary
      ensures binary.View() == old(binary.View()).(sections := old(binary.sections)
                                                   + [RelocationSection(old(binary.View()), at)])
    {
      var content := EncodeRelocations(binary.relocations, binary.fileAlignment);
      var section := NewSection(SectionNameFor(BaseRelocationTableIndex), RelocationCharacteristics, content);
      binary.AddSection(section, at);
    }

    /** `build_resources`: plans the three regions, appends a zeroed `.l2`
        section of their padded size, serializes the tree into a buffer of
        that size against the placed section's virtual address, and makes
        the buffer the section's content. `at` is `None` when `add_section`
        raises `not_found`, which `build` swallows: nothing changes. */
    method BuildResources(at: Option<Placement>)
      requires binary.resources.Some? && (at.Some? ==> TreeBuildable(binary.View()))
      modifies binary
      ensures binary.View() == if at.Some? then WithResourceSection(old(binary.View()), at.value)
                               else old(binary.View())
    {
      var root := binary.resources.value;
      var sizes := ComputeResourcesSize(root, Sizes(0, 0, 0));
      assert sizes == Plan(root);
      var length := Align(sizes.Total(), binary.fileAlignment);
      var section := NewSection(SectionNameFor(ResourceTableIndex), ResourceCharacteristics, Zeros(length));
      if at.None? {
        return;
      }
      ghost var v0 := binary.View();
      binary.AddSection(section, at.value);
      var content, root' := SerializeResources(root, sizes, binary.fileAlignment, at.value.virtualAddress);
      binary.SetLastSectionContent(content);
      binary.SetResources(root');
      assert binary.View() == WithResourceSection(v0, at.value);
    }

    /** `operator<<(const DosHeader&)`: the record at offset 0, with the
        signature offset cut to 16 bits. */
    method WriteDosHeader()
      requires ValidDos(binary.dosHeader)
      modifies ios
      ensures ios.State() == Put(Seek(old(ios.State()), 0), DosRecordAsWritten(binary.dosHeader))
    {
      ios.SeekP(0);
      ios.Write(DosRecordAsWritten(binary.dosHeader));
    }

    /** `operator<<(const Header&)`: at the signature offset the binary holds
        (`addressOfNewExeHeader`),
        with the current number of sections, cut to 16 bits. */
    method WriteHeader()
      requires ValidFileHeader(binary.header)
      modifies ios
      ensures ios.State() == Put(Seek(old(ios.State()), binary.dosHeader.addressOfNewExeHeader),
                                 FileHeaderRecord(binary.header, Trunc16(|binary.sections|)))
    {
      ios.SeekP(binary.dosHeader.addressOfNewExeHeader);
      ios.Write(FileHeaderRecord(binary.header, Trunc16(|binary.sections|)));
    }

    /** `operator<<(const OptionalHeader&)`: its bytes at the cursor. */
    method WriteOptionalHeader(bytes: seq<u8>)
      modifies ios
      ensures ios.State() == Put(old(ios.State()), bytes)
    {
      ios.Write(bytes);
    }

    /** `operator<<(const DataDirectory&)`: the entry at the cursor. */
    method WriteDataDirectory(d: DataDirectory)
      modifies ios
      ensures ios.State() == Put(old(ios.State()), DirectoryRecord(d))
    {
      ios.Write(DirectoryRecord(d));
    }

    /** `operator<<(const Section&)`. */
    method WriteSection(s: Section)
      modifies ios
      ensures ios.State() == PutSection(old(ios.State()), s)
    {
      ios.Write(SectionRecord(s));
      var saved := ios.TellP();
      ios.SeekP(s.offset);
      ios.Write(s.content);
      ios.SeekP(saved);
    }

    /** `build_tls`, done elsewhere: its sections after the others. */
    method BuildTls(added: seq<Section>)
      modifies binary
      ensures binary.View() == old(binary.View()).(sections := old(binary.sections) + added)
    {
      binary.AppendSections(added);
    }

    /** `build_import_table`, done elsewhere: its sections after the others. */
    method BuildImportTable(added: seq<Section>)
      modifies binary
      ensures binary.View() == old(binary.View()).(sections := old(binary.sections) + added)
    {
      binary.AppendSections(added);
    }

    /** The TLS step of `build`: only when the binary has TLS and the
        switch is on. */
    method TlsPass(x: Foreign)
      modifies binary
      ensures binary.View() == TlsStep(old(binary.View()), CurrentFlags(), x)
    {
      if binary.hasTls && buildTls {
        BuildTls(x.tlsSections);
      }
    }

    /** The relocation step of `build`. */
    method RelocationPass(x: Foreign)
      modifies binary
      ensures binary.View() == RelocationStep(old(binary.View()), CurrentFlags(), x)
    {
      if binary.hasRelocations && buildRelocations {
        BuildRelocation(x.relocationAt);
      }
    }

    /** The resource step of `build`: it also needs a tree, and swallows
        `not_found`. */
    method ResourcePass(x: Foreign)
      requires ResourcesBuildable(binary.View(), CurrentFlags(), x)
      modifies binary
      ensures binary.View() == ResourceStep(old(binary.View()), CurrentFlags(), x)
    {
      if binary.hasResources && binary.resources.Some? && buildResources {
        BuildResources(x.resourceAt);
      }
    }

    /** The import step of `build`. */
    method ImportPass(x: Foreign)
      modifies binary
      ensures binary.View() == ImportStep(old(binary.View()), CurrentFlags(), x)
    {
      if binary.hasImports && buildImports {
        BuildImportTable(x.importSections);
      }
    }

    /** The data directories of `build`: every entry, then an empty one. */
    method WriteDataDirectories()
      modifies ios
      ensures ios.State() == Put(old(ios.State()), DirectoryTable(binary.dataDirectories))
    {
      var dirs := binary.dataDirectories;
      ghost var s := ios.State();
      for i := 0 to |dirs|
        invariant ios.State() == DirectoriesWritten(s, dirs, i)
      {
        ghost var before := ios.State();
        WriteDataDirectory(dirs[i]);
        DirectoriesWrittenStep(s, dirs, i, before, ios.State());
      }
      ghost var entries := ios.State();
      WriteDataDirectory(DataDirectory(0, 0));
      DirectoriesWrittenEnd(s, dirs, entries, ios.State());
    }

    /** The section loop of `build`. */
    method WriteSections()
      modifies ios
      ensures ios.State() == PutSections(old(ios.State()), binary.sections)
    {
      var sections := binary.sections;
      ghost var s := ios.State();
      for i := 0 to |sections|
        invariant ios.State() == PutSections(s, sections[..i])
      {
        PutSectionsSnoc(s, sections, i);
        WriteSection(sections[i]);
      }
      assert sections[..|sections|] == sections;
    }

    /** The four gated steps of `build`, in the source's order. */
    method RebuildTables(x: Foreign)
      requires ResourcesBuildable(binary.View(), CurrentFlags(), x)
      modifies binary
      ensures binary.View() == Rebuilt(old(binary.View()), CurrentFlags(), x)
    {
      TlsPass(x);
      RelocationPass(x);
      ResourcePass(x);
      ImportPass(x);
    }

    /** The writing half of `build`: the headers, the data directories and
        the sections of the binary as it now is. */
    method WriteImage(optionalHeader: seq<u8>)
      requires ValidDos(binary.dosHeader) && ValidFileHeader(binary.header)
      modifies ios
      ensures ios.State() == Image(old(ios.State()), binary.View(), optionalHeader)
    {
      ghost var s0 := ios.State();
      WriteDosHeader();
      WriteHeader();
      WriteOptionalHeader(optionalHeader);
      WriteDataDirectories();
      assert ios.State() == HeadersImage(s0, binary.View(), optionalHeader);
      WriteSections();
    }

    /** `build`: the four gated steps, then the image. */
    method Build(x: Foreign)
      requires ValidDos(binary.dosHeader) && ValidFileHeader(binary.header)
      requires ResourcesBuildable(binary.View(), CurrentFlags(), x)
      modifies binary, ios
      ensures binary.View() == Rebuilt(old(binary.View()), CurrentFlags(), x)
      ensures binary.dosHeader == old(binary.dosHeader) && binary.header == old(binary.header)
      ensures ios.State() == Image(old(ios.State()), binary.View(), x.optionalHeader)
    {
      ghost var v0 := binary.View();
      RebuildTables(x);
      RebuiltKeeps(v0, CurrentFlags(), x);
      WriteImage(x.optionalHeader);
    }
  }
}
