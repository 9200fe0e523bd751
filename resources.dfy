/** The resource-tree serializer of the PE builder: a tree of resource
    directories and data leaves becomes the raw bytes of a `.rsrc`-style
    section, in the format of section 6.9 of the Microsoft PE/COFF
    Specification (6.9.1 directory table, 6.9.2 directory entries, 6.9.3
    directory strings, 6.9.4 data entries).

    It works in two passes. `Plan` (`compute_resources_size`) sums the sizes
    of three regions: header, names, data. `ConstructResources`
    (`construct_resources`) then walks the tree in pre-order and writes
    through three running cursors, one per region, into a zeroed buffer
    holding the three regions back to back. `EmitNode` states on sequences
    what that method does to the buffer. */
module Resources {
  import opened Bytes

  /** `STRUCT_SIZES::ResourceDirectoryTableSize`: Characteristics,
      TimeDateStamp (4 bytes each), four 2-byte fields. */
  const TableSize: nat := 16
  /** `STRUCT_SIZES::ResourceDirectoryEntriesSize`: NameID and RVA. */
  const EntrySize: nat := 8
  /** `STRUCT_SIZES::ResourceDataEntrySize`: DataRVA, Size, Codepage,
      Reserved. */
  const DataEntrySize: nat := 16

  const Limit32: nat := 0x1_0000_0000

  /** A resource node. Every node has an id, whose top bit marks a named
      node, and a name (UTF-16 code units, empty when unnamed). Directories
      keep their children in the given order, and the two entry counts
      exactly as stored, not recomputed. */
  datatype ResourceNode =
    | Directory(id: u32, name: seq<u16>,
                characteristics: u32, timeDateStamp: u32,
                majorVersion: u16, minorVersion: u16,
                numberOfNameEntries: u16, numberOfIdEntries: u16,
                children: seq<ResourceNode>)
    | Data(id: u32, name: seq<u16>, content: seq<u8>, codePage: u32)

  // ---------------------------------------------------------------------
  // On-disk records
  // ---------------------------------------------------------------------

  /** The directory table (section 6.9.1), its six fields copied from the
      node. */
  function TableRecord(d: ResourceNode): (r: seq<u8>)
    requires d.Directory?
    ensures |r| == TableSize
  {
    LE32(d.characteristics) + LE32(d.timeDateStamp) + LE16(d.majorVersion) + LE16(d.minorVersion)
      + LE16(d.numberOfNameEntries) + LE16(d.numberOfIdEntries)
  }

  /** A directory entry (section 6.9.2): NameID, then the offset of the
      child's own record, with bit 31 set when that record is a table. */
  function EntryRecord(nameId: u32, rva: u32): (r: seq<u8>)
    ensures |r| == EntrySize
  {
    LE32(nameId) + LE32(rva)
  }

  /** A data entry (section 6.9.4), Reserved left zero. */
  function DataEntryRecord(dataRva: u32, size: u32, codePage: u32): (r: seq<u8>)
    ensures |r| == DataEntrySize
  {
    LE32(dataRva) + LE32(size) + LE32(codePage) + LE32(0)
  }

  /** A directory string (section 6.9.3): a 16-bit length in code units,
      then the units. */
  function NameRecord(name: seq<u16>): (r: seq<u8>)
    ensures |r| == 2 + 2 * |name|
  {
    LE16(Trunc16(|name|)) + LE16s(name)
  }

  // ---------------------------------------------------------------------
  // First pass: the planned region sizes
  // ---------------------------------------------------------------------

  datatype Sizes = Sizes(header: nat, data: nat, name: nat) {
    function Total(): nat { header + name + data }
    function Plus(other: Sizes): Sizes {
      Sizes(header + other.header, data + other.data, name + other.name)
    }
  }

  /** The name-region bytes the planner counts for a node: the length
      prefix, the units and one extra byte, when the name is not empty. */
  function PlannedNameSize(n: ResourceNode): nat {
    if n.name != [] then 2 + 2 * |n.name| + 1 else 0
  }

  /** What `compute_resources_size` adds for one node, before its children:
      an entry for every node (the root included), a table for a directory,
      a data entry plus the content and one pad byte for a leaf. */
  function OwnSizes(n: ResourceNode): Sizes {
    match n
    case Directory(_, _, _, _, _, _, _, _, _) =>
      Sizes(TableSize + EntrySize, 0, PlannedNameSize(n))
    case Data(_, _, content, _) =>
      Sizes(DataEntrySize + EntrySize, |content| + 1, PlannedNameSize(n))
  }

  /** `compute_resources_size`: a pre-order fold of `OwnSizes`. */
  function Plan(n: ResourceNode): Sizes {
    match n
    case Data(_, _, _, _) => OwnSizes(n)
    case Directory(_, _, _, _, _, _, _, _, children) => OwnSizes(n).Plus(PlanAll(children))
  }

  function PlanAll(cs: seq<ResourceNode>): Sizes {
    if cs == [] then Sizes(0, 0, 0) else Plan(cs[0]).Plus(PlanAll(cs[1..]))
  }

  /** `compute_resources_size`: adds the node's own sizes to the three
      running totals, then recurses into its children in order; the totals
      grow by exactly the subtree's plan. */
  method ComputeResourcesSize(node: ResourceNode, acc: Sizes) returns (acc': Sizes)
    ensures acc' == acc.Plus(Plan(node))
    decreases node
  {
    acc' := acc.Plus(OwnSizes(node));
    if node.Directory? {
      var children := node.children;
      for i := 0 to |children|
        invariant acc' == acc.Plus(OwnSizes(node)).Plus(PlanAll(children[..i]))
      {
        PlanAllSnoc(children, i);
        acc' := ComputeResourcesSize(children[i], acc');
      }
      assert children[..|children|] == children;
    }
  }

  /** The plan of the first `i + 1` siblings adds the `i`-th to that of the
      first `i`. */
  lemma {:induction false} PlanAllSnoc(cs: seq<ResourceNode>, i: nat)
    requires i < |cs|
    ensures forall a: Sizes :: a.Plus(PlanAll(cs[..i])).Plus(Plan(cs[i])) == a.Plus(PlanAll(cs[..i + 1]))
  {
    if i > 0 {
      PlanAllSnoc(cs[1..], i - 1);
      assert cs[1..][..i - 1] == cs[..i][1..];
      assert cs[1..][..i] == cs[..i + 1][1..];
    }
  }

  // ---------------------------------------------------------------------
  // Second pass: how far each subtree moves the three cursors
  // ---------------------------------------------------------------------

  datatype Cursors = Cursors(header: nat, name: nat, data: nat)

  /** A directory advances the header cursor past its table and its entry
      array, then its children advance it further; a data leaf advances it
      by the directory-table size (not the data-entry size). */
  function HeaderAdvance(n: ResourceNode): nat {
    match n
    case Data(_, _, _, _) => TableSize
    case Directory(_, _, _, _, _, _, _, _, children) =>
      TableSize + |children| * EntrySize + HeaderAdvanceAll(children)
  }

  function HeaderAdvanceAll(cs: seq<ResourceNode>): nat {
    if cs == [] then 0 else HeaderAdvance(cs[0]) + HeaderAdvanceAll(cs[1..])
  }

  /** The name cursor moves when a child whose id has the top bit set has
      its name written: by the record plus one byte. The node's own name is
      written by its parent, never by itself. */
  function NameCost(child: ResourceNode): nat {
    if HasTopBit(child.id) then 2 * |child.name| + 2 + 1 else 0
  }

  function NameAdvance(n: ResourceNode): nat {
    match n
    case Data(_, _, _, _) => 0
    case Directory(_, _, _, _, _, _, _, _, children) => NameAdvanceAll(children)
  }

  function NameAdvanceAll(cs: seq<ResourceNode>): nat {
    if cs == [] then 0 else NameCost(cs[0]) + NameAdvance(cs[0]) + NameAdvanceAll(cs[1..])
  }

  /** Each data leaf moves the data cursor past its content and one pad
      byte. */
  function DataAdvance(n: ResourceNode): nat {
    match n
    case Data(_, _, content, _) => |content| + 1
    case Directory(_, _, _, _, _, _, _, _, children) => DataAdvanceAll(children)
  }

  function DataAdvanceAll(cs: seq<ResourceNode>): nat {
    if cs == [] then 0 else DataAdvance(cs[0]) + DataAdvanceAll(cs[1..])
  }

  /** The three regions a subtree writes, in order and inside the buffer:
      header range below the name cursor, name range below the data
      cursor. */
  predicate Fits(n: ResourceNode, c: Cursors, len: nat) {
    && c.header + HeaderAdvance(n) <= c.name
    && c.name + NameAdvance(n) <= c.data
    && c.data + DataAdvance(n) <= len
  }

  /** The same for a run of siblings whose entries go in the slots from
      `slot` on, all below the header cursor. */
  predicate FitsAll(cs: seq<ResourceNode>, slot: nat, c: Cursors, len: nat) {
    && slot + |cs| * EntrySize <= c.header
    && c.header + HeaderAdvanceAll(cs) <= c.name
    && c.name + NameAdvanceAll(cs) <= c.data
    && c.data + DataAdvanceAll(cs) <= len
  }

  /** Byte `i` lies outside the three ranges `[c.header, c.header + h)`,
      `[c.name, c.name + m)` and `[c.data, c.data + d)`. */
  predicate Outside(i: int, c: Cursors, h: nat, m: nat, d: nat) {
    || i < c.header
    || c.header + h <= i < c.name
    || c.name + m <= i < c.data
    || c.data + d <= i
  }

  /** `after` has the length of `before` and the same bytes outside the
      slot range `[slot, slot + slots)` and the three cursor ranges. */
  predicate Kept(before: seq<u8>, after: seq<u8>, slot: nat, slots: nat, c: Cursors, h: nat, m: nat, d: nat) {
    && |after| == |before|
    && forall i {:trigger after[i]} :: 0 <= i < |before| && (i < slot || slot + slots <= i) && Outside(i, c, h, m, d)
                   ==> after[i] == before[i]
  }

  // ---------------------------------------------------------------------
  // Second pass, stated on sequences
  // ---------------------------------------------------------------------

  datatype Emitted = Emitted(node: ResourceNode, buf: seq<u8>, at: Cursors)
  datatype EmittedAll = EmittedAll(children: seq<ResourceNode>, buf: seq<u8>, at: Cursors)

  /** The bytes `construct_resources` writes for one subtree, the cursors it
      leaves, and the subtree with its named children's ids rewritten. */
  function EmitNode(n: ResourceNode, buf: seq<u8>, c: Cursors, baseRVA: u32): (e: Emitted)
    requires |buf| < Limit32 && Fits(n, c, |buf|)
    ensures |e.buf| == |buf|
    ensures e.at == Cursors(c.header + HeaderAdvance(n), c.name + NameAdvance(n), c.data + DataAdvance(n))
    decreases n, 0
  {
    match n
    case Data(_, _, content, codePage) =>
      var record := DataEntryRecord(Trunc32(baseRVA + c.data), |content|, codePage);
      var b := Splice(Splice(buf, c.header, record), c.data, content);
      Emitted(n, b, Cursors(c.header + TableSize, c.name, c.data + |content| + 1))
    case Directory(_, _, _, _, _, _, _, _, children) =>
      var slot := c.header + TableSize;
      var r := EmitChildren(children, slot, Splice(buf, c.header, TableRecord(n)),
                            Cursors(slot + |children| * EntrySize, c.name, c.data), baseRVA);
      Emitted(n.(children := r.children), r.buf, r.at)
  }

  /** The loop over a directory's children, one child after the other. */
  function EmitChildren(cs: seq<ResourceNode>, slot: nat, buf: seq<u8>, c: Cursors, baseRVA: u32): (r: EmittedAll)
    requires |buf| < Limit32 && FitsAll(cs, slot, c, |buf|)
    ensures |r.buf| == |buf| && |r.children| == |cs|
    ensures r.at == Cursors(c.header + HeaderAdvanceAll(cs), c.name + NameAdvanceAll(cs), c.data + DataAdvanceAll(cs))
    decreases cs
  {
    if cs == [] then EmittedAll([], buf, c)
    else
      var e := EmitChild(cs[0], slot, buf, c, baseRVA);
      var rest := EmitChildren(cs[1..], slot + EntrySize, e.buf, e.at, baseRVA);
      EmittedAll([e.node] + rest.children, rest.buf, rest.at)
  }

  /** One pass of that loop: the child's name (when its id is flagged) at
      the name cursor, its entry in the slot, then its whole subtree; the
      child comes back with its id rewritten to the name's offset. */
  function EmitChild(child: ResourceNode, slot: nat, buf: seq<u8>, c: Cursors, baseRVA: u32): (e: Emitted)
    requires |buf| < Limit32
    requires slot + EntrySize <= c.header && c.header + HeaderAdvance(child) <= c.name
    requires c.name + NameCost(child) + NameAdvance(child) <= c.data && c.data + DataAdvance(child) <= |buf|
    ensures |e.buf| == |buf|
    ensures e.at == Cursors(c.header + HeaderAdvance(child), c.name + NameCost(child) + NameAdvance(child),
                            c.data + DataAdvance(child))
    decreases child, 1
  {
    var id := ChildId(child, c.name);
    var c1 := Cursors(c.header, c.name + NameCost(child), c.data);
    var mid := EntryAndName(child, slot, buf, c);
    var e := EmitNode(child, mid, c1, baseRVA);
    Emitted(e.node.(id := id), e.buf, e.at)
  }

  /** The id a child's entry carries: `0x80000000 | nameOffset` when its id
      is flagged, its own id otherwise. */
  function ChildId(child: ResourceNode, nameOffset: u32): (id: u32)
    ensures HasTopBit(id) == HasTopBit(child.id)
  {
    if HasTopBit(child.id) then SetTopBit(nameOffset) else child.id
  }

  /** The entry's second word: the header cursor where the child's own
      record goes, with bit 31 set when the child is a directory. */
  function ChildRva(child: ResourceNode, headerOffset: u32): (rva: u32)
    ensures HasTopBit(rva) <==> child.Directory? || HasTopBit(headerOffset)
  {
    if child.Directory? then SetTopBit(headerOffset) else headerOffset
  }

  /** The name record (when the child's id is flagged) and the entry of one
      child; nothing else changes. */
  function EntryAndName(child: ResourceNode, slot: nat, buf: seq<u8>, c: Cursors): (b: seq<u8>)
    requires |buf| < Limit32
    requires slot + EntrySize <= c.header <= c.name && c.name + NameCost(child) <= |buf|
    ensures |b| == |buf|
    ensures forall i :: 0 <= i < |buf| && (i < slot || slot + EntrySize <= i)
                          && (i < c.name || c.name + NameCost(child) <= i)
                        ==> b[i] == buf[i]
  {
    var named := if HasTopBit(child.id) then Splice(buf, c.name, NameRecord(child.name)) else buf;
    Splice(named, slot, EntryRecord(ChildId(child, c.name), ChildRva(child, c.header)))
  }

  lemma EmitChildFrame(child: ResourceNode, slot: nat, buf: seq<u8>, mid: seq<u8>, out: seq<u8>, c: Cursors)
    requires |mid| == |buf| && |out| == |buf|
    requires slot + EntrySize <= c.header <= c.name && c.name + NameCost(child) <= c.data
    requires forall i :: 0 <= i < |buf| && (i < slot || slot + EntrySize <= i)
                          && (i < c.name || c.name + NameCost(child) <= i)
                        ==> mid[i] == buf[i]
    requires Kept(mid, out, c.header, 0, Cursors(c.header, c.name + NameCost(child), c.data),
                  HeaderAdvance(child), NameAdvance(child), DataAdvance(child))
    ensures Kept(buf, out, slot, EntrySize, c, HeaderAdvance(child), NameCost(child) + NameAdvance(child), DataAdvance(child))
  {
    var c1 := Cursors(c.header, c.name + NameCost(child), c.data);
    forall i | 0 <= i < |buf| && (i < slot || slot + EntrySize <= i)
               && Outside(i, c, HeaderAdvance(child), NameCost(child) + NameAdvance(child), DataAdvance(child))
      ensures out[i] == buf[i]
    {
      assert Outside(i, c1, HeaderAdvance(child), NameAdvance(child), DataAdvance(child));
      assert i < c.name || c.name + NameCost(child) <= i;
    }
  }

  lemma EmitChildrenFrame(cs: seq<ResourceNode>, slot: nat, buf: seq<u8>, mid: seq<u8>, out: seq<u8>, c: Cursors,
                          next: Cursors)
    requires cs != [] && FitsAll(cs, slot, c, |buf|)
    requires next == Cursors(c.header + HeaderAdvance(cs[0]), c.name + NameCost(cs[0]) + NameAdvance(cs[0]),
                             c.data + DataAdvance(cs[0]))
    requires Kept(buf, mid, slot, EntrySize, c, HeaderAdvance(cs[0]), NameCost(cs[0]) + NameAdvance(cs[0]), DataAdvance(cs[0]))
    requires Kept(mid, out, slot + EntrySize, |cs[1..]| * EntrySize, next,
                  HeaderAdvanceAll(cs[1..]), NameAdvanceAll(cs[1..]), DataAdvanceAll(cs[1..]))
    ensures Kept(buf, out, slot, |cs| * EntrySize, c, HeaderAdvanceAll(cs), NameAdvanceAll(cs), DataAdvanceAll(cs))
  {
    forall i | 0 <= i < |buf| && (i < slot || slot + |cs| * EntrySize <= i)
               && Outside(i, c, HeaderAdvanceAll(cs), NameAdvanceAll(cs), DataAdvanceAll(cs))
      ensures out[i] == buf[i]
    {
      assert Outside(i, c, HeaderAdvance(cs[0]), NameCost(cs[0]) + NameAdvance(cs[0]), DataAdvance(cs[0]));
      assert Outside(i, next, HeaderAdvanceAll(cs[1..]), NameAdvanceAll(cs[1..]), DataAdvanceAll(cs[1..]));
    }
  }

  /** Every byte a subtree's emission writes lies in the three ranges the
      cursors sweep over. */
  lemma {:induction false} EmitNodeKept(n: ResourceNode, buf: seq<u8>, c: Cursors, baseRVA: u32)
    requires |buf| < Limit32 && Fits(n, c, |buf|)
    ensures Kept(buf, EmitNode(n, buf, c, baseRVA).buf, c.header, 0, c, HeaderAdvance(n), NameAdvance(n), DataAdvance(n))
    decreases n, 0
  {
    match n
    case Data(_, _, content, codePage) =>
      var record := DataEntryRecord(Trunc32(baseRVA + c.data), |content|, codePage);
      var afterEntry := Splice(buf, c.header, record);
      var out := Splice(afterEntry, c.data, content);
      EmitDataStep(n, buf, afterEntry, out, c, Cursors(c.header + TableSize, c.name, c.data + |content| + 1), baseRVA);
      DataFrame(buf, record, content, afterEntry, out, c);
    case Directory(_, _, _, _, _, _, _, _, children) =>
      var slot := c.header + TableSize;
      var afterTable := Splice(buf, c.header, TableRecord(n));
      var start := Cursors(slot + |children| * EntrySize, c.name, c.data);
      DirectoryFits(n, c, |buf|, start);
      EmitDirectoryStep(n, buf, afterTable, c, start, baseRVA);
      var r := EmitChildren(children, slot, afterTable, start, baseRVA);
      EmitChildrenKept(children, slot, afterTable, start, baseRVA);
      DirectoryFrame(n, buf, afterTable, r.buf, c);
  }

  /** The same for one child, its entry slot and its name included. */
  lemma {:induction false} EmitChildKept(child: ResourceNode, slot: nat, buf: seq<u8>, c: Cursors, baseRVA: u32)
    requires |buf| < Limit32
    requires slot + EntrySize <= c.header && c.header + HeaderAdvance(child) <= c.name
    requires c.name + NameCost(child) + NameAdvance(child) <= c.data && c.data + DataAdvance(child) <= |buf|
    ensures Kept(buf, EmitChild(child, slot, buf, c, baseRVA).buf, slot, EntrySize, c,
                 HeaderAdvance(child), NameCost(child) + NameAdvance(child), DataAdvance(child))
    decreases child, 1
  {
    var c1 := Cursors(c.header, c.name + NameCost(child), c.data);
    var mid := EntryAndName(child, slot, buf, c);
    ChildFits(child, c, c1, |buf|);
    EmitChildStep(child, slot, buf, c, baseRVA, c1, mid, EmitNode(child, mid, c1, baseRVA));
    EmitNodeKept(child, mid, c1, baseRVA);
    EmitChildFrame(child, slot, buf, mid, EmitNode(child, mid, c1, baseRVA).buf, c);
  }

  /** The same for a run of siblings, their entry slots included. */
  lemma {:induction false} EmitChildrenKept(cs: seq<ResourceNode>, slot: nat, buf: seq<u8>, c: Cursors, baseRVA: u32)
    requires |buf| < Limit32 && FitsAll(cs, slot, c, |buf|)
    ensures Kept(buf, EmitChildren(cs, slot, buf, c, baseRVA).buf, slot, |cs| * EntrySize, c,
                 HeaderAdvanceAll(cs), NameAdvanceAll(cs), DataAdvanceAll(cs))
    decreases cs
  {
    if cs != [] {
      EmitChildrenStep(cs, slot, buf, c, baseRVA);
      FitsFirst(cs, slot, c, |buf|);
      var e := EmitChild(cs[0], slot, buf, c, baseRVA);
      var rest := EmitChildren(cs[1..], slot + EntrySize, e.buf, e.at, baseRVA);
      EmitChildKept(cs[0], slot, buf, c, baseRVA);
      EmitChildrenKept(cs[1..], slot + EntrySize, e.buf, e.at, baseRVA);
      EmitChildrenFrame(cs, slot, buf, e.buf, rest.buf, c, e.at);
    }
  }

  /** A data leaf writes its data entry at the header cursor and its content
      at the data cursor. */
  lemma DataFrame(buf: seq<u8>, record: seq<u8>, content: seq<u8>, afterEntry: seq<u8>, out: seq<u8>, c: Cursors)
    requires |record| == TableSize && c.header + TableSize <= c.name <= c.data && c.data + |content| + 1 <= |buf|
    requires afterEntry == Splice(buf, c.header, record) && out == Splice(afterEntry, c.data, content)
    ensures Kept(buf, out, c.header, 0, c, TableSize, 0, |content| + 1)
  {
  }

  /** A directory writes its table at the header cursor, then its
      children's entries and subtrees. */
  lemma DirectoryFrame(n: ResourceNode, buf: seq<u8>, afterTable: seq<u8>, out: seq<u8>, c: Cursors)
    requires n.Directory? && Fits(n, c, |buf|)
    requires afterTable == Splice(buf, c.header, TableRecord(n))
    requires Kept(afterTable, out, c.header + TableSize, |n.children| * EntrySize,
                  Cursors(c.header + TableSize + |n.children| * EntrySize, c.name, c.data),
                  HeaderAdvanceAll(n.children), NameAdvanceAll(n.children), DataAdvanceAll(n.children))
    ensures Kept(buf, out, c.header, 0, c, HeaderAdvance(n), NameAdvance(n), DataAdvance(n))
  {
    var start := Cursors(c.header + TableSize + |n.children| * EntrySize, c.name, c.data);
    assert HeaderAdvance(n) == TableSize + |n.children| * EntrySize + HeaderAdvanceAll(n.children);
    assert NameAdvance(n) == NameAdvanceAll(n.children) && DataAdvance(n) == DataAdvanceAll(n.children);
    forall i | 0 <= i < |buf| && Outside(i, c, HeaderAdvance(n), NameAdvance(n), DataAdvance(n))
      ensures out[i] == buf[i]
    {
      assert Outside(i, start, HeaderAdvanceAll(n.children), NameAdvanceAll(n.children), DataAdvanceAll(n.children));
      assert afterTable[i] == buf[i];
    }
  }

  // ---------------------------------------------------------------------
  // Second pass, on the buffer itself
  // ---------------------------------------------------------------------

  /** `std::copy` of `bytes` into `buf` at `off`. */
  method CopyInto(buf: array<u8>, off: nat, bytes: seq<u8>)
    requires off + |bytes| <= buf.Length
    modifies buf
    ensures buf[..] == Splice(old(buf[..]), off, bytes)
  {
    for k := 0 to |bytes|
      invariant forall i :: 0 <= i < buf.Length ==>
                  buf[i] == if off <= i < off + k then bytes[i - off] else old(buf[i])
    {
      buf[off + k] := bytes[k];
    }
    assert buf[..] == Splice(old(buf[..]), off, bytes);
  }

  /** `construct_resources`: writes the subtree rooted at `node` into `buf`
      through the three cursors `c`, and returns the advanced cursors and
      the subtree whose flagged children now carry their name offsets as
      ids (the source rewrites `child->id_` in place). */
  method ConstructResources(node: ResourceNode, buf: array<u8>, c: Cursors, baseRVA: u32)
    returns (node': ResourceNode, c': Cursors)
    requires buf.Length < Limit32 && Fits(node, c, buf.Length)
    modifies buf
    ensures EmitNode(node, old(buf[..]), c, baseRVA) == Emitted(node', buf[..], c')
    decreases node, 0
  {
    match node
    case Data(_, _, content, codePage) =>
      ghost var before := buf[..];
      CopyInto(buf, c.header, DataEntryRecord(Trunc32(baseRVA + c.data), |content|, codePage));
      ghost var afterEntry := buf[..];
      CopyInto(buf, c.data, content);
      node' := node;
      c' := Cursors(c.header + TableSize, c.name, c.data + |content| + 1);
      EmitDataStep(node, before, afterEntry, buf[..], c, c', baseRVA);
    case Directory(_, _, _, _, _, _, _, _, children) =>
      ghost var before := buf[..];
      CopyInto(buf, c.header, TableRecord(node));
      var slot := c.header + TableSize;
      var start := Cursors(slot + |children| * EntrySize, c.name, c.data);
      DirectoryFits(node, c, buf.Length, start);
      EmitDirectoryStep(node, before, buf[..], c, start, baseRVA);
      var done;
      done, c' := ConstructChildren(children, buf, slot, start, baseRVA);
      node' := node.(children := done);
      assert WithChildren(node, EmittedAll(done, buf[..], c')) == Emitted(node', buf[..], c');
  }

  /** The loop over a directory's children in `construct_resources`; its
      entry slots start at `slot`, right after the directory's table, and
      its subtrees start at the header cursor `at.header`, right after the
      last slot. */
  method ConstructChildren(children: seq<ResourceNode>, buf: array<u8>, slot: nat, at: Cursors, baseRVA: u32)
    returns (done: seq<ResourceNode>, at': Cursors)
    requires buf.Length < Limit32 && FitsAll(children, slot, at, buf.Length)
    modifies buf
    ensures EmitChildren(children, slot, old(buf[..]), at, baseRVA) == EmittedAll(done, buf[..], at')
    decreases children, 2
  {
    ghost var whole := EmitChildren(children, slot, buf[..], at, baseRVA);
    var current: nat := slot;
    at' := at;
    done := [];
    ChildrenLoopStart(children, slot, buf[..], at, baseRVA, whole);
    for k := 0 to |children|
      invariant FitsAll(children[k..], current, at', buf.Length)
      invariant whole == Prepend(done, EmitChildren(children[k..], current, buf[..], at', baseRVA))
    {
      var written, next := ConstructNextChild(children, k, buf, current, at', baseRVA, whole, done);
      done := done + [written];
      current := current + EntrySize;
      at' := next;
    }
    ChildrenLoopEnd(whole, done, children[|children|..], current, buf[..], at', baseRVA);
  }

  /** The loop over the children starts with none of them finished. */
  lemma ChildrenLoopStart(children: seq<ResourceNode>, slot: nat, buf: seq<u8>, at: Cursors, baseRVA: u32,
                          whole: EmittedAll)
    requires |buf| < Limit32 && FitsAll(children, slot, at, |buf|)
    requires whole == EmitChildren(children, slot, buf, at, baseRVA)
    ensures FitsAll(children[0..], slot, at, |buf|)
    ensures whole == Prepend([], EmitChildren(children[0..], slot, buf, at, baseRVA))
  {
    assert children[0..] == children;
  }

  /** The body of that loop: the `k`-th child joins the finished ones. */
  method ConstructNextChild(children: seq<ResourceNode>, k: nat, buf: array<u8>, current: nat, at: Cursors,
                            baseRVA: u32, ghost whole: EmittedAll, ghost done: seq<ResourceNode>)
    returns (written: ResourceNode, next: Cursors)
    requires buf.Length < Limit32 && k < |children| && FitsAll(children[k..], current, at, buf.Length)
    requires whole == Prepend(done, EmitChildren(children[k..], current, buf[..], at, baseRVA))
    modifies buf
    ensures FitsAll(children[k + 1..], current + EntrySize, next, buf.Length)
    ensures whole == Prepend(done + [written], EmitChildren(children[k + 1..], current + EntrySize, buf[..], next, baseRVA))
    decreases children, 1
  {
    ghost var b := buf[..];
    FitsFirst(children[k..], current, at, |b|);
    assert children[k..][0] == children[k];
    written, next := ConstructChild(children[k], buf, current, at, baseRVA);
    ChildrenLoopStep(whole, done, done + [written], children[k..], children[k + 1..], current, current + EntrySize,
                     b, at, written, buf[..], next, baseRVA);
  }

  /** One pass of the loop over the children in `construct_resources`. */
  method ConstructChild(child: ResourceNode, buf: array<u8>, slot: nat, at: Cursors, baseRVA: u32)
    returns (child': ResourceNode, at': Cursors)
    requires buf.Length < Limit32
    requires slot + EntrySize <= at.header && at.header + HeaderAdvance(child) <= at.name
    requires at.name + NameCost(child) + NameAdvance(child) <= at.data && at.data + DataAdvance(child) <= buf.Length
    modifies buf
    ensures EmitChild(child, slot, old(buf[..]), at, baseRVA) == Emitted(child', buf[..], at')
    decreases child, 1
  {
    ghost var before := buf[..];
    var id, name := WriteEntryAndName(child, buf, slot, at);
    var c1 := Cursors(at.header, name, at.data);
    ghost var mid := buf[..];
    ChildFits(child, at, c1, buf.Length);
    EmitChildStep(child, slot, before, at, baseRVA, c1, mid, EmitNode(child, mid, c1, baseRVA));
    var written;
    written, at' := ConstructResources(child, buf, c1, baseRVA);
    child' := written.(id := id);
  }

  /** The first half of that pass: a flagged child's name goes at the name
      cursor, with the child's id rewritten to the name's offset, then its
      entry goes in the slot. Returns the id and the advanced name cursor. */
  method WriteEntryAndName(child: ResourceNode, buf: array<u8>, slot: nat, at: Cursors)
    returns (id: u32, name: nat)
    requires buf.Length < Limit32
    requires slot + EntrySize <= at.header <= at.name && at.name + NameCost(child) <= buf.Length
    modifies buf
    ensures buf[..] == EntryAndName(child, slot, old(buf[..]), at)
    ensures id == ChildId(child, at.name) && name == at.name + NameCost(child)
  {
    ghost var before := buf[..];
    id := child.id;
    name := at.name;
    if HasTopBit(child.id) {
      id := SetTopBit(at.name);
      CopyInto(buf, name, LE16(Trunc16(|child.name|)));
      CopyInto(buf, name + 2, LE16s(child.name));
      SpliceConcat(before, name, LE16(Trunc16(|child.name|)), LE16s(child.name));
      assert buf[..] == Splice(before, at.name, NameRecord(child.name));
      name := name + 2 * |child.name| + 2 + 1;
    }
    ghost var named := buf[..];
    assert named == if HasTopBit(child.id) then Splice(before, at.name, NameRecord(child.name)) else before;
    var rva := if child.Directory? then SetTopBit(at.header) else at.header;
    CopyInto(buf, slot, EntryRecord(id, rva));
    assert id == ChildId(child, at.name) && rva == ChildRva(child, at.header);
  }

  /** One unfolding of `EmitNode` on a data leaf. */
  lemma EmitDataStep(n: ResourceNode, buf: seq<u8>, afterEntry: seq<u8>, afterContent: seq<u8>, c: Cursors,
                     c': Cursors, baseRVA: u32)
    requires |buf| < Limit32 && Fits(n, c, |buf|) && n.Data?
    requires afterEntry == Splice(buf, c.header, DataEntryRecord(Trunc32(baseRVA + c.data), |n.content|, n.codePage))
    requires afterContent == Splice(afterEntry, c.data, n.content)
    requires c' == Cursors(c.header + TableSize, c.name, c.data + |n.content| + 1)
    ensures EmitNode(n, buf, c, baseRVA) == Emitted(n, afterContent, c')
  {
  }

  /** One unfolding of `EmitNode` on a directory. */
  lemma EmitDirectoryStep(n: ResourceNode, buf: seq<u8>, afterTable: seq<u8>, c: Cursors, start: Cursors, baseRVA: u32)
    requires |buf| < Limit32 && Fits(n, c, |buf|) && n.Directory?
    requires afterTable == Splice(buf, c.header, TableRecord(n))
    requires start == Cursors(c.header + TableSize + |n.children| * EntrySize, c.name, c.data)
    requires FitsAll(n.children, c.header + TableSize, start, |afterTable|)
    ensures EmitNode(n, buf, c, baseRVA)
            == WithChildren(n, EmitChildren(n.children, c.header + TableSize, afterTable, start, baseRVA))
  {
    match n
    case Directory(_, _, _, _, _, _, _, _, children) =>
      assert children == n.children;
  }

  /** A directory's budget covers its children, their entries past its
      table. */
  lemma DirectoryFits(n: ResourceNode, c: Cursors, len: nat, start: Cursors)
    requires Fits(n, c, len) && n.Directory?
    requires start == Cursors(c.header + TableSize + |n.children| * EntrySize, c.name, c.data)
    ensures FitsAll(n.children, c.header + TableSize, start, len)
  {
  }

  /** A directory after its children were emitted. */
  function WithChildren(n: ResourceNode, r: EmittedAll): Emitted
    requires n.Directory?
  {
    Emitted(n.(children := r.children), r.buf, r.at)
  }

  /** A child's budget, once its name is paid for, covers its subtree. */
  lemma ChildFits(child: ResourceNode, c: Cursors, c1: Cursors, len: nat)
    requires c.header + HeaderAdvance(child) <= c.name
    requires c.name + NameCost(child) + NameAdvance(child) <= c.data && c.data + DataAdvance(child) <= len
    requires c1 == Cursors(c.header, c.name + NameCost(child), c.data)
    ensures Fits(child, c1, len)
  {
  }

  /** One unfolding of `EmitChild`: its subtree is emitted over the bytes
      `mid` that hold its entry and name, from the cursors `c1` past the
      name. */
  lemma EmitChildStep(child: ResourceNode, slot: nat, buf: seq<u8>, c: Cursors, baseRVA: u32,
                      c1: Cursors, mid: seq<u8>, e: Emitted)
    requires |buf| < Limit32
    requires slot + EntrySize <= c.header && c.header + HeaderAdvance(child) <= c.name
    requires c.name + NameCost(child) + NameAdvance(child) <= c.data && c.data + DataAdvance(child) <= |buf|
    requires c1 == Cursors(c.header, c.name + NameCost(child), c.data) && Fits(child, c1, |buf|)
    requires mid == EntryAndName(child, slot, buf, c)
    requires e == EmitNode(child, mid, c1, baseRVA)
    ensures EmitChild(child, slot, buf, c, baseRVA) == Emitted(e.node.(id := ChildId(child, c.name)), e.buf, e.at)
  {
    var r := EmitChild(child, slot, buf, c, baseRVA);
    assert r.buf == e.buf && r.node == e.node.(id := ChildId(child, c.name));
  }

  /** One unfolding of `EmitChildren`. */
  lemma EmitChildrenStep(cs: seq<ResourceNode>, slot: nat, buf: seq<u8>, c: Cursors, baseRVA: u32)
    requires |buf| < Limit32 && FitsAll(cs, slot, c, |buf|) && cs != []
    ensures var e := EmitChild(cs[0], slot, buf, c, baseRVA);
      && FitsAll(cs[1..], slot + EntrySize, e.at, |buf|)
      && EmitChildren(cs, slot, buf, c, baseRVA)
         == Prepend([e.node], EmitChildren(cs[1..], slot + EntrySize, e.buf, e.at, baseRVA))
  {
  }

  /** The siblings' budget covers the first of them. */
  lemma FitsFirst(cs: seq<ResourceNode>, slot: nat, c: Cursors, len: nat)
    requires FitsAll(cs, slot, c, len) && cs != []
    ensures slot + EntrySize <= c.header && c.header + HeaderAdvance(cs[0]) <= c.name
    ensures c.name + NameCost(cs[0]) + NameAdvance(cs[0]) <= c.data && c.data + DataAdvance(cs[0]) <= len
  {
  }

  /** The loop over the children keeps its invariant: once the first of
      the remaining children is emitted, it joins the finished ones. */
  lemma ChildrenLoopStep(whole: EmittedAll, done: seq<ResourceNode>, done': seq<ResourceNode>,
                         cs: seq<ResourceNode>, rest: seq<ResourceNode>, slot: nat, slot': nat,
                         buf: seq<u8>, c: Cursors, written: ResourceNode, buf': seq<u8>, next: Cursors,
                         baseRVA: u32)
    requires |buf| < Limit32 && FitsAll(cs, slot, c, |buf|) && cs != [] && rest == cs[1..]
    requires done' == done + [written] && slot' == slot + EntrySize
    requires whole == Prepend(done, EmitChildren(cs, slot, buf, c, baseRVA))
    requires EmitChild(cs[0], slot, buf, c, baseRVA) == Emitted(written, buf', next)
    ensures |buf'| == |buf| && FitsAll(rest, slot', next, |buf'|)
    ensures whole == Prepend(done', EmitChildren(rest, slot', buf', next, baseRVA))
  {
    EmitChildrenStep(cs, slot, buf, c, baseRVA);
    PrependTwice(done, written, EmitChildren(rest, slot', buf', next, baseRVA));
  }

  /** The loop over the children ends with every child finished. */
  lemma ChildrenLoopEnd(whole: EmittedAll, done: seq<ResourceNode>, cs: seq<ResourceNode>, slot: nat,
                        buf: seq<u8>, c: Cursors, baseRVA: u32)
    requires |buf| < Limit32 && FitsAll(cs, slot, c, |buf|) && cs == []
    requires whole == Prepend(done, EmitChildren(cs, slot, buf, c, baseRVA))
    ensures whole == EmittedAll(done, buf, c)
  {
    assert done + [] == done;
  }

  lemma PrependTwice(done: seq<ResourceNode>, child: ResourceNode, r: EmittedAll)
    ensures Prepend(done, Prepend([child], r)) == Prepend(done + [child], r)
  {
    assert done + ([child] + r.children) == (done + [child]) + r.children;
  }

  /** The siblings `done` already written, in front of the rest. */
  function Prepend(done: seq<ResourceNode>, r: EmittedAll): EmittedAll {
    EmittedAll(done + r.children, r.buf, r.at)
  }
}
