/** What the two passes of the resource serializer promise about each
    other and about the bytes they leave: the planned regions are exactly
    as large as the cursors move, and every record lands where the
    directory entries say it is. */
module ResourceLayout {
  import opened Bytes
  import opened Resources

  // ---------------------------------------------------------------------
  // The plan against the cursors
  // ---------------------------------------------------------------------

  /** Every node below the root has its id flagged exactly when it has a
      name; the resource parser builds trees this way. */
  predicate WellNamed(n: ResourceNode) {
    match n
    case Data(_, _, _, _) => true
    case Directory(_, _, _, _, _, _, _, _, children) => WellNamedAll(children)
  }

  predicate WellNamedAll(cs: seq<ResourceNode>) {
    forall i :: 0 <= i < |cs| ==> (HasTopBit(cs[i].id) <==> cs[i].name != []) && WellNamed(cs[i])
  }

  /** The header region holds one entry per node (the root's included,
      though nothing writes it) plus what the cursor walks over. */
  lemma {:induction false} HeaderPlan(n: ResourceNode)
    ensures HeaderAdvance(n) + EntrySize == Plan(n).header
    decreases n, 1
  {
    match n
    case Data(_, _, _, _) =>
    case Directory(_, _, _, _, _, _, _, _, children) =>
      HeaderPlanAll(children);
  }

  lemma {:induction false} HeaderPlanAll(cs: seq<ResourceNode>)
    ensures HeaderAdvanceAll(cs) + |cs| * EntrySize == PlanAll(cs).header
    decreases cs, 0
  {
    if cs != [] {
      HeaderPlan(cs[0]);
      HeaderPlanAll(cs[1..]);
    }
  }

  /** The data region is exactly what the data cursor walks over. */
  lemma {:induction false} DataPlan(n: ResourceNode)
    ensures DataAdvance(n) == Plan(n).data
    decreases n, 1
  {
    match n
    case Data(_, _, _, _) =>
    case Directory(_, _, _, _, _, _, _, _, children) =>
      DataPlanAll(children);
  }

  lemma {:induction false} DataPlanAll(cs: seq<ResourceNode>)
    ensures DataAdvanceAll(cs) == PlanAll(cs).data
    decreases cs, 0
  {
    if cs != [] {
      DataPlan(cs[0]);
      DataPlanAll(cs[1..]);
    }
  }

  /** In a well-named tree the name cursor walks over every planned name
      but the root's own, which no one writes. */
  lemma {:induction false} NamePlan(n: ResourceNode)
    requires WellNamed(n)
    ensures NameAdvance(n) + PlannedNameSize(n) == Plan(n).name
    decreases n, 1
  {
    match n
    case Data(_, _, _, _) =>
    case Directory(_, _, _, _, _, _, _, _, children) =>
      NamePlanAll(children);
  }

  lemma {:induction false} NamePlanAll(cs: seq<ResourceNode>)
    requires WellNamedAll(cs)
    ensures NameAdvanceAll(cs) == PlanAll(cs).name
    decreases cs, 0
  {
    if cs != [] {
      assert WellNamed(cs[0]);
      assert NameCost(cs[0]) == PlannedNameSize(cs[0]);
      NamePlan(cs[0]);
      assert forall i :: 0 <= i < |cs[1..]| ==> cs[1..][i] == cs[i + 1];
      NamePlanAll(cs[1..]);
    }
  }

  /** `build_resources` starts the cursors at 0, H and H + N, over a buffer
      of at least H + N + D bytes. In a well-named tree every write stays
      in its region; afterwards the data cursor is exactly at H + N + D,
      the name cursor at most at H + N, the header cursor at H minus the
      root's unused entry, and every byte from H + N + D on is untouched. */
  lemma TopLevelBounds(root: ResourceNode, buf: seq<u8>, baseRVA: u32)
    requires WellNamed(root)
    requires Plan(root).Total() <= |buf| < Limit32
    ensures var p := Plan(root);
      var c := Cursors(0, p.header, p.header + p.name);
      && Fits(root, c, |buf|)
      && var e := EmitNode(root, buf, c, baseRVA);
         && e.at.header == p.header - EntrySize
         && e.at.name <= p.header + p.name
         && e.at.data == p.Total()
         && forall i :: p.Total() <= i < |buf| ==> e.buf[i] == buf[i]
  {
    var p := Plan(root);
    var c := Cursors(0, p.header, p.header + p.name);
    HeaderPlan(root);
    NamePlan(root);
    DataPlan(root);
    var e := EmitNode(root, buf, c, baseRVA);
    EmitNodeKept(root, buf, c, baseRVA);
    forall i | p.Total() <= i < |buf|
      ensures e.buf[i] == buf[i]
    {
      assert Outside(i, c, HeaderAdvance(root), NameAdvance(root), DataAdvance(root));
    }
  }

  // ---------------------------------------------------------------------
  // Where the records land
  // ---------------------------------------------------------------------

  /** The cursors once the first `k` of the siblings `cs` are written. */
  function CursorsAfter(cs: seq<ResourceNode>, c: Cursors, k: nat): Cursors
    requires k <= |cs|
  {
    if k == 0 then c
    else
      var next := Cursors(c.header + HeaderAdvance(cs[0]), c.name + NameCost(cs[0]) + NameAdvance(cs[0]),
                          c.data + DataAdvance(cs[0]));
      CursorsAfter(cs[1..], next, k - 1)
  }

  /** A range of bytes outside everything an emission may write keeps its
      bytes. */
  lemma KeptRange(before: seq<u8>, after: seq<u8>, slot: nat, slots: nat, c: Cursors, h: nat, m: nat, d: nat,
                  lo: nat, hi: nat)
    requires Kept(before, after, slot, slots, c, h, m, d) && lo <= hi <= |before|
    requires hi <= slot || slot + slots <= lo
    requires || hi <= c.header
             || (c.header + h <= lo && hi <= c.name)
             || (c.name + m <= lo && hi <= c.data)
             || c.data + d <= lo
    ensures after[lo..hi] == before[lo..hi]
  {
    forall i | lo <= i < hi
      ensures after[i] == before[i]
    {
      assert Outside(i, c, h, m, d);
    }
  }

  /** What a directory holds for one child, as `out` shows it: the entry
      in the slot at `entry`, carrying the child's id (rewritten to the name
      offset when flagged) and the offset of the child's own record, with
      bit 31 set for a directory; when flagged, the name record at the name
      cursor; and the rewritten id on the child the caller gets back. */
  predicate Placed(out: seq<u8>, entry: nat, child: ResourceNode, at: Cursors, written: ResourceNode) {
    && at.header < at.name < Limit32
    && entry + EntrySize <= |out|
    && out[entry..entry + EntrySize] == EntryRecord(ChildId(child, at.name), ChildRva(child, at.header))
    && written.id == ChildId(child, at.name)
    && (HasTopBit(child.id) ==> at.name + 2 + 2 * |child.name| <= |out|
                                && out[at.name..at.name + 2 + 2 * |child.name|] == NameRecord(child.name))
  }

  /** One child is placed with the cursors it starts from. */
  lemma EmitChildLayout(child: ResourceNode, slot: nat, buf: seq<u8>, c: Cursors, baseRVA: u32)
    requires |buf| < Limit32
    requires slot + EntrySize <= c.header && c.header + HeaderAdvance(child) <= c.name
    requires c.name + NameCost(child) + NameAdvance(child) <= c.data && c.data + DataAdvance(child) <= |buf|
    ensures var e := EmitChild(child, slot, buf, c, baseRVA);
      Placed(e.buf, slot, child, c, e.node)
  {
    var c1 := Cursors(c.header, c.name + NameCost(child), c.data);
    var mid := EntryAndName(child, slot, buf, c);
    ChildFits(child, c, c1, |buf|);
    var e := EmitNode(child, mid, c1, baseRVA);
    EmitChildStep(child, slot, buf, c, baseRVA, c1, mid, e);
    EmitNodeKept(child, mid, c1, baseRVA);
    EntryAndNameLayout(child, slot, buf, c, mid);
    assert HeaderAdvance(child) >= TableSize;
    PlacedAfter(mid, e.buf, slot, child, c, c1, HeaderAdvance(child), NameAdvance(child), DataAdvance(child),
                e.node.(id := ChildId(child, c.name)));
  }

  /** What `EntryAndName` writes: the entry in the slot and, for a flagged
      child, the name record at the name cursor. */
  lemma EntryAndNameLayout(child: ResourceNode, slot: nat, buf: seq<u8>, c: Cursors, mid: seq<u8>)
    requires |buf| < Limit32
    requires slot + EntrySize <= c.header <= c.name && c.name + NameCost(child) <= |buf|
    requires mid == EntryAndName(child, slot, buf, c)
    ensures mid[slot..slot + EntrySize] == EntryRecord(ChildId(child, c.name), ChildRva(child, c.header))
    ensures HasTopBit(child.id) ==> mid[c.name..c.name + 2 + 2 * |child.name|] == NameRecord(child.name)
  {
    if HasTopBit(child.id) {
      var hi := c.name + 2 + 2 * |child.name|;
      var named := Splice(buf, c.name, NameRecord(child.name));
      assert mid == Splice(named, slot, EntryRecord(ChildId(child, c.name), ChildRva(child, c.header)));
      assert mid[c.name..hi] == named[c.name..hi];
    }
  }

  /** The entry and name survive the child's own subtree, which writes
      only past them. */
  lemma PlacedAfter(mid: seq<u8>, out: seq<u8>, slot: nat, child: ResourceNode, c: Cursors, c1: Cursors,
                    h: nat, m: nat, d: nat, written: ResourceNode)
    requires c1 == Cursors(c.header, c.name + NameCost(child), c.data) && Kept(mid, out, c1.header, 0, c1, h, m, d)
    requires slot + EntrySize <= c.header < c.header + h <= c.name && c.name + NameCost(child) <= |mid| < Limit32
    requires mid[slot..slot + EntrySize] == EntryRecord(ChildId(child, c.name), ChildRva(child, c.header))
    requires HasTopBit(child.id) ==> mid[c.name..c.name + 2 + 2 * |child.name|] == NameRecord(child.name)
    requires written.id == ChildId(child, c.name)
    ensures Placed(out, slot, child, c, written)
  {
    KeptRange(mid, out, c1.header, 0, c1, h, m, d, slot, slot + EntrySize);
    if HasTopBit(child.id) {
      KeptRange(mid, out, c1.header, 0, c1, h, m, d, c.name, c.name + 2 + 2 * |child.name|);
    }
  }

  /** A placed child stays placed while later writes keep away from its
      entry and its name record. */
  lemma PlacedKept(out: seq<u8>, out': seq<u8>, entry: nat, child: ResourceNode, at: Cursors, written: ResourceNode,
                   slot: nat, slots: nat, c: Cursors, h: nat, m: nat, d: nat)
    requires Placed(out, entry, child, at, written) && Kept(out, out', slot, slots, c, h, m, d)
    requires entry + EntrySize <= slot && slot + slots <= c.header
    requires c.header + h <= at.name && at.name + NameCost(child) <= c.name
    ensures Placed(out', entry, child, at, written)
  {
    KeptRange(out, out', slot, slots, c, h, m, d, entry, entry + EntrySize);
    if HasTopBit(child.id) {
      KeptRange(out, out', slot, slots, c, h, m, d, at.name, at.name + 2 + 2 * |child.name|);
    }
  }

  /** The k-th of a run of siblings is placed in the k-th slot, with the
      cursors as they stand after the first k siblings; no later sibling
      overwrites any of it. (The emitted run is `r`, its bytes `out`; the
      k-th entry's offset, child and rewritten child are named to keep the
      induction on the siblings cheap.) */
  lemma {:induction false} EmitChildrenLayout(cs: seq<ResourceNode>, slot: nat, buf: seq<u8>, c: Cursors,
                                              baseRVA: u32, k: nat, r: EmittedAll, out: seq<u8>, entry: nat,
                                              child: ResourceNode, at: Cursors, written: ResourceNode)
    requires |buf| < Limit32 && FitsAll(cs, slot, c, |buf|) && k < |cs|
    requires r == EmitChildren(cs, slot, buf, c, baseRVA) && out == r.buf
    requires entry == slot + k * EntrySize && child == cs[k] && at == CursorsAfter(cs, c, k)
    requires written == r.children[k]
    ensures Placed(out, entry, child, at, written)
    decreases k, 1
  {
    if k == 0 {
      FirstChildLayout(cs, slot, buf, c, baseRVA, r, out, entry, child, at, written);
    } else {
      LaterChildLayout(cs, slot, buf, c, baseRVA, k, r, out, entry, child, at, written);
    }
  }

  /** The first sibling is placed by its own emission, and the later
      siblings keep away from its entry and name. */
  lemma FirstChildLayout(cs: seq<ResourceNode>, slot: nat, buf: seq<u8>, c: Cursors, baseRVA: u32,
                         r: EmittedAll, out: seq<u8>, entry: nat, child: ResourceNode, at: Cursors,
                         written: ResourceNode)
    requires |buf| < Limit32 && FitsAll(cs, slot, c, |buf|) && cs != []
    requires r == EmitChildren(cs, slot, buf, c, baseRVA) && out == r.buf
    requires entry == slot && child == cs[0] && at == c && written == r.children[0]
    ensures Placed(out, entry, child, at, written)
  {
    EmitChildrenStep(cs, slot, buf, c, baseRVA);
    FitsFirst(cs, slot, c, |buf|);
    var e := EmitChild(cs[0], slot, buf, c, baseRVA);
    var rest := EmitChildren(cs[1..], slot + EntrySize, e.buf, e.at, baseRVA);
    assert out == rest.buf && written == e.node;
    EmitChildLayout(cs[0], slot, buf, c, baseRVA);
    EmitChildrenKept(cs[1..], slot + EntrySize, e.buf, e.at, baseRVA);
    PlacedKept(e.buf, rest.buf, slot, cs[0], c, e.node, slot + EntrySize, |cs[1..]| * EntrySize, e.at,
               HeaderAdvanceAll(cs[1..]), NameAdvanceAll(cs[1..]), DataAdvanceAll(cs[1..]));
  }

  /** A later sibling is placed among the siblings after the first. */
  lemma {:induction false} LaterChildLayout(cs: seq<ResourceNode>, slot: nat, buf: seq<u8>, c: Cursors,
                                            baseRVA: u32, k: nat, r: EmittedAll, out: seq<u8>, entry: nat,
                                            child: ResourceNode, at: Cursors, written: ResourceNode)
    requires |buf| < Limit32 && FitsAll(cs, slot, c, |buf|) && 0 < k < |cs|
    requires r == EmitChildren(cs, slot, buf, c, baseRVA) && out == r.buf
    requires entry == slot + k * EntrySize && child == cs[k] && at == CursorsAfter(cs, c, k)
    requires written == r.children[k]
    ensures Placed(out, entry, child, at, written)
    decreases k, 0
  {
    EmitChildrenStep(cs, slot, buf, c, baseRVA);
    var e := EmitChild(cs[0], slot, buf, c, baseRVA);
    var rest := EmitChildren(cs[1..], slot + EntrySize, e.buf, e.at, baseRVA);
    assert out == rest.buf && written == rest.children[k - 1];
    ShiftPlaced(cs, c, e.at, k, slot);
    EmitChildrenLayout(cs[1..], slot + EntrySize, e.buf, e.at, baseRVA, k - 1, rest, out, entry, child, at, written);
  }

  /** The k-th sibling is the (k-1)-th of those after the first. */
  lemma ShiftPlaced(cs: seq<ResourceNode>, c: Cursors, next: Cursors, k: nat, slot: nat)
    requires 0 < k < |cs|
    requires next == Cursors(c.header + HeaderAdvance(cs[0]), c.name + NameCost(cs[0]) + NameAdvance(cs[0]),
                             c.data + DataAdvance(cs[0]))
    ensures CursorsAfter(cs, c, k) == CursorsAfter(cs[1..], next, k - 1)
    ensures cs[1..][k - 1] == cs[k]
    ensures slot + k * EntrySize == slot + EntrySize + (k - 1) * EntrySize
  {
  }

  // ---------------------------------------------------------------------
  // What one node leaves in the buffer
  // ---------------------------------------------------------------------

  /** A data leaf: its data entry at the header cursor, holding the RVA of
      its content (`baseRVA` plus the data cursor, as a 32-bit sum), the
      content's size, its code page and a zero Reserved word; its content at
      the data cursor, followed by one byte left as it was (zero in the
      fresh buffer); the header cursor moved by the directory-table size and
      the data cursor past the pad byte; the leaf itself unchanged. */
  lemma DataLayout(n: ResourceNode, buf: seq<u8>, c: Cursors, baseRVA: u32)
    requires |buf| < Limit32 && Fits(n, c, |buf|) && n.Data?
    ensures var e := EmitNode(n, buf, c, baseRVA);
      && e.buf[c.header..c.header + DataEntrySize]
         == LE32(Trunc32(baseRVA + c.data)) + LE32(|n.content|) + LE32(n.codePage) + LE32(0)
      && e.buf[c.data..c.data + |n.content|] == n.content
      && e.buf[c.data + |n.content|] == buf[c.data + |n.content|]
      && e.at == Cursors(c.header + TableSize, c.name, c.data + |n.content| + 1)
      && e.node == n
  {
    var record := DataEntryRecord(Trunc32(baseRVA + c.data), |n.content|, n.codePage);
    var afterEntry := Splice(buf, c.header, record);
    var out := Splice(afterEntry, c.data, n.content);
    EmitDataStep(n, buf, afterEntry, out, c, Cursors(c.header + TableSize, c.name, c.data + |n.content| + 1), baseRVA);
    SpliceKeepsSlice(afterEntry, c.data, n.content, c.header, c.header + DataEntrySize);
    assert out[c.header..c.header + DataEntrySize] == record;
  }

  /** A copy leaves a range before or after it as it was. */
  lemma SpliceKeepsSlice(buf: seq<u8>, off: nat, bytes: seq<u8>, lo: nat, hi: nat)
    requires off + |bytes| <= |buf| && lo <= hi <= |buf| && (hi <= off || off + |bytes| <= lo)
    ensures Splice(buf, off, bytes)[lo..hi] == buf[lo..hi]
  {
    var r := Splice(buf, off, bytes);
    forall i | lo <= i < hi
      ensures r[i] == buf[i]
    {
    }
  }

  /** A directory: its table at the header cursor, with its six fields as
      they are, kept while its children are written after it. */
  lemma DirectoryTableLayout(n: ResourceNode, buf: seq<u8>, c: Cursors, baseRVA: u32)
    requires |buf| < Limit32 && Fits(n, c, |buf|) && n.Directory?
    ensures var e := EmitNode(n, buf, c, baseRVA);
      && e.buf[c.header..c.header + TableSize] == TableRecord(n)
      && |e.node.children| == |n.children|
  {
    var slot := c.header + TableSize;
    var afterTable := Splice(buf, c.header, TableRecord(n));
    var start := Cursors(slot + |n.children| * EntrySize, c.name, c.data);
    DirectoryFits(n, c, |buf|, start);
    EmitDirectoryStep(n, buf, afterTable, c, start, baseRVA);
    EmitChildrenKept(n.children, slot, afterTable, start, baseRVA);
    var r := EmitChildren(n.children, slot, afterTable, start, baseRVA);
    KeptRange(afterTable, r.buf, slot, |n.children| * EntrySize, start, HeaderAdvanceAll(n.children),
              NameAdvanceAll(n.children), DataAdvanceAll(n.children), c.header, slot);
  }

  /** A directory's `k`-th child: its entry in the `k`-th slot after the
      table, pointing at the header cursor where its own record goes once
      the first `k` children are written, and its name (when flagged) at
      the name cursor as it then stands. */
  lemma DirectoryChildLayout(n: ResourceNode, buf: seq<u8>, c: Cursors, baseRVA: u32, k: nat)
    requires |buf| < Limit32 && Fits(n, c, |buf|) && n.Directory? && k < |n.children|
    ensures var e := EmitNode(n, buf, c, baseRVA);
      var start := Cursors(c.header + TableSize + |n.children| * EntrySize, c.name, c.data);
      && |e.node.children| == |n.children|
      && Placed(e.buf, c.header + TableSize + k * EntrySize, n.children[k], CursorsAfter(n.children, start, k),
                e.node.children[k])
  {
    var slot := c.header + TableSize;
    var afterTable := Splice(buf, c.header, TableRecord(n));
    var start := Cursors(slot + |n.children| * EntrySize, c.name, c.data);
    DirectoryFits(n, c, |buf|, start);
    EmitDirectoryStep(n, buf, afterTable, c, start, baseRVA);
    var r := EmitChildren(n.children, slot, afterTable, start, baseRVA);
    var e := EmitNode(n, buf, c, baseRVA);
    EmitChildrenLayout(n.children, slot, afterTable, start, baseRVA, k, r, e.buf, c.header + TableSize + k * EntrySize,
                       n.children[k], CursorsAfter(n.children, start, k), e.node.children[k]);
  }

  /** A root directory with one unnamed data leaf of three bytes: 24
      header bytes for each node (the root's entry unused), four data
      bytes, no names; serializing it moves the header cursor to 40, past
      the leaf's data entry, and the data cursor to the end of the plan. */
  lemma OneLeafTree()
    ensures var leaf := Data(1, [], [0xAA, 0xBB, 0xCC], 0);
      var root := Directory(0, [], 0, 0, 0, 0, 0, 1, [leaf]);
      && Plan(root) == Sizes(48, 4, 0)
      && HeaderAdvance(root) == 40 && NameAdvance(root) == 0 && DataAdvance(root) == 4
  {
    var leaf := Data(1, [], [0xAA, 0xBB, 0xCC], 0);
    assert PlanAll([leaf]) == Plan(leaf).Plus(PlanAll([]));
    assert HeaderAdvanceAll([leaf]) == 16 && NameAdvanceAll([leaf]) == 0 && DataAdvanceAll([leaf]) == 4;
  }
}
