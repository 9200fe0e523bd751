/** The serialized resource tree at every depth, as a reader of the section
    finds it: every directory's table at its header offset, every entry
    pointing at its child's own record (a table when bit 31 is set, a data
    entry otherwise) and naming its child's name record when flagged, every
    data entry giving the RVA and size of its content, and the content there
    followed by one zero byte; and the tree `construct_resources` hands back,
    equal to the one it was given but for the ids of the flagged children. */
module ResourceTree {
  import opened Bytes
  import opened Resources
  import opened ResourceLayout

  /** The cursors once `child`, its name and its subtree are written. */
  function After(child: ResourceNode, c: Cursors): Cursors {
    Cursors(c.header + HeaderAdvance(child), c.name + NameCost(child) + NameAdvance(child),
            c.data + DataAdvance(child))
  }

  /** Byte `i` lies in the slot range `[slot, slot + slots)` or in one of the
      three cursor ranges. */
  predicate Covered(i: int, slot: nat, slots: nat, c: Cursors, h: nat, m: nat, d: nat) {
    || slot <= i < slot + slots
    || c.header <= i < c.header + h
    || c.name <= i < c.name + m
    || c.data <= i < c.data + d
  }

  /** `b` has the length of `a` and the same bytes in the covered ranges. */
  predicate Agree(a: seq<u8>, b: seq<u8>, slot: nat, slots: nat, c: Cursors, h: nat, m: nat, d: nat) {
    && |b| == |a|
    && forall i {:trigger b[i]} :: 0 <= i < |a| && Covered(i, slot, slots, c, h, m, d) ==> b[i] == a[i]
  }

  // ---------------------------------------------------------------------
  // The tree laid out in a buffer
  // ---------------------------------------------------------------------

  /** Subtree `n` laid out in `out` from the cursors `c`: a data leaf's data
      entry at the header cursor, with the RVA `baseRVA + c.data` of its
      content, its size and code page, and the content at the data cursor
      followed by a zero byte; a directory's table at the header cursor and
      its children laid out from the slots after it. */
  predicate LaidOut(n: ResourceNode, out: seq<u8>, c: Cursors, baseRVA: u32)
    decreases n, 0
  {
    && |out| < Limit32
    && (match n
        case Data(_, _, content, codePage) =>
          && c.header + DataEntrySize <= |out| && c.data + |content| < |out|
          && out[c.header..c.header + DataEntrySize]
             == DataEntryRecord(Trunc32(baseRVA + c.data), |content|, codePage)
          && out[c.data..c.data + |content|] == content
          && out[c.data + |content|] == 0
        case Directory(_, _, _, _, _, _, _, _, children) =>
          && c.header + TableSize <= |out|
          && out[c.header..c.header + TableSize] == TableRecord(n)
          && ChildrenLaidOut(children, out, c.header + TableSize,
                             Cursors(c.header + TableSize + |children| * EntrySize, c.name, c.data), baseRVA))
  }

  /** Siblings laid out one after the other, their entries in the slots from
      `slot` on. */
  predicate ChildrenLaidOut(cs: seq<ResourceNode>, out: seq<u8>, slot: nat, c: Cursors, baseRVA: u32)
    decreases cs
  {
    cs != [] ==>
      && ChildLaidOut(cs[0], out, slot, c, baseRVA)
      && ChildrenLaidOut(cs[1..], out, slot + EntrySize, After(cs[0], c), baseRVA)
  }

  /** One child: its entry in the slot, naming its rewritten id and the
      offset of its own record; its name record when flagged; its subtree
      from the cursors past that name. */
  predicate ChildLaidOut(child: ResourceNode, out: seq<u8>, slot: nat, c: Cursors, baseRVA: u32)
    decreases child, 1
  {
    && c.header < Limit32 && c.name < Limit32
    && slot + EntrySize <= |out|
    && out[slot..slot + EntrySize] == EntryRecord(ChildId(child, c.name), ChildRva(child, c.header))
    && (HasTopBit(child.id) ==> c.name + 2 + 2 * |child.name| <= |out|
                                && out[c.name..c.name + 2 + 2 * |child.name|] == NameRecord(child.name))
    && LaidOut(child, out, Cursors(c.header, c.name + NameCost(child), c.data), baseRVA)
  }

  // ---------------------------------------------------------------------
  // Emission lays the tree out
  // ---------------------------------------------------------------------

  /** `construct_resources` lays out the subtree it writes, given that the
      data range it sweeps is still zero. */
  lemma {:induction false} EmitNodeLaidOut(n: ResourceNode, buf: seq<u8>, c: Cursors, baseRVA: u32)
    requires |buf| < Limit32 && Fits(n, c, |buf|)
    requires ZeroRange(buf, c.data, c.data + DataAdvance(n))
    ensures LaidOut(n, EmitNode(n, buf, c, baseRVA).buf, c, baseRVA)
    decreases n, 0
  {
    match n
    case Data(_, _, _, _) =>
      DataLaidOut(n, buf, c, baseRVA);
    case Directory(_, _, _, _, _, _, _, _, children) =>
      var slot := c.header + TableSize;
      var afterTable := Splice(buf, c.header, TableRecord(n));
      var start := Cursors(slot + |children| * EntrySize, c.name, c.data);
      DirectoryFits(n, c, |buf|, start);
      ZerosAfterTable(n, buf, c, afterTable, start);
      EmitChildrenLaidOut(children, slot, afterTable, start, baseRVA);
      DirectoryLaidOut(n, buf, c, baseRVA, afterTable, start);
  }

  /** A data leaf is laid out by its emission. */
  lemma DataLaidOut(n: ResourceNode, buf: seq<u8>, c: Cursors, baseRVA: u32)
    requires |buf| < Limit32 && Fits(n, c, |buf|) && n.Data?
    requires ZeroRange(buf, c.data, c.data + DataAdvance(n))
    ensures LaidOut(n, EmitNode(n, buf, c, baseRVA).buf, c, baseRVA)
  {
    DataLayout(n, buf, c, baseRVA);
    assert buf[c.data + |n.content|] == 0;
  }

  /** Writing a directory's table leaves its children's data range zero. */
  lemma ZerosAfterTable(n: ResourceNode, buf: seq<u8>, c: Cursors, afterTable: seq<u8>, start: Cursors)
    requires |buf| < Limit32 && Fits(n, c, |buf|) && n.Directory?
    requires ZeroRange(buf, c.data, c.data + DataAdvance(n))
    requires afterTable == Splice(buf, c.header, TableRecord(n))
    requires start == Cursors(c.header + TableSize + |n.children| * EntrySize, c.name, c.data)
    ensures start.data + DataAdvanceAll(n.children) <= |afterTable|
    ensures ZeroRange(afterTable, start.data, start.data + DataAdvanceAll(n.children))
  {
    forall i | start.data <= i < start.data + DataAdvanceAll(n.children)
      ensures afterTable[i] == 0
    {
      assert buf[i] == 0;
    }
  }

  /** A directory whose children are laid out after its table is laid out
      by its emission. */
  lemma DirectoryLaidOut(n: ResourceNode, buf: seq<u8>, c: Cursors, baseRVA: u32, afterTable: seq<u8>, start: Cursors)
    requires |buf| < Limit32 && Fits(n, c, |buf|) && n.Directory?
    requires afterTable == Splice(buf, c.header, TableRecord(n))
    requires start == Cursors(c.header + TableSize + |n.children| * EntrySize, c.name, c.data)
    requires FitsAll(n.children, c.header + TableSize, start, |afterTable|)
    requires ChildrenLaidOut(n.children, EmitChildren(n.children, c.header + TableSize, afterTable, start, baseRVA).buf,
                             c.header + TableSize, start, baseRVA)
    ensures LaidOut(n, EmitNode(n, buf, c, baseRVA).buf, c, baseRVA)
  {
    EmitDirectoryStep(n, buf, afterTable, c, start, baseRVA);
    DirectoryTableLayout(n, buf, c, baseRVA);
  }

  /** The loop over the children lays out every one of them. */
  lemma {:induction false} EmitChildrenLaidOut(cs: seq<ResourceNode>, slot: nat, buf: seq<u8>, c: Cursors,
                                               baseRVA: u32)
    requires |buf| < Limit32 && FitsAll(cs, slot, c, |buf|)
    requires ZeroRange(buf, c.data, c.data + DataAdvanceAll(cs))
    ensures ChildrenLaidOut(cs, EmitChildren(cs, slot, buf, c, baseRVA).buf, slot, c, baseRVA)
    decreases cs, 1
  {
    if cs != [] {
      var e := EmitChild(cs[0], slot, buf, c, baseRVA);
      FirstChildLaidOut(cs, slot, buf, c, baseRVA);
      EmitChildrenLaidOut(cs[1..], slot + EntrySize, e.buf, e.at, baseRVA);
      ChildrenLaidOutStep(cs, slot, buf, c, baseRVA, e);
    }
  }

  /** The first child is laid out, and the data range of the later ones is
      still zero. */
  lemma {:induction false} FirstChildLaidOut(cs: seq<ResourceNode>, slot: nat, buf: seq<u8>, c: Cursors, baseRVA: u32)
    requires |buf| < Limit32 && FitsAll(cs, slot, c, |buf|) && cs != []
    requires ZeroRange(buf, c.data, c.data + DataAdvanceAll(cs))
    ensures var e := EmitChild(cs[0], slot, buf, c, baseRVA);
      && e.at == After(cs[0], c) && FitsAll(cs[1..], slot + EntrySize, e.at, |e.buf|)
      && ChildLaidOut(cs[0], e.buf, slot, c, baseRVA)
      && ZeroRange(e.buf, e.at.data, e.at.data + DataAdvanceAll(cs[1..]))
    decreases cs, 0
  {
    EmitChildrenStep(cs, slot, buf, c, baseRVA);
    FitsFirst(cs, slot, c, |buf|);
    var e := EmitChild(cs[0], slot, buf, c, baseRVA);
    EmitChildLaidOut(cs[0], slot, buf, c, baseRVA);
    EmitChildKept(cs[0], slot, buf, c, baseRVA);
    ZerosAfterChild(cs, slot, buf, c, e.buf, e.at);
  }

  /** The later siblings keep the first one laid out, so the whole run is
      laid out. */
  lemma ChildrenLaidOutStep(cs: seq<ResourceNode>, slot: nat, buf: seq<u8>, c: Cursors, baseRVA: u32, e: Emitted)
    requires |buf| < Limit32 && FitsAll(cs, slot, c, |buf|) && cs != []
    requires e == EmitChild(cs[0], slot, buf, c, baseRVA) && e.at == After(cs[0], c)
    requires FitsAll(cs[1..], slot + EntrySize, e.at, |e.buf|)
    requires ChildLaidOut(cs[0], e.buf, slot, c, baseRVA)
    requires ChildrenLaidOut(cs[1..], EmitChildren(cs[1..], slot + EntrySize, e.buf, e.at, baseRVA).buf,
                             slot + EntrySize, e.at, baseRVA)
    ensures ChildrenLaidOut(cs, EmitChildren(cs, slot, buf, c, baseRVA).buf, slot, c, baseRVA)
  {
    EmitChildrenStep(cs, slot, buf, c, baseRVA);
    var rest := EmitChildren(cs[1..], slot + EntrySize, e.buf, e.at, baseRVA);
    assert EmitChildren(cs, slot, buf, c, baseRVA).buf == rest.buf;
    FirstStaysLaidOut(cs, slot, c, baseRVA, e.buf, e.at);
    ChildrenLaidOutCons(cs, rest.buf, slot, c, e.at, baseRVA);
  }

  /** The later siblings keep the first one laid out. */
  lemma FirstStaysLaidOut(cs: seq<ResourceNode>, slot: nat, c: Cursors, baseRVA: u32, out: seq<u8>, next: Cursors)
    requires cs != [] && |out| < Limit32 && FitsAll(cs, slot, c, |out|) && next == After(cs[0], c)
    requires FitsAll(cs[1..], slot + EntrySize, next, |out|)
    requires ChildLaidOut(cs[0], out, slot, c, baseRVA)
    ensures ChildLaidOut(cs[0], EmitChildren(cs[1..], slot + EntrySize, out, next, baseRVA).buf, slot, c, baseRVA)
  {
    var rest := EmitChildren(cs[1..], slot + EntrySize, out, next, baseRVA);
    assert HeaderAdvanceAll(cs) == HeaderAdvance(cs[0]) + HeaderAdvanceAll(cs[1..]);
    assert NameAdvanceAll(cs) == NameCost(cs[0]) + NameAdvance(cs[0]) + NameAdvanceAll(cs[1..]);
    EmitChildrenKept(cs[1..], slot + EntrySize, out, next, baseRVA);
    KeptAgree(out, rest.buf, slot + EntrySize, |cs[1..]| * EntrySize, next, HeaderAdvanceAll(cs[1..]),
              NameAdvanceAll(cs[1..]), DataAdvanceAll(cs[1..]),
              slot, EntrySize, c, HeaderAdvance(cs[0]), NameCost(cs[0]) + NameAdvance(cs[0]), DataAdvance(cs[0]));
    ChildLaidOutFrame(cs[0], out, rest.buf, slot, c, baseRVA);
  }

  /** One unfolding of `ChildrenLaidOut`. */
  lemma ChildrenLaidOutCons(cs: seq<ResourceNode>, out: seq<u8>, slot: nat, c: Cursors, next: Cursors, baseRVA: u32)
    requires cs != [] && next == After(cs[0], c)
    requires ChildLaidOut(cs[0], out, slot, c, baseRVA)
    requires ChildrenLaidOut(cs[1..], out, slot + EntrySize, next, baseRVA)
    ensures ChildrenLaidOut(cs, out, slot, c, baseRVA)
  {
  }

  /** The data range left to the later siblings is still zero once the
      first one is written. */
  lemma ZerosAfterChild(cs: seq<ResourceNode>, slot: nat, buf: seq<u8>, c: Cursors, out: seq<u8>, next: Cursors)
    requires cs != [] && slot + EntrySize <= c.header <= c.name <= c.data && c.data + DataAdvanceAll(cs) <= |buf|
    requires ZeroRange(buf, c.data, c.data + DataAdvanceAll(cs)) && next == After(cs[0], c)
    requires Kept(buf, out, slot, EntrySize, c, HeaderAdvance(cs[0]), NameCost(cs[0]) + NameAdvance(cs[0]),
                  DataAdvance(cs[0]))
    ensures ZeroRange(out, next.data, next.data + DataAdvanceAll(cs[1..]))
  {
    assert DataAdvanceAll(cs) == DataAdvance(cs[0]) + DataAdvanceAll(cs[1..]);
    forall i | next.data <= i < next.data + DataAdvanceAll(cs[1..])
      ensures out[i] == 0
    {
      assert Outside(i, c, HeaderAdvance(cs[0]), NameCost(cs[0]) + NameAdvance(cs[0]), DataAdvance(cs[0]));
      assert buf[i] == 0;
    }
  }

  /** One child is laid out by its pass of the loop. */
  lemma {:induction false} EmitChildLaidOut(child: ResourceNode, slot: nat, buf: seq<u8>, c: Cursors, baseRVA: u32)
    requires |buf| < Limit32
    requires slot + EntrySize <= c.header && c.header + HeaderAdvance(child) <= c.name
    requires c.name + NameCost(child) + NameAdvance(child) <= c.data && c.data + DataAdvance(child) <= |buf|
    requires ZeroRange(buf, c.data, c.data + DataAdvance(child))
    ensures ChildLaidOut(child, EmitChild(child, slot, buf, c, baseRVA).buf, slot, c, baseRVA)
    decreases child, 1
  {
    var c1 := Cursors(c.header, c.name + NameCost(child), c.data);
    var mid := EntryAndName(child, slot, buf, c);
    ChildFits(child, c, c1, |buf|);
    var e := EmitNode(child, mid, c1, baseRVA);
    EmitChildStep(child, slot, buf, c, baseRVA, c1, mid, e);
    assert ZeroRange(mid, c1.data, c1.data + DataAdvance(child)) by {
      forall i | c1.data <= i < c1.data + DataAdvance(child)
        ensures mid[i] == 0
      {
        assert buf[i] == 0;
      }
    }
    EmitNodeLaidOut(child, mid, c1, baseRVA);
    EmitChildLayout(child, slot, buf, c, baseRVA);
  }

  // ---------------------------------------------------------------------
  // A layout depends only on the bytes it covers
  // ---------------------------------------------------------------------

  /** Agreement on some ranges gives agreement on ranges inside them. */
  lemma AgreeWithin(a: seq<u8>, b: seq<u8>, slot: nat, slots: nat, c: Cursors, h: nat, m: nat, d: nat,
                    slot': nat, slots': nat, c': Cursors, h': nat, m': nat, d': nat)
    requires Agree(a, b, slot, slots, c, h, m, d)
    requires forall i :: Covered(i, slot', slots', c', h', m', d') ==> Covered(i, slot, slots, c, h, m, d)
    ensures Agree(a, b, slot', slots', c', h', m', d')
  {
    forall i | 0 <= i < |a| && Covered(i, slot', slots', c', h', m', d')
      ensures b[i] == a[i]
    {
    }
  }

  /** Agreement on a range gives equal slices over it. */
  lemma AgreeSlice(a: seq<u8>, b: seq<u8>, slot: nat, slots: nat, c: Cursors, h: nat, m: nat, d: nat,
                   lo: nat, hi: nat)
    requires Agree(a, b, slot, slots, c, h, m, d) && lo <= hi <= |a|
    requires forall i :: lo <= i < hi ==> Covered(i, slot, slots, c, h, m, d)
    ensures b[lo..hi] == a[lo..hi]
  {
    forall i | lo <= i < hi
      ensures b[i] == a[i]
    {
      assert Covered(i, slot, slots, c, h, m, d);
    }
  }

  /** What a later write keeps, an earlier subtree's ranges keep. */
  lemma KeptAgree(a: seq<u8>, b: seq<u8>, slot': nat, slots': nat, c': Cursors, h': nat, m': nat, d': nat,
                  slot: nat, slots: nat, c: Cursors, h: nat, m: nat, d: nat)
    requires Kept(a, b, slot', slots', c', h', m', d')
    requires slot + slots <= slot' && slot' + slots' <= c.header && c.header + h <= c'.header
    requires c'.header + h' <= c.name && c.name + m <= c'.name && c'.name + m' <= c.data
    requires c.data + d <= c'.data
    ensures Agree(a, b, slot, slots, c, h, m, d)
  {
    forall i | 0 <= i < |a| && Covered(i, slot, slots, c, h, m, d)
      ensures b[i] == a[i]
    {
      assert Outside(i, c', h', m', d');
    }
  }

  /** A subtree laid out in `a` is laid out in any `b` that agrees with `a`
      on the subtree's ranges. */
  lemma {:induction false} LaidOutFrame(n: ResourceNode, a: seq<u8>, b: seq<u8>, c: Cursors, baseRVA: u32)
    requires LaidOut(n, a, c, baseRVA)
    requires Agree(a, b, 0, 0, c, HeaderAdvance(n), NameAdvance(n), DataAdvance(n))
    ensures LaidOut(n, b, c, baseRVA)
    decreases n, 0
  {
    match n
    case Data(_, _, content, _) =>
      AgreeSlice(a, b, 0, 0, c, TableSize, 0, |content| + 1, c.header, c.header + DataEntrySize);
      AgreeSlice(a, b, 0, 0, c, TableSize, 0, |content| + 1, c.data, c.data + |content|);
      assert Covered(c.data + |content|, 0, 0, c, TableSize, 0, |content| + 1);
    case Directory(_, _, _, _, _, _, _, _, children) =>
      var slot := c.header + TableSize;
      var start := Cursors(slot + |children| * EntrySize, c.name, c.data);
      AgreeSlice(a, b, 0, 0, c, HeaderAdvance(n), NameAdvance(n), DataAdvance(n), c.header, slot);
      AgreeWithin(a, b, 0, 0, c, HeaderAdvance(n), NameAdvance(n), DataAdvance(n),
                  slot, |children| * EntrySize, start, HeaderAdvanceAll(children), NameAdvanceAll(children),
                  DataAdvanceAll(children));
      ChildrenLaidOutFrame(children, a, b, slot, start, baseRVA);
  }

  /** The same for a run of siblings. */
  lemma {:induction false} ChildrenLaidOutFrame(cs: seq<ResourceNode>, a: seq<u8>, b: seq<u8>, slot: nat, c: Cursors,
                                                baseRVA: u32)
    requires ChildrenLaidOut(cs, a, slot, c, baseRVA)
    requires Agree(a, b, slot, |cs| * EntrySize, c, HeaderAdvanceAll(cs), NameAdvanceAll(cs), DataAdvanceAll(cs))
    ensures ChildrenLaidOut(cs, b, slot, c, baseRVA)
    decreases cs
  {
    if cs != [] {
      var next := After(cs[0], c);
      AgreeWithin(a, b, slot, |cs| * EntrySize, c, HeaderAdvanceAll(cs), NameAdvanceAll(cs), DataAdvanceAll(cs),
                  slot, EntrySize, c, HeaderAdvance(cs[0]), NameCost(cs[0]) + NameAdvance(cs[0]), DataAdvance(cs[0]));
      ChildLaidOutFrame(cs[0], a, b, slot, c, baseRVA);
      AgreeWithin(a, b, slot, |cs| * EntrySize, c, HeaderAdvanceAll(cs), NameAdvanceAll(cs), DataAdvanceAll(cs),
                  slot + EntrySize, |cs[1..]| * EntrySize, next, HeaderAdvanceAll(cs[1..]), NameAdvanceAll(cs[1..]),
                  DataAdvanceAll(cs[1..]));
      ChildrenLaidOutFrame(cs[1..], a, b, slot + EntrySize, next, baseRVA);
    }
  }

  /** The same for one child, its entry and name included. */
  lemma {:induction false} ChildLaidOutFrame(child: ResourceNode, a: seq<u8>, b: seq<u8>, slot: nat, c: Cursors,
                                             baseRVA: u32)
    requires ChildLaidOut(child, a, slot, c, baseRVA)
    requires Agree(a, b, slot, EntrySize, c, HeaderAdvance(child), NameCost(child) + NameAdvance(child),
                   DataAdvance(child))
    ensures ChildLaidOut(child, b, slot, c, baseRVA)
    decreases child, 1
  {
    var m := NameCost(child) + NameAdvance(child);
    var c1 := Cursors(c.header, c.name + NameCost(child), c.data);
    AgreeSlice(a, b, slot, EntrySize, c, HeaderAdvance(child), m, DataAdvance(child), slot, slot + EntrySize);
    if HasTopBit(child.id) {
      AgreeSlice(a, b, slot, EntrySize, c, HeaderAdvance(child), m, DataAdvance(child),
                 c.name, c.name + 2 + 2 * |child.name|);
    }
    AgreeWithin(a, b, slot, EntrySize, c, HeaderAdvance(child), m, DataAdvance(child),
                0, 0, c1, HeaderAdvance(child), NameAdvance(child), DataAdvance(child));
    LaidOutFrame(child, a, b, c1, baseRVA);
  }

  // ---------------------------------------------------------------------
  // What a reader finds
  // ---------------------------------------------------------------------

  /** Following a child's entry: its second word, bit 31 masked off, is the
      offset the child's subtree is laid out from, and bit 31 says whether
      that subtree is a directory. */
  lemma EntryLeadsToRecord(child: ResourceNode, out: seq<u8>, slot: nat, c: Cursors, baseRVA: u32)
    requires ChildLaidOut(child, out, slot, c, baseRVA) && c.header < TopBit
    ensures var rva := ReadLE32(out[slot + 4..slot + EntrySize]);
      && (HasTopBit(rva) <==> child.Directory?)
      && LaidOut(child, out, Cursors(rva % TopBit, c.name + NameCost(child), c.data), baseRVA)
  {
    var rva := ChildRva(child, c.header);
    EntryWords(out, slot, ChildId(child, c.name), rva);
    RvaOffset(child, c.header);
    var c1 := Cursors(c.header, c.name + NameCost(child), c.data);
    assert LaidOut(child, out, c1, baseRVA);
    assert Cursors(rva % TopBit, c.name + NameCost(child), c.data) == c1;
  }

  /** Following a child's entry: its first word is the child's id, or, for
      a flagged child, the offset of its name record with bit 31 set. */
  lemma EntryNamesChild(child: ResourceNode, out: seq<u8>, slot: nat, c: Cursors, baseRVA: u32)
    requires ChildLaidOut(child, out, slot, c, baseRVA) && c.name < TopBit
    ensures var id := ReadLE32(out[slot..slot + 4]);
      && (HasTopBit(id) <==> HasTopBit(child.id))
      && (!HasTopBit(child.id) ==> id == child.id)
      && (HasTopBit(child.id) ==> id % TopBit == c.name
                                  && out[c.name..c.name + 2 + 2 * |child.name|] == NameRecord(child.name))
  {
    EntryWords(out, slot, ChildId(child, c.name), ChildRva(child, c.header));
  }

  /** The entry's offset word below bit 31. */
  lemma RvaOffset(child: ResourceNode, header: u32)
    requires header < TopBit
    ensures ChildRva(child, header) % TopBit == header
    ensures HasTopBit(ChildRva(child, header)) <==> child.Directory?
  {
  }

  /** Following a data entry: its first word, less `baseRVA`, is where the
      content sits, its second word is the content's size, and a zero byte
      follows the content. */
  lemma DataFound(n: ResourceNode, out: seq<u8>, c: Cursors, baseRVA: u32)
    requires LaidOut(n, out, c, baseRVA) && n.Data? && baseRVA + c.data < Limit32
    ensures var rva := ReadLE32(out[c.header..c.header + 4]);
      var size := ReadLE32(out[c.header + 4..c.header + 8]);
      && baseRVA <= rva && size == |n.content|
      && rva - baseRVA + size < |out|
      && out[rva - baseRVA..rva - baseRVA + size] == n.content
      && out[rva - baseRVA + size] == 0
  {
    DataEntryWords(out, c.header, Trunc32(baseRVA + c.data), |n.content|, n.codePage);
  }

  /** The two words of an entry read back. */
  lemma EntryWords(out: seq<u8>, at: nat, id: u32, rva: u32)
    requires at + EntrySize <= |out| && out[at..at + EntrySize] == EntryRecord(id, rva)
    ensures ReadLE32(out[at..at + 4]) == id && ReadLE32(out[at + 4..at + 8]) == rva
  {
    assert out[at..at + 4] == LE32(id) by {
      forall i | 0 <= i < 4 ensures out[at + i] == LE32(id)[i] {
        assert out[at + i] == out[at..at + EntrySize][i];
      }
    }
    assert out[at + 4..at + 8] == LE32(rva) by {
      forall i | 0 <= i < 4 ensures out[at + 4 + i] == LE32(rva)[i] {
        assert out[at + 4 + i] == out[at..at + EntrySize][4 + i];
      }
    }
    LE32RoundTrip(id);
    LE32RoundTrip(rva);
  }

  /** The first two words of a data entry read back. */
  lemma DataEntryWords(out: seq<u8>, at: nat, rva: u32, size: u32, codePage: u32)
    requires at + DataEntrySize <= |out| && out[at..at + DataEntrySize] == DataEntryRecord(rva, size, codePage)
    ensures ReadLE32(out[at..at + 4]) == rva && ReadLE32(out[at + 4..at + 8]) == size
  {
    var record := DataEntryRecord(rva, size, codePage);
    assert out[at..at + 4] == LE32(rva) by {
      forall i | 0 <= i < 4 ensures out[at + i] == LE32(rva)[i] {
        assert out[at + i] == record[i];
      }
    }
    assert out[at + 4..at + 8] == LE32(size) by {
      forall i | 0 <= i < 4 ensures out[at + 4 + i] == LE32(size)[i] {
        assert out[at + 4 + i] == record[4 + i];
      }
    }
    LE32RoundTrip(rva);
    LE32RoundTrip(size);
  }

  // ---------------------------------------------------------------------
  // The tree handed back
  // ---------------------------------------------------------------------

  /** An id with what follows a set top bit forgotten. */
  function FlagOnly(id: u32): (r: u32)
    ensures HasTopBit(r) == HasTopBit(id)
  {
    if HasTopBit(id) then TopBit else id
  }

  /** The tree with every id below the root reduced to `FlagOnly`: what
      stays the same when flagged ids are rewritten to name offsets. */
  function Unnamed(n: ResourceNode): ResourceNode
    decreases n, 0
  {
    match n
    case Data(_, _, _, _) => n
    case Directory(_, _, _, _, _, _, _, _, children) => n.(children := UnnamedAll(children))
  }

  function UnnamedAll(cs: seq<ResourceNode>): seq<ResourceNode>
    decreases cs
  {
    if cs == [] then [] else [Unnamed(cs[0]).(id := FlagOnly(cs[0].id))] + UnnamedAll(cs[1..])
  }

  /** Serializing a subtree hands it back with its own id, and with the
      same shape, fields, names, contents, and flags on every id below it:
      only the flagged ids below it change. */
  lemma {:induction false} EmitNodeIds(n: ResourceNode, buf: seq<u8>, c: Cursors, baseRVA: u32)
    requires |buf| < Limit32 && Fits(n, c, |buf|)
    ensures var m := EmitNode(n, buf, c, baseRVA).node;
      m.id == n.id && Unnamed(m) == Unnamed(n)
    decreases n, 0
  {
    match n
    case Data(_, _, _, _) =>
      DataLayout(n, buf, c, baseRVA);
    case Directory(_, _, _, _, _, _, _, _, children) =>
      var slot := c.header + TableSize;
      var afterTable := Splice(buf, c.header, TableRecord(n));
      var start := Cursors(slot + |children| * EntrySize, c.name, c.data);
      DirectoryFits(n, c, |buf|, start);
      EmitDirectoryStep(n, buf, afterTable, c, start, baseRVA);
      EmitChildrenIds(children, slot, afterTable, start, baseRVA);
  }

  /** The same for the loop over the children. */
  lemma {:induction false} EmitChildrenIds(cs: seq<ResourceNode>, slot: nat, buf: seq<u8>, c: Cursors, baseRVA: u32)
    requires |buf| < Limit32 && FitsAll(cs, slot, c, |buf|)
    ensures UnnamedAll(EmitChildren(cs, slot, buf, c, baseRVA).children) == UnnamedAll(cs)
    decreases cs
  {
    if cs != [] {
      EmitChildrenStep(cs, slot, buf, c, baseRVA);
      FitsFirst(cs, slot, c, |buf|);
      var e := EmitChild(cs[0], slot, buf, c, baseRVA);
      var rest := EmitChildren(cs[1..], slot + EntrySize, e.buf, e.at, baseRVA);
      EmitChildIds(cs[0], slot, buf, c, baseRVA);
      EmitChildrenIds(cs[1..], slot + EntrySize, e.buf, e.at, baseRVA);
      var all := [e.node] + rest.children;
      assert all[0] == e.node && all[1..] == rest.children;
    }
  }

  /** The same for one child, whose id becomes its name offset when
      flagged. */
  lemma {:induction false} EmitChildIds(child: ResourceNode, slot: nat, buf: seq<u8>, c: Cursors, baseRVA: u32)
    requires |buf| < Limit32
    requires slot + EntrySize <= c.header && c.header + HeaderAdvance(child) <= c.name
    requires c.name + NameCost(child) + NameAdvance(child) <= c.data && c.data + DataAdvance(child) <= |buf|
    ensures var m := EmitChild(child, slot, buf, c, baseRVA).node;
      && m.id == ChildId(child, c.name)
      && Unnamed(m).(id := FlagOnly(m.id)) == Unnamed(child).(id := FlagOnly(child.id))
    decreases child, 1
  {
    var c1 := Cursors(c.header, c.name + NameCost(child), c.data);
    var mid := EntryAndName(child, slot, buf, c);
    ChildFits(child, c, c1, |buf|);
    var e := EmitNode(child, mid, c1, baseRVA);
    EmitChildStep(child, slot, buf, c, baseRVA, c1, mid, e);
    EmitNodeIds(child, mid, c1, baseRVA);
    var m := e.node.(id := ChildId(child, c.name));
    assert FlagOnly(m.id) == FlagOnly(child.id);
    assert Unnamed(m) == Unnamed(e.node).(id := m.id);
  }
}
