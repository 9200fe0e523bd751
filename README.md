# LIEF PE Builder, modelled and verified in Dafny

This project models the core of LIEF's PE `Builder` (`src/PE/Builder.cpp`).
The builder takes a parsed PE `Binary` and does two things:

- It rebuilds the tables its switches ask for, as new sections appended to the binary.
  - TLS and the import table are delegated to other code.
  - The base relocations become a section `.l5`.
  - The resource tree becomes a section `.l2`.
- It then writes the whole image into a growable byte stream (`vector_iostream`):
  - the DOS header at offset 0;
  - the file header at the signature offset the binary holds, with the current number of sections; the DOS header's `e_lfanew` field holds that offset cut to 16 bits (see "## Findings");
  - the optional header;
  - the data directories, closed by an empty entry;
  - for every section, its table entry at the cursor and its content at its file offset.

Modules and files:

- `bytes.dfy` (`Bytes`): 16- and 32-bit values and their casts, little-endian encoding and decoding, LIEF's `align`, and the in-place copy (`Splice`).
- `sink.dfy` (`Sink`): the byte stream, both as a value (`Put`, `Seek`) and as the class the builder owns (`ByteSink`).
- `headers.dfy` (`Headers`): the DOS header, file header, data directory and section table records written by the `operator<<` overloads.
- `relocations.dfy` (`Relocations`): the encoding loop of `build_relocation`, and a reader that decodes what it writes (section 6.6.1 of the Microsoft PE/COFF Specification).
- `resources.dfy` (`Resources`): the resource tree, the size planner `compute_resources_size`, and `construct_resources`.
  - `construct_resources` is imperative. It writes through three cursors (header, name, data) into a zeroed `array<u8>`, and rewrites the ids of named children.
  - `EmitNode` states the same walk on sequences.
- `resource_layout.dfy` (`ResourceLayout`): how the two resource passes agree. The planned regions are exactly what the cursors walk over, and every record lands where its directory entry says (section 6.9 of the PE/COFF Specification).
- `resource_tree.dfy` (`ResourceTree`): the serialized tree at every depth, as a reader of the `.l2` section finds it, and the tree `construct_resources` hands back.
- `builder.dfy` (`PEBuilder`): the binary and the builder as classes, the four gated rebuilding steps, and `build`.
  - `build` is proved equal to value-level definitions: `Rebuilt` for the binary and `Image` for the stream.
- `image_layout.dfy` (`ImageLayout`): where `build` leaves each header, each section table entry and each section's content in the final image.

## Model

| member | source | states |
|---|---|---|
| Bytes.Trunc16 | src/PE/Builder.cpp:443 | a `uint16_t` cast keeps every value below 2^16 unchanged |
| Bytes.Trunc32 | src/PE/Builder.cpp:170 | a `uint32_t` cast keeps every value below 2^32 unchanged |
| Bytes.LE16RoundTrip | src/PE/Builder.cpp:178-184 | a 16-bit value written in host (little-endian) order reads back as itself |
| Bytes.LE32RoundTrip | src/PE/Builder.cpp:167-176 | a 32-bit value written in host order reads back as itself |
| Bytes.LE32Injective | src/PE/Builder.cpp:167-176 | distinct 32-bit values have distinct encodings |
| Bytes.Splice | src/PE/Builder.cpp:301-304 | `std::copy` into the buffer replaces exactly the target range, keeps every other byte and the length |
| Bytes.SpliceConcat | src/PE/Builder.cpp:329-336 | two adjacent copies are one copy of both |
| Bytes.AlignIsLeastMultiple | src/PE/Builder.cpp:204 | `align(value, a)` is the least multiple of `a` that is at least `value` |
| Bytes.AlignOfMultiple | src/PE/Builder.cpp:204 | aligning a multiple changes nothing |
| Sink.Written | src/PE/Builder.cpp:480 | a write puts its bytes at the position, keeps the bytes outside, zero-fills any gap past the old end, and grows the stream only as far as needed |
| Sink.Put | src/PE/Builder.cpp:480 | after a write the cursor is just past the written bytes, which sit at the old cursor |
| Sink.WrittenAt | src/PE/Builder.cpp:480 | byte by byte: each byte after a write is the written byte, the old byte, or a zero of the gap |
| Sink.PutConcat | src/PE/Builder.cpp:131-139 | two writes in a row leave the same stream as one write of both |
| Sink.PutKeeps | src/PE/Builder.cpp:507-510 | a write that keeps clear of a range leaves that range as it was |
| Sink.GrowGrow | src/PE/Builder.cpp:480 | growing the stream twice is growing it once to the larger size |
| Sink.ByteSink.constructor | src/PE/Builder.cpp:38-45 | the stream the builder owns starts empty, with the cursor at 0 |
| Sink.ByteSink.SeekP | src/PE/Builder.cpp:432 | `seekp` moves the cursor and keeps the bytes |
| Sink.ByteSink.TellP | src/PE/Builder.cpp:507 | `tellp` returns the cursor |
| Sink.ByteSink.Write | src/PE/Builder.cpp:433 | `write` on the class does what `Put` states on values |
| Headers.DosRecordAsWritten | src/PE/Builder.cpp:405-435 | the 64-byte DOS record as the code fills it, with `e_lfanew` cut to 16 bits |
| Headers.DosRecordAsWrittenNewHeader | src/PE/Builder.cpp:424 | as written, `e_lfanew` reads back as the offset modulo 2^16, and equals the offset exactly when the offset is below 2^16 |
| Headers.DosRecordAsWrittenLosesOffset | src/PE/Builder.cpp:424 | for a file header at 0x10000, the record as written sends a loader to offset 0 while the corrected one sends it to 0x10000 |
| Headers.DosRecord | src/PE/Builder.cpp:405-435 | the 64-byte DOS record with the full 32-bit `e_lfanew` |
| Headers.DosRecordNewHeader | src/PE/Builder.cpp:455-457 | `e_lfanew` in the corrected record reads back as the offset where the file header is written, after the thirty 16-bit words |
| Headers.FileHeaderRecord | src/PE/Builder.cpp:438-458 | the signature plus the file header, 24 bytes |
| Headers.FileHeaderFields | src/PE/Builder.cpp:442-453 | the record reads back as the signature, machine, section count and time stamp it was given |
| Headers.DirectoryRecord | src/PE/Builder.cpp:473-480 | a data directory is 8 bytes |
| Headers.DirectoryEntries | src/PE/Builder.cpp:131-133 | the directories take 8 bytes each, in order |
| Headers.DirectoryEntryAt | src/PE/Builder.cpp:131-133 | the `k`-th 8 bytes are the `k`-th directory's record |
| Headers.DirectoryTableLayout | src/PE/Builder.cpp:131-139 | the table has one entry more than the directories; entry `k` reads back as directory `k`'s RVA and size; the last entry is all zeros |
| Headers.NameField | src/PE/Builder.cpp:497-499 | the `Name` field is 8 bytes: the name's first bytes, then a NUL when the name is shorter than 8 |
| Headers.SectionRecord | src/PE/Builder.cpp:485-500 | a section table entry is 40 bytes |
| Headers.SectionRecordFields | src/PE/Builder.cpp:488-496 | the entry reads back as the section's virtual size, virtual address, raw size, raw offset and characteristics |
| Relocations.EncodeRelocations | src/PE/Builder.cpp:163-209 | the encoding loop yields exactly `SectionContent`: the blocks back to back, each padded to 4 bytes, then zeros up to the file alignment |
| Relocations.BlockLength | src/PE/Builder.cpp:170-171 | a block takes `align(8 + 2n, 4)` bytes, a multiple of 4, and when that fits in 32 bits it is the `BlockSize` field |
| Relocations.BlockLayout | src/PE/Builder.cpp:167-188 | a block is `PageRVA`, then `BlockSize`, then entry `k` at `8 + 2k`, then zeros |
| Relocations.BlockPadding | src/PE/Builder.cpp:186-188 | the padding is 2 bytes exactly when the entry count is odd |
| Bytes.LE16sAt | src/PE/Builder.cpp:178-184 | in a run of 16-bit values (relocation entries, name code units, DOS header words), value `k` is at bytes `2k..2k+2` |
| Relocations.RelocationBytesAligned | src/PE/Builder.cpp:186-188 | the encoded blocks together take a multiple of 4 bytes |
| Relocations.SectionContentLayout | src/PE/Builder.cpp:204-209 | the content starts with the encoded blocks and continues with zeros; its length is a multiple of the file alignment, and of 4 when the alignment is |
| Relocations.AlignMultipleOfFour | src/PE/Builder.cpp:204 | padding a multiple of 4 to an alignment that is a multiple of 4 stays a multiple of 4 |
| Relocations.DecodeEntriesRoundTrip | src/PE/Builder.cpp:178-184 | the entries' bytes read back as the entries |
| Relocations.BlockRoundTrip | src/PE/Builder.cpp:167-188 | a block's bytes read back as its page, its size and its padded entries, whatever follows them |
| Relocations.DecodeStep | src/PE/Builder.cpp:165-189 | one encoded block in front of decodable bytes decodes as that block in front of what they decode to |
| Relocations.DecodeRoundTrip | src/PE/Builder.cpp:163-189 | decoding the encoded blocks gives back the blocks in order, each padded by one zero entry when its count is odd |
| Relocations.ThreeEntryBlock | src/PE/Builder.cpp:170-209 | three entries at page 0x1000 take 16 bytes, which `BlockSize` reports; a 512-byte file alignment gives a 512-byte section |
| Resources.TableRecord | src/PE/Builder.cpp:292-304 | a directory table is 16 bytes |
| Resources.EntryRecord | src/PE/Builder.cpp:343-350 | a directory entry is 8 bytes |
| Resources.DataEntryRecord | src/PE/Builder.cpp:372-382 | a data entry is 16 bytes |
| Resources.NameRecord | src/PE/Builder.cpp:329-336 | a name record is a 2-byte length then 2 bytes per code unit |
| Resources.ComputeResourcesSize | src/PE/Builder.cpp:252-270 | the three running totals grow by exactly the subtree's plan |
| Resources.PlanAllSnoc | src/PE/Builder.cpp:267-269 | the children's plan grows by one child's plan per iteration |
| Resources.ChildId | src/PE/Builder.cpp:318-322 | the id written for a child is flagged exactly when the child's id was |
| Resources.ChildRva | src/PE/Builder.cpp:340-357 | an entry's offset has bit 31 set when the child is a directory (or the offset already had it) |
| Resources.EmitNode | src/PE/Builder.cpp:276-393 | a subtree keeps the buffer's length and moves each cursor by the subtree's advance |
| Resources.EmitChildren | src/PE/Builder.cpp:317-367 | the children keep the buffer's length, come back one for one, and move the cursors by their advances |
| Resources.EmitChild | src/PE/Builder.cpp:318-366 | a child moves the name cursor by its own name when flagged, plus its subtree's advances |
| Resources.EntryAndName | src/PE/Builder.cpp:318-350 | writing a child's name and entry changes only the entry slot and the name range |
| Resources.EmitNodeKept | src/PE/Builder.cpp:276-393 | every byte a subtree writes lies in the three ranges its cursors walk over |
| Resources.EmitChildKept | src/PE/Builder.cpp:317-366 | a child writes only its slot, its name and its subtree's ranges |
| Resources.EmitChildrenKept | src/PE/Builder.cpp:317-367 | the children write only their slots and the ranges they walk over |
| Resources.CopyInto | src/PE/Builder.cpp:301-304 | `std::copy` into the array is `Splice` of its old contents |
| Resources.ConstructResources | src/PE/Builder.cpp:276-393 | the method leaves in the array what `EmitNode` states, returns the cursors it states, and returns the tree with the ids rewritten |
| Resources.ConstructChildren | src/PE/Builder.cpp:317-367 | the child loop does what `EmitChildren` states |
| Resources.ConstructChild | src/PE/Builder.cpp:318-366 | one iteration does what `EmitChild` states |
| Resources.WriteEntryAndName | src/PE/Builder.cpp:318-350 | the name and entry writes are `EntryAndName` |
| ResourceLayout.HeaderPlan | src/PE/Builder.cpp:257-263 | the planned header region is what the header cursor walks over, plus the root's unused entry |
| ResourceLayout.DataPlan | src/PE/Builder.cpp:264 | the planned data region is exactly what the data cursor walks over |
| ResourceLayout.NamePlan | src/PE/Builder.cpp:253-255 | in a well-named tree the planned name region is what the name cursor walks over, plus the root's own name, which nothing writes |
| ResourceLayout.TopLevelBounds | src/PE/Builder.cpp:225-244 | with cursors at 0, H and H+N over a buffer of at least H+N+D bytes, every write fits; the data cursor ends at H+N+D, the name cursor at most at H+N, the header cursor at H minus one entry, and every byte from H+N+D on is untouched |
| ResourceLayout.KeptRange | src/PE/Builder.cpp:301-304 | a range outside every written range is unchanged |
| ResourceLayout.EmitChildLayout | src/PE/Builder.cpp:318-366 | a child's entry carries its (rewritten) id and the offset of its own record, and its name sits at the name cursor |
| ResourceLayout.EntryAndNameLayout | src/PE/Builder.cpp:329-350 | the entry and, when flagged, the name record are written where the cursors say |
| ResourceLayout.EmitChildrenLayout | src/PE/Builder.cpp:317-367 | the `k`-th child is placed in the `k`-th slot with the cursors left by the first `k` children |
| ResourceLayout.DataLayout | src/PE/Builder.cpp:369-391 | a leaf's data entry holds `baseRVA` plus the data cursor, the content size and the code page; the content sits at the data cursor followed by one untouched byte; the header cursor moves by 16 |
| ResourceLayout.DirectoryTableLayout | src/PE/Builder.cpp:292-306 | a directory's table sits at the header cursor and survives its children |
| ResourceLayout.DirectoryChildLayout | src/PE/Builder.cpp:309-366 | a directory's `k`-th child's entry is in slot `k` after the table and points where that child's record goes |
| ResourceLayout.OneLeafTree | src/PE/Builder.cpp:252-270 | a directory with one 3-byte leaf plans 48 header bytes, 4 data bytes and no names |
| ResourceTree.EmitNodeLaidOut | src/PE/Builder.cpp:276-393 | over a zeroed data range the walk lays its subtree out at every depth: each table at its header offset, each entry naming its child's id and record offset, each name record, each data entry with RVA, size and code page, each content followed by a zero byte |
| ResourceTree.EmitChildrenLaidOut | src/PE/Builder.cpp:317-367 | the child loop lays out every child, the later ones keeping the earlier ones in place |
| ResourceTree.EmitChildLaidOut | src/PE/Builder.cpp:318-366 | one iteration lays out its child: entry, name when flagged, and subtree |
| ResourceTree.LaidOutFrame | src/PE/Builder.cpp:276-393 | a laid-out subtree stays laid out under any change outside the ranges it sweeps |
| ResourceTree.EntryLeadsToRecord | src/PE/Builder.cpp:340-357 | an entry's second word has bit 31 set exactly for a directory, and below bit 31 is the offset the child's subtree is laid out from |
| ResourceTree.EntryNamesChild | src/PE/Builder.cpp:318-338 | an entry's first word is an unflagged child's id, or 0x80000000 plus the offset of a flagged child's name record, which holds its name |
| ResourceTree.DataFound | src/PE/Builder.cpp:369-391 | a data entry's RVA less the section's base is where the content sits, its size field is the content's length, and a zero byte follows the content |
| ResourceTree.EmitNodeIds | src/PE/Builder.cpp:276-393 | the tree handed back keeps its root's id, shape, fields, names, contents and flags; only flagged ids below the root change |
| ResourceTree.EmitChildrenIds | src/PE/Builder.cpp:317-367 | the child loop changes nothing in the children but their flagged ids |
| ResourceTree.EmitChildIds | src/PE/Builder.cpp:318-323 | a child comes back with `ChildId` as its id and otherwise as it was |
| PEBuilder.RebuiltKeeps | src/PE/Builder.cpp:94-123 | the steps only append sections: the old ones stay first and in order, the headers and directories the model holds are kept, and the tree changes only when the resource step runs |
| PEBuilder.NothingToBuild | src/PE/Builder.cpp:38-45 | with every switch off, as the constructor leaves them, the steps change nothing, whatever the tree |
| PEBuilder.RebuiltSectionCount | src/PE/Builder.cpp:94-123 | the steps add exactly the sections of the steps whose guards hold |
| PEBuilder.RebuiltRelocationSection | src/PE/Builder.cpp:103-106 | when relocations are rebuilt, their section comes right after the TLS sections |
| PEBuilder.RelocationSectionReadsBack | src/PE/Builder.cpp:163-213 | the relocation section is `.l5` with characteristics 0x42000040 and the given placement; its content decodes back as the binary's blocks and is zero up to a multiple of the file alignment |
| PEBuilder.BuiltResourcesLayout | src/PE/Builder.cpp:225-246 | the resource buffer is the planned total rounded up to the file alignment, and zero past the planned regions |
| PEBuilder.ResourceSectionAdded | src/PE/Builder.cpp:238-246 | the resource step appends one `.l2` section with characteristics 0x40000040, placed by `add_section`, holding the serialized tree, and keeps the rewritten tree |
| PEBuilder.ResourceSectionLaidOut | src/PE/Builder.cpp:225-246 | the `.l2` section's content holds the whole tree laid out from offset 0, names after the planned headers and data after the names, with RVAs from the section's virtual address; the binary keeps the old tree but for the ids of flagged nodes |
| PEBuilder.BuiltResourcesLaidOut | src/PE/Builder.cpp:230-244 | serializing into the zeroed, aligned buffer lays the tree out at every depth |
| PEBuilder.BuiltResourcesIds | src/PE/Builder.cpp:230-244 | the tree handed back keeps the root's id and differs from the old one only in the ids of flagged nodes |
| PEBuilder.RebuiltResourceSection | src/PE/Builder.cpp:108-114 | when the resource step runs, the section after the relocation one holds the laid-out tree, and the final binary keeps the tree with only flagged ids rewritten |
| PEBuilder.ResourceStepAppends | src/PE/Builder.cpp:108-114 | the resource step only appends, and keeps the tree when it does not run |
| PEBuilder.PutSection | src/PE/Builder.cpp:485-512 | writing a section moves the cursor by exactly one 40-byte entry, whatever the content, and never shrinks the stream |
| PEBuilder.PutSections | src/PE/Builder.cpp:143-146 | the loop moves the cursor by 40 bytes per section |
| PEBuilder.DirectoriesWrittenStep | src/PE/Builder.cpp:131-133 | each iteration of the directory loop writes one more entry |
| PEBuilder.DirectoriesWrittenEnd | src/PE/Builder.cpp:135-139 | the loop plus the final empty entry is one write of the directory table |
| PEBuilder.SerializeResources | src/PE/Builder.cpp:230-244 | the zeroed, aligned buffer with cursors at 0, H and H+N, filled by `construct_resources`, is `BuiltResources` |
| PEBuilder.Binary.AddSection | src/PE/Builder.cpp:213 | the placed section goes after the others |
| PEBuilder.Binary.SetLastSectionContent | src/PE/Builder.cpp:246 | only the last section's content changes |
| PEBuilder.Binary.SetResources | src/PE/Builder.cpp:244 | the tree with rewritten ids replaces the old one |
| PEBuilder.Builder.constructor | src/PE/Builder.cpp:38-45 | all five switches start off and the stream starts empty |
| PEBuilder.Builder.SetBuildImports | src/PE/Builder.cpp:48-51 | only `build_imports_` changes |
| PEBuilder.Builder.SetPatchImports | src/PE/Builder.cpp:52-55 | only `patch_imports_` changes |
| PEBuilder.Builder.SetBuildRelocations | src/PE/Builder.cpp:57-60 | only `build_relocations_` changes |
| PEBuilder.Builder.SetBuildTls | src/PE/Builder.cpp:62-65 | only `build_tls_` changes |
| PEBuilder.Builder.SetBuildResources | src/PE/Builder.cpp:67-70 | only `build_resources_` changes |
| PEBuilder.Builder.BuildRelocation | src/PE/Builder.cpp:163-214 | one section is appended: `RelocationSection` of the binary, placed by `add_section` |
| PEBuilder.Builder.BuildResources | src/PE/Builder.cpp:220-247 | the binary becomes `WithResourceSection`, or stays as it was when `add_section` raises `not_found` |
| PEBuilder.Builder.WriteDosHeader | src/PE/Builder.cpp:405-435 | the DOS record as the code fills it, `e_lfanew` cut to 16 bits, is written at offset 0 |
| PEBuilder.Builder.WriteHeader | src/PE/Builder.cpp:438-460 | the file header is written at the signature offset the binary holds (`addressOfNewExeHeader`), with the current section count cut to 16 bits |
| PEBuilder.Builder.WriteOptionalHeader | src/PE/Builder.cpp:463-470 | the optional header's bytes are written at the cursor |
| PEBuilder.Builder.WriteDataDirectory | src/PE/Builder.cpp:473-482 | one 8-byte entry is written at the cursor |
| PEBuilder.Builder.WriteSection | src/PE/Builder.cpp:485-512 | the entry is written at the cursor and the content at the section's offset, and the cursor comes back after the entry |
| PEBuilder.Builder.TlsPass | src/PE/Builder.cpp:94-101 | TLS sections are added only when the binary has TLS and the switch is on |
| PEBuilder.Builder.RelocationPass | src/PE/Builder.cpp:103-106 | relocations are rebuilt only when the binary has relocations and the switch is on |
| PEBuilder.Builder.ResourcePass | src/PE/Builder.cpp:108-114 | resources are rebuilt only when the binary has resources, a tree and the switch is on; `not_found` is swallowed; the tree must be buildable only when the step runs |
| PEBuilder.Builder.ImportPass | src/PE/Builder.cpp:116-123 | imports are rebuilt only when the binary has imports and the switch is on |
| PEBuilder.Builder.WriteDataDirectories | src/PE/Builder.cpp:131-139 | the loop and the empty entry write the directory table at the cursor |
| PEBuilder.Builder.WriteSections | src/PE/Builder.cpp:143-146 | the loop writes every section, in order |
| PEBuilder.Builder.RebuildTables | src/PE/Builder.cpp:94-123 | the four gated steps run in the source's order |
| PEBuilder.Builder.WriteImage | src/PE/Builder.cpp:125-146 | the headers, the directories and the sections of the binary as it now is are written |
| PEBuilder.Builder.Build | src/PE/Builder.cpp:90-154 | the binary becomes `Rebuilt`, its headers stay, and the stream becomes the `Image` of the rebuilt binary |
| ImageLayout.PutSectionKeeps | src/PE/Builder.cpp:500-510 | writing one section keeps a range that lies apart from its entry and its content |
| ImageLayout.PutSectionsKeeps | src/PE/Builder.cpp:143-146 | the section loop keeps a range that lies apart from the table and from every content |
| ImageLayout.PutSectionPlaced | src/PE/Builder.cpp:500-510 | a section's content sits at its offset, and its entry at the cursor when the content lies past the entry |
| ImageLayout.SectionEntryPlaced | src/PE/Builder.cpp:143-146 | after the loop, the `k`-th entry sits at the table start plus 40k, when the contents lie past the table |
| ImageLayout.SectionContentPlaced | src/PE/Builder.cpp:143-146 | after the loop, the `k`-th content sits at its offset, when the contents lie past the table and apart from one another |
| ImageLayout.HeadersPlaced | src/PE/Builder.cpp:127-139 | before the loop: the DOS record as written at 0, the file header at the binary's signature offset, the optional header and the directory table after it, and the cursor at the section table |
| ImageLayout.LoopKeepsPrefix | src/PE/Builder.cpp:143-146 | the section loop keeps everything before the section table |
| ImageLayout.HeadersReadBack | src/PE/Builder.cpp:424-458 | a loader reads `e_lfanew` as the file header's offset modulo 2^16, which is the offset exactly when it is below 2^16, and at the offset the file header's section count |
| ImageLayout.ImageHeadersPlaced | src/PE/Builder.cpp:125-146 | in the final image every header is where the code puts it, `e_lfanew` leads to the file header exactly when its offset is below 2^16, and `NumberOfSections` there is the final section count |
| ImageLayout.ImageSectionPlaced | src/PE/Builder.cpp:141-146 | in the final image the `k`-th table entry sits at the table start plus 40k and the `k`-th content at its offset |

## Left out

- `write` (lines 75-85), `get_build` (156-158) and the printer (514-523) are file output and formatting. They are not modelled.
- `LOG` calls are not modelled, including the warning that a content is larger than the section's size (502-506). The content is written whole either way.
- `build_tls`, `build_import_table` and `build_optional_header` are not part of this model. What they contribute is a parameter:
  - the sections they append;
  - the optional header's bytes.
  - The PE32/PE64 choice therefore does not appear.
- `patch_imports_` is only stored, as in this file.
- `Binary::add_section` is not part of this model. Where it places a section (virtual address, sizes, offset) is a parameter. In the resource step, a `not_found` it raises is modelled as `None`, which `build` swallows.
- `build_symbols` and `build_string_table` are empty or commented out, so they are not modelled.
- The DOS header's thirty 16-bit fields are one sequence of words in record order, copied as they are.
- Header fields are held at their record width (`u16`/`u32`), so the casts of lines 442-450 and 488-496 are identities.
- Headers.NameField: the bytes of `Name` after the terminating NUL are read past the end of the C string. They are modelled as zeros.
- Resources.ConstructResources: requires that the subtree fits the buffer (`Fits`). The source does not check this; writing out of bounds is undefined behaviour there.
- PEBuilder.Builder.Build, PEBuilder.Builder.RebuildTables, PEBuilder.Builder.ResourcePass and PEBuilder.Builder.BuildResources: require `TreeBuildable` of the tree, but only when the resource step runs (`ResourcesBuildable`). It has two parts.
  - The tree is well named: below the root, an id is flagged exactly when the node has a name, as the parser builds trees. Without this, the planner and the writer disagree on the name region.
  - The padded regions are addressable in 32 bits.
  - Under these hypotheses the model does not capture the truncation of the source's `uint32_t` size accumulators.
- PEBuilder.RebuiltKeeps and PEBuilder.Binary.AddSection: the model keeps the headers and data directories as they were before the steps. `add_section`, `build_tls` and `build_import_table` are not part of this model and only append sections here, while the real ones also update the directories and headers that `build` then writes.
- PEBuilder.Builder.BuildRelocation and PEBuilder.Builder.Build: the model assumes `add_section` succeeds for `.l5` (its placement is always given). A `not_found` raised there (line 213) is not caught by `build` and would escape it before anything is written; that error path is not modelled.
- ResourceTree.EntryLeadsToRecord and ResourceTree.EntryNamesChild: stated for offsets below 2^31, where bit 31 does not clash with the offset.
- `construct_resources` rewrites each named child's `id_` in place. The model returns the rewritten tree as a value, which the binary then stores.
- Relocations.DecodeRoundTrip and PEBuilder.RelocationSectionReadsBack: hold for blocks whose size fits in 32 bits (`SizeFits`).
- ImageLayout.ImageSectionPlaced and ImageLayout.ImageHeadersPlaced: stated for images whose section contents lie past the section table and do not overlap one another. Otherwise later writes overwrite earlier ones, which `Image` still describes exactly.
- ImageLayout.HeadersPlaced and ImageLayout.ImageHeadersPlaced: also stated only for a file header that starts at or past the end of the 64-byte DOS header (`DosHeaderSize <= addressOfNewExeHeader`). The source accepts an overlapping file header, and `Image` describes that case exactly, with the file header overwriting the end of the DOS record.
- The stream's integer positions are unbounded; `size_t` overflow is not modelled.

## Findings

| source | as written | input that shows it | evidently intended | confidence | as-written member | corrected member |
|---|---|---|---|---|---|---|
| src/PE/Builder.cpp:424 | `AddressOfNewExeHeader` is cast to `uint16_t` before being stored in the 32-bit DOS field, while line 455 writes the file header at the full 32-bit offset | a binary whose file header is at 0x10000: the DOS header written says 0, so a loader looks for the PE signature at offset 0 | store the full 32-bit offset, so that `e_lfanew` names where the file header is written | not executed | Headers.DosRecordAsWrittenLosesOffset | Headers.DosRecordNewHeader |
