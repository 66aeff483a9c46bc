/**
 What an appended resource section means for the image as a whole: it reads back as it was, with one more
 section, and its resource tree is the tree that was given, in the loader's order.
 */
module PeImage {
  import opened Wrappers
  import opened PeBytes
  import opened PeTree
  import opened PeWrite
  import opened PeParse
  import opened PeAppend

  predicate HasResourceSlot(b: seq<byte>, info: PeInfo) {
    var dirs := U32At(b, DirCountAt(info.pe, info.plus));
    dirs.Ok? && dirs.value > 2
  }

  /** The headers of the edited image. */
  function NewInfo(b: seq<byte>, info: PeInfo, data: seq<byte>): PeInfo
    requires NewRva(b, info) < 0x1_0000_0000 && |data| < 0x1_0000_0000
  {
    info.(sections := info.sections + 1,
          resourceRva := if HasResourceSlot(b, info) then NewRva(b, info) else 0,
          resourceSize := if HasResourceSlot(b, info) then |data| else 0)
  }

  /** Fields clear of the rewritten bytes read as before. */
  lemma FieldKept(b: seq<byte>, c: seq<byte>, info: PeInfo, data: seq<byte>, at: nat)
    requires Edited(b, c, info, data)
    ensures at + 2 <= |b| && (forall k :: at <= k < at + 2 ==> !Rewritten(info, k)) ==> U16At(c, at) == U16At(b, at)
    ensures at + 4 <= |b| && (forall k :: at <= k < at + 4 ==> !Rewritten(info, k)) ==> U32At(c, at) == U32At(b, at)
  {
    FieldsAgree(b, c, at);
  }

  lemma StartKept(b: seq<byte>, c: seq<byte>, info: PeInfo, data: seq<byte>, at: nat, x: seq<byte>)
    requires Edited(b, c, info, data) && StartsWith(b, at, x)
    requires forall k :: at <= k < at + |x| ==> !Rewritten(info, k)
    ensures StartsWith(c, at, x)
  {
    assert c[at..at + |x|] == b[at..at + |x|];
  }

  /** What parsing an image goes through. */
  predicate Headers(b: seq<byte>, info: PeInfo) {
    && StartsWith(b, 0, [0x4d, 0x5a])
    && U32At(b, 0x3c) == Ok(info.pe)
    && StartsWith(b, info.pe, [0x50, 0x45, 0, 0])
    && U16At(b, info.pe + 6) == Ok(info.sections)
    && U16At(b, info.pe + 20) == Ok(info.headers - Opt(info.pe))
    && U16At(b, Opt(info.pe)) == Ok(if info.plus then 0x20b else 0x10b)
    && U32At(b, Opt(info.pe) + 32) == Ok(info.sectionAlignment)
    && U32At(b, Opt(info.pe) + 36) == Ok(info.fileAlignment)
    && U32At(b, Opt(info.pe) + 60) == Ok(info.sizeOfHeaders)
    && U16At(b, Opt(info.pe) + 68) == Ok(info.subsystem)
    && U32At(b, DirCountAt(info.pe, info.plus)).Ok?
    && (HasResourceSlot(b, info) ==>
          ResourceAt(b, ResourceSlot(info.pe, info.plus)) == Ok((info.resourceRva, info.resourceSize)))
    && (!HasResourceSlot(b, info) ==> info.resourceRva == 0 && info.resourceSize == 0)
    && forall i :: 0 <= i < info.sections ==> info.headers + i * 40 + 8 <= |b|
  }

  lemma ParsedHeaders(b: seq<byte>, info: PeInfo)
    ensures Parse(b) == Ok(info) <==> Headers(b, info)
  {
    hide U16, U32, StartsWith;
    if Headers(b, info) {
      assert info.headers == Opt(info.pe) + (info.headers - Opt(info.pe));
    }
  }

  /** The edited image parses to the same headers, with one more section and the new resource directory. */
  lemma EditedParses(b: seq<byte>, c: seq<byte>, info: PeInfo, data: seq<byte>)
    requires WellFormed(b, info) && Edited(b, c, info, data)
    requires NewRva(b, info) < 0x1_0000_0000 && |data| < 0x1_0000_0000
    ensures Parse(c) == Ok(NewInfo(b, info, data))
    ensures HasResourceSlot(c, info) == HasResourceSlot(b, info)
  {
    hide Parse, WellFormed, Edited, U16At, U32At, ResourceAt, StartsWith, SectionHeader, NewRva, NewPtr;
    ParsedHeaders(b, info);
    ParsedHeaders(c, NewInfo(b, info, data));
    WellFormedParts(b, info);
    EditedParts(b, c, info, data);
    StartKept(b, c, info, data, 0, [0x4d, 0x5a]);
    StartKept(b, c, info, data, info.pe, [0x50, 0x45, 0, 0]);
    FieldKept(b, c, info, data, 0x3c);
    FieldKept(b, c, info, data, info.pe + 20);
    FieldKept(b, c, info, data, Opt(info.pe));
    FieldKept(b, c, info, data, Opt(info.pe) + 32);
    FieldKept(b, c, info, data, Opt(info.pe) + 36);
    FieldKept(b, c, info, data, Opt(info.pe) + 60);
    FieldKept(b, c, info, data, Opt(info.pe) + 68);
    FieldKept(b, c, info, data, DirCountAt(info.pe, info.plus));
  }

  lemma WellFormedParts(b: seq<byte>, info: PeInfo)
    requires WellFormed(b, info)
    ensures Parse(b) == Ok(info) && 0x40 <= info.pe && ResourceSlot(info.pe, info.plus) + 8 <= info.headers
    ensures NewHeaderSlot(info) + 40 <= |b| && info.sections < 0xffff
  {
    hide Parse;
  }

  lemma EditedParts(b: seq<byte>, c: seq<byte>, info: PeInfo, data: seq<byte>)
    requires Edited(b, c, info, data)
    ensures |b| <= |c| && NewHeaderSlot(info) + 40 <= |b| && ResourceSlot(info.pe, info.plus) + 8 <= info.headers
    ensures U16At(c, info.pe + 6) == Ok(info.sections + 1)
    ensures NewRva(b, info) < 0x1_0000_0000 && |data| < 0x1_0000_0000 ==>
      ResourceAt(c, ResourceSlot(info.pe, info.plus)) == Ok((NewRva(b, info), |data|))
  {
  }

  // ---------------------------------------------------------------------------------------------
  // The map from RVAs to bytes
  // ---------------------------------------------------------------------------------------------

  /** Old section headers are as they were. */
  lemma SectionKept(b: seq<byte>, c: seq<byte>, info: PeInfo, data: seq<byte>, i: nat)
    requires Edited(b, c, info, data) && i < info.sections
    ensures SectionAt(c, info, i) == SectionAt(b, info, i)
  {
    hide Edited, U32At, NewRva;
    EditedParts(b, c, info, data);
    var at := info.headers + i * 40;
    assert forall k :: at + 8 <= k < at + 24 ==> !Rewritten(info, k);
    FieldKept(b, c, info, data, at + 8);
    FieldKept(b, c, info, data, at + 12);
    FieldKept(b, c, info, data, at + 16);
    FieldKept(b, c, info, data, at + 20);
  }

  lemma HeaderFields(c: seq<byte>, slot: nat, size: u32, rva: u32, rawSize: u32, rawPtr: u32)
    requires slot + 40 <= |c| && c[slot..slot + 40] == SectionHeader(size, rva, rawSize, rawPtr)
    ensures U32At(c, slot + 8) == Ok(size) && U32At(c, slot + 12) == Ok(rva)
    ensures U32At(c, slot + 16) == Ok(rawSize) && U32At(c, slot + 20) == Ok(rawPtr)
  {
    hide U32, Le32;
    var h := c[slot..slot + 40];
    assert h[8..12] == Le32(size) && h[12..16] == Le32(rva) && h[16..20] == Le32(rawSize) && h[20..24] == Le32(rawPtr);
    SliceIn(c, slot, h, 8, 12);
    SliceIn(c, slot, h, 12, 16);
    SliceIn(c, slot, h, 16, 20);
    SliceIn(c, slot, h, 20, 24);
    Le32Reads(c, slot + 8, size);
    Le32Reads(c, slot + 12, rva);
    Le32Reads(c, slot + 16, rawSize);
    Le32Reads(c, slot + 20, rawPtr);
  }

  /** The sizes an image edited for `data` has in its new section header. */
  predicate SizesFit(b: seq<byte>, info: PeInfo, size: nat) {
    && NewRva(b, info) + AlignUp(size, info.fileAlignment) < 0x1_0000_0000
    && NewPtr(b, info) + AlignUp(size, info.fileAlignment) < 0x1_0000_0000
  }

  lemma NewSection(b: seq<byte>, c: seq<byte>, info: PeInfo, data: seq<byte>)
    requires Edited(b, c, info, data) && SizesFit(b, info, |data|)
    ensures SectionAt(c, info, info.sections)
         == Ok(Section(|data|, NewRva(b, info), AlignUp(|data|, info.fileAlignment), NewPtr(b, info)))
  {
    hide U32At, AlignUp, VaEnd, SectionHeader;
    assert |data| <= AlignUp(|data|, info.fileAlignment);
    HeaderFields(c, NewHeaderSlot(info), |data|, NewRva(b, info), AlignUp(|data|, info.fileAlignment), NewPtr(b, info));
  }

  /** Every old section ends, virtually, where the new one starts or before. */
  lemma {:induction false} SectionsEndBefore(b: seq<byte>, info: PeInfo, i: nat, n: nat)
    requires i < n && SectionOk(b, info, i)
    ensures SectionAt(b, info, i).value.va + Span(SectionAt(b, info, i).value) <= VaEnd(b, info, n)
  {
    hide SectionAt;
    if i < n - 1 {
      SectionsEndBefore(b, info, i, n - 1);
    }
  }

  /** The new section's addresses are disjoint from every old section's. */
  lemma NewSectionIsDisjoint(b: seq<byte>, info: PeInfo, i: nat)
    requires WellFormed(b, info) && i < info.sections
    ensures SectionAt(b, info, i).Ok?
    ensures SectionAt(b, info, i).value.va + Span(SectionAt(b, info, i).value) <= NewRva(b, info)
  {
    hide Parse, SectionAt;
    assert SectionOk(b, info, i);
    SectionsEndBefore(b, info, i, info.sections);
  }

  /** Addresses in the new section's contents lead into the appended bytes. */
  lemma {:induction false} NewAddresses(b: seq<byte>, c: seq<byte>, info: PeInfo, after: PeInfo, data: seq<byte>,
                                        at: nat, len: nat, i: nat)
    requires WellFormed(b, info) && Edited(b, c, info, data) && SizesFit(b, info, |data|)
    requires after.headers == info.headers && after.sections == info.sections + 1
    requires 0 < len && at + len <= |data| && i <= info.sections
    ensures FindSection(c, after, NewRva(b, info) + at, len, i) == Ok(NewPtr(b, info) + at)
    decreases info.sections - i
  {
    hide WellFormed, Edited, NewRva, NewPtr, AlignUp, SectionAt;
    SameTable(c, info, after, i);
    if i < info.sections {
      SectionKept(b, c, info, data, i);
      NewSectionIsDisjoint(b, info, i);
      NewAddresses(b, c, info, after, data, at, len, i + 1);
    } else {
      NewSection(b, c, info, data);
      EditedSize(b, c, info, data);
    }
  }

  lemma EditedSize(b: seq<byte>, c: seq<byte>, info: PeInfo, data: seq<byte>)
    requires Edited(b, c, info, data)
    ensures |c| == NewPtr(b, info) + AlignUp(|data|, info.fileAlignment)
    ensures |b| <= NewPtr(b, info) && |data| <= AlignUp(|data|, info.fileAlignment)
    ensures c[NewPtr(b, info)..NewPtr(b, info) + |data|] == data
  {
  }

  /** Every address that led to bytes before leads to the same offset now. */
  lemma {:induction false} OldAddresses(b: seq<byte>, c: seq<byte>, info: PeInfo, after: PeInfo, data: seq<byte>,
                                        rva: nat, len: nat, i: nat)
    requires WellFormed(b, info) && Edited(b, c, info, data)
    requires after.headers == info.headers && after.sections == info.sections + 1
    requires FindSection(b, info, rva, len, i).Ok?
    ensures FindSection(c, after, rva, len, i) == FindSection(b, info, rva, len, i)
    ensures i <= info.sections
    decreases info.sections - i
  {
    hide WellFormed, Edited, NewRva, SectionAt;
    EditedParts(b, c, info, data);
    SectionKept(b, c, info, data, i);
    SameTable(c, info, after, i);
    var s := SectionAt(b, info, i).value;
    if !(s.va <= rva < SaturatingAdd(s.va, Span(s))) {
      OldAddresses(b, c, info, after, data, rva, len, i + 1);
    }
  }

  lemma SameTable(c: seq<byte>, info: PeInfo, after: PeInfo, i: nat)
    requires after.headers == info.headers
    ensures SectionAt(c, after, i) == SectionAt(c, info, i)
  {
  }

  /** Every section's data lies past the new header's slot. */
  predicate DataPastHeaders(b: seq<byte>, info: PeInfo) {
    forall i :: 0 <= i < info.sections && SectionAt(b, info, i).Ok? ==>
      SectionAt(b, info, i).value.raw == 0 || NewHeaderSlot(info) + 40 <= SectionAt(b, info, i).value.ptr
  }

  /** Then bytes a section holds lie where nothing was rewritten. */
  lemma {:induction false} FoundPastHeaders(b: seq<byte>, info: PeInfo, rva: nat, len: nat, i: nat)
    requires DataPastHeaders(b, info) && 0 < len
    requires FindSection(b, info, rva, len, i).Ok?
    ensures NewHeaderSlot(info) + 40 <= FindSection(b, info, rva, len, i).value
    decreases info.sections - i
  {
    hide SectionAt;
    var s := SectionAt(b, info, i).value;
    if !(s.va <= rva < SaturatingAdd(s.va, Span(s))) {
      FoundPastHeaders(b, info, rva, len, i + 1);
    }
  }

  /** Appending the section is an edit around the rest of the image: every address that led to bytes still
      leads to the same offset, and to the same bytes unless they are some that the edit rewrites, which is
      never so when the sections' data lies past the headers. */
  lemma OldBytesStay(b: seq<byte>, c: seq<byte>, info: PeInfo, data: seq<byte>, rva: nat, len: nat)
    requires WellFormed(b, info) && Edited(b, c, info, data)
    requires NewRva(b, info) < 0x1_0000_0000 && |data| < 0x1_0000_0000
    requires RvaToOffset(b, info, rva, len).Ok?
    ensures var off := RvaToOffset(b, info, rva, len).value;
      && Parse(c) == Ok(NewInfo(b, info, data))
      && RvaToOffset(c, Parse(c).value, rva, len) == Ok(off)
      && off + len <= |b| <= |c|
      && (forall k :: off <= k < off + len && !Rewritten(info, k) ==> c[k] == b[k])
      && (DataPastHeaders(b, info) ==> c[off..off + len] == b[off..off + len])
  {
    hide Parse, WellFormed, Edited, NewRva, FindSection, DataPastHeaders;
    WellFormedParts(b, info);
    EditedParses(b, c, info, data);
    EditedParts(b, c, info, data);
    OldAddresses(b, c, info, Parse(c).value, data, rva, len, 0);
    FoundInFile(b, info, rva, len, 0);
    EditKeeps(b, c, info, data);
    var off := RvaToOffset(b, info, rva, len).value;
    if 0 < len && DataPastHeaders(b, info) {
      FoundPastHeaders(b, info, rva, len, 0);
      SlotIsLast(info);
      assert c[off..off + len] == b[off..off + len];
    }
  }

  lemma EditKeeps(b: seq<byte>, c: seq<byte>, info: PeInfo, data: seq<byte>)
    requires Edited(b, c, info, data)
    ensures |b| <= |c| && forall k :: 0 <= k < |b| && !Rewritten(info, k) ==> c[k] == b[k]
  {
  }

  /** Nothing past the new header's slot is rewritten. */
  lemma SlotIsLast(info: PeInfo)
    requires ResourceSlot(info.pe, info.plus) + 8 <= info.headers
    ensures forall k :: NewHeaderSlot(info) + 40 <= k ==> !Rewritten(info, k)
  {
  }

  lemma {:induction false} FoundInFile(b: seq<byte>, info: PeInfo, rva: nat, len: nat, i: nat)
    requires FindSection(b, info, rva, len, i).Ok?
    ensures FindSection(b, info, rva, len, i).value + len <= |b|
    decreases info.sections - i
  {
    hide SectionAt;
    var s := SectionAt(b, info, i).value;
    if !(s.va <= rva < SaturatingAdd(s.va, Span(s))) {
      FoundInFile(b, info, rva, len, i + 1);
    }
  }

  // ---------------------------------------------------------------------------------------------
  // The tree read back
  // ---------------------------------------------------------------------------------------------

  /** The reader's limits: four levels of directories and 8192 entries in all. */
  predicate Readable(root: ResDir) {
    TallyOf(root, LEVELS).shallow && TallyOf(root, LEVELS).entries <= MAX_RES_ENTRIES
  }

  lemma NewSectionMapped(b: seq<byte>, c: seq<byte>, info: PeInfo, after: PeInfo, data: seq<byte>)
    requires WellFormed(b, info) && Edited(b, c, info, data) && SizesFit(b, info, |data|)
    requires after.headers == info.headers && after.sections == info.sections + 1
    ensures Mapped(c, after, NewPtr(b, info), data, NewRva(b, info))
  {
    hide WellFormed, Edited, NewPtr, NewRva, FindSection;
    EditedSize(b, c, info, data);
    forall at: nat, len: nat | 0 < len && at + len <= |data|
      ensures Leads(c, after, NewRva(b, info), NewPtr(b, info), at, len)
    {
      NewAddresses(b, c, info, after, data, at, len, 0);
    }
  }

  /** The new section on its own: reading the directory at its start gives the tree in the loader's order,
      exactly when the tree is within the reader's limits. */
  lemma SectionReadBack(b: seq<byte>, c: seq<byte>, info: PeInfo, after: PeInfo, data: seq<byte>, root: ResDir)
    requires WellFormed(b, info) && Edited(b, c, info, data) && SizesFit(b, info, |data|)
    requires after.headers == info.headers && after.sections == info.sections + 1
    requires Fits(root, NewRva(b, info)) && Serialized(data, root, NewRva(b, info))
    ensures var r := ParseDir(c, after, NewPtr(b, info), 0, 0, MAX_RES_ENTRIES);
      && (r.Ok? <==> Readable(root))
      && (r.Ok? ==> r.value.0 == Sorted(root))
  {
    hide WellFormed, Edited, DirAt, TallyOf, ParseDir, NewPtr, NewRva, Mapped, Sorted;
    NewSectionMapped(b, c, info, after, data);
    SortedTally(root, LEVELS);
    DirReadBack(c, after, NewPtr(b, info), data, NewRva(b, info), Sorted(root), Start(TallyOf(root, LEVELS)), 0,
      MAX_RES_ENTRIES);
  }

  lemma SectionHasRoot(root: ResDir)
    ensures SectionSize(TallyOf(root, LEVELS)) >= 16
  {
    hide TallyAll;
  }

  /** Parsing undoes serializing, in the image as a whole, exactly when the image has a data directory 2
      and some section before the new one (otherwise it is read as having no resources) and the tree is
      within the reader's limits. */
  lemma TreeReadBack(b: seq<byte>, c: seq<byte>, info: PeInfo, data: seq<byte>, root: ResDir)
    requires WellFormed(b, info) && FitsImage(b, info, root)
    requires Serialized(data, root, NewRva(b, info)) && Edited(b, c, info, data)
    ensures if HasResourceSlot(b, info) && NewRva(b, info) > 0
            then (ParseTree(c).Ok? <==> Readable(root)) && (Readable(root) ==> ParseTree(c) == Ok(Sorted(root)))
            else ParseTree(c) == Ok(ResDir([]))
  {
    hide WellFormed, Edited, DirAt, TallyOf, ParseDir, Parse, NewPtr, NewRva, Readable, HasResourceSlot, FindSection;
    SectionHasRoot(root);
    EditedParses(b, c, info, data);
    var after := NewInfo(b, info, data);
    if HasResourceSlot(b, info) && NewRva(b, info) > 0 {
      NewAddresses(b, c, info, after, data, 0, 16, 0);
      SectionReadBack(b, c, info, after, data, root);
    }
  }

  /** The reader's limits apart, the round trip is exact if and only if there is a resource directory to
      point at the new section, or nothing to read. */
  lemma RoundTripIff(b: seq<byte>, c: seq<byte>, info: PeInfo, data: seq<byte>, root: ResDir)
    requires WellFormed(b, info) && FitsImage(b, info, root)
    requires Serialized(data, root, NewRva(b, info)) && Edited(b, c, info, data) && Readable(root)
    ensures ParseTree(c) == Ok(Sorted(root))
       <==> (HasResourceSlot(b, info) && VaEnd(b, info, info.sections) > 0) || root.entries == []
  {
    hide WellFormed, Edited, Parse, ParseTree, VaEnd, Readable, HasResourceSlot, TallyOf, DirAt;
    TreeReadBack(b, c, info, data, root);
    SortedEmpty(root);
    AlignedZero(VaEnd(b, info, info.sections), info.sectionAlignment);
  }

  lemma SortedEmpty(root: ResDir)
    ensures Sorted(root) == ResDir([]) <==> root.entries == []
  {
    SortedNodesTally(root.entries, 0);
    SortedPermutes(root);
    TallyPermuted(Sorted(root).entries, SortedNodes(root.entries), 0);
  }

  lemma AlignedZero(v: nat, a: nat)
    ensures AlignUp(v, a) == 0 <==> v == 0
  {
    if v == 0 && a > 0 {
      assert (a - 1) / a == 0;
    }
  }
}
