/**
 What the format says of an executable, byte by byte, as a reference: the headers that are read, the tree that comes
 out of them, and the bytes that an edit leaves. Offsets are those of the Microsoft PE Format specification, counted
 from the PE signature.
 */
module PeFormat {
  import opened Wrappers
  import opened PeBytes
  import opened PeTree
  import opened PeWrite
  import opened PeParse
  import opened PeAppend
  import opened PeImage

  function Short(b: seq<byte>, at: nat): (v: nat)
    requires at + 2 <= |b|
    ensures v < 0x1_0000
  {
    (b[at] as int) + (b[at + 1] as int) * 0x100
  }

  function Long(b: seq<byte>, at: nat): (v: nat)
    requires at + 4 <= |b|
    ensures v < 0x1_0000_0000
  {
    Short(b, at) + Short(b, at + 2) * 0x1_0000
  }

  // ---------------------------------------------------------------------------------------------
  // The headers
  // ---------------------------------------------------------------------------------------------

  /** Where the data directories start: 112 bytes into the 64-bit optional header, 96 into the other. */
  function Directories(pe: nat, plus: bool): nat {
    if plus then pe + 136 else pe + 120
  }

  /** The headers of an executable. Data directory 2 is the third, 8 bytes each; their number stands before them. */
  predicate Described(b: seq<byte>, info: PeInfo) {
    var pe, dirs := info.pe, Directories(info.pe, info.plus);
    && 0x40 <= |b| && dirs <= |b|
    && b[0] == 0x4d && b[1] == 0x5a && Long(b, 0x3c) == pe
    && b[pe] == 0x50 && b[pe + 1] == 0x45 && b[pe + 2] == 0 && b[pe + 3] == 0
    && Short(b, pe + 24) == (if info.plus then 0x20b else 0x10b)
    && info.sections == Short(b, pe + 6) && info.headers == pe + 24 + Short(b, pe + 20)
    && info.sectionAlignment == Long(b, pe + 56) && info.fileAlignment == Long(b, pe + 60)
    && info.sizeOfHeaders == Long(b, pe + 84) && info.subsystem == Short(b, pe + 92)
    && (if Long(b, dirs - 4) > 2
        then dirs + 24 <= |b| && info.resourceRva == Long(b, dirs + 16) && info.resourceSize == Long(b, dirs + 20)
        else info.resourceRva == 0 && info.resourceSize == 0)
    && forall i :: 0 <= i < info.sections ==> info.headers + i * 40 + 8 <= |b|
  }

  lemma FieldsAreLittleEndian(b: seq<byte>, at: nat)
    ensures U16At(b, at) == if at + 2 <= |b| then Ok(Short(b, at)) else Err("PE: truncated header")
    ensures U32At(b, at) == if at + 4 <= |b| then Ok(Long(b, at)) else Err("PE: truncated header")
  {
  }

  lemma Magic(b: seq<byte>, pe: nat)
    ensures StartsWith(b, 0, [0x4d, 0x5a]) <==> 2 <= |b| && b[0] == 0x4d && b[1] == 0x5a
    ensures StartsWith(b, pe, [0x50, 0x45, 0, 0]) <==>
      pe + 4 <= |b| && b[pe] == 0x50 && b[pe + 1] == 0x45 && b[pe + 2] == 0 && b[pe + 3] == 0
  {
    if 2 <= |b| {
      assert b[0..2] == [b[0], b[1]];
    }
    if pe + 4 <= |b| {
      assert b[pe..pe + 4] == [b[pe], b[pe + 1], b[pe + 2], b[pe + 3]];
    }
  }

  /** Parsing reads the headers the format describes, and no others. */
  lemma ParseIsDescribed(b: seq<byte>, info: PeInfo)
    ensures Parse(b) == Ok(info) <==> Described(b, info)
  {
    hide Parse, U16At, U32At, Short, Long, StartsWith;
    ParsedHeaders(b, info);
    Magic(b, info.pe);
    var pe, dirs := info.pe, Directories(info.pe, info.plus);
    FieldsAreLittleEndian(b, 0x3c);
    FieldsAreLittleEndian(b, pe + 6);
    FieldsAreLittleEndian(b, pe + 20);
    FieldsAreLittleEndian(b, pe + 24);
    FieldsAreLittleEndian(b, pe + 56);
    FieldsAreLittleEndian(b, pe + 60);
    FieldsAreLittleEndian(b, pe + 84);
    FieldsAreLittleEndian(b, pe + 92);
    FieldsAreLittleEndian(b, dirs - 4);
    FieldsAreLittleEndian(b, dirs + 16);
    FieldsAreLittleEndian(b, dirs + 20);
  }

  // ---------------------------------------------------------------------------------------------
  // The sections
  // ---------------------------------------------------------------------------------------------

  /** The addresses of section `i` end there: its size in memory or on disk, whichever is more. */
  function EndOf(b: seq<byte>, info: PeInfo, i: nat): nat
    requires info.headers + i * 40 + 24 <= |b|
  {
    var at := info.headers + i * 40;
    var inMemory, onDisk := Long(b, at + 8), Long(b, at + 16);
    Long(b, at + 12) + if inMemory < onDisk then onDisk else inMemory
  }

  /** Past the end of every section, at the next multiple of the alignment after the last of them. */
  predicate Follows(b: seq<byte>, info: PeInfo, rva: nat) {
    && (forall i :: 0 <= i < info.sections ==> info.headers + i * 40 + 24 <= |b| && EndOf(b, info, i) <= rva)
    && (info.sectionAlignment > 0 ==> rva % info.sectionAlignment == 0)
    && (rva > 0 ==> exists i :: 0 <= i < info.sections && rva < EndOf(b, info, i) + info.sectionAlignment + 1)
  }

  lemma SectionFields(b: seq<byte>, info: PeInfo, i: nat)
    requires SectionAt(b, info, i).Ok?
    ensures info.headers + i * 40 + 24 <= |b|
    ensures var s := SectionAt(b, info, i).value; s.va + Span(s) == EndOf(b, info, i)
    ensures var s, at := SectionAt(b, info, i).value, info.headers + i * 40;
      s.vsize == Long(b, at + 8) && s.va == Long(b, at + 12) && s.raw == Long(b, at + 16) && s.ptr == Long(b, at + 20)
  {
    hide Short, Long, U32At;
    var at := info.headers + i * 40;
    FieldsAreLittleEndian(b, at + 8);
    FieldsAreLittleEndian(b, at + 12);
    FieldsAreLittleEndian(b, at + 16);
    FieldsAreLittleEndian(b, at + 20);
  }

  lemma {:induction false} LastEnd(b: seq<byte>, info: PeInfo, n: nat)
    requires n <= info.sections && TableRead(b, info)
    ensures forall i :: 0 <= i < n ==> info.headers + i * 40 + 24 <= |b| && EndOf(b, info, i) <= VaEnd(b, info, n)
    ensures VaEnd(b, info, n) > 0 ==> exists i :: 0 <= i < n && EndOf(b, info, i) == VaEnd(b, info, n)
  {
    hide SectionAt, EndOf;
    if n > 0 {
      LastEnd(b, info, n - 1);
      SectionFields(b, info, n - 1);
      assert VaEnd(b, info, n) == VaEnd(b, info, n - 1) || EndOf(b, info, n - 1) == VaEnd(b, info, n);
    }
  }

  /** The new section stands right after the old ones. */
  lemma NewSectionFollows(b: seq<byte>, info: PeInfo)
    requires TableRead(b, info)
    ensures Follows(b, info, NewRva(b, info))
  {
    hide SectionAt, EndOf, VaEnd, TableRead, AlignUp;
    LastEnd(b, info, info.sections);
    var end, align := VaEnd(b, info, info.sections), info.sectionAlignment;
    AlignUpIsLeast(end, align);
    AlignedZero(end, align);
    forall i | 0 <= i < info.sections ensures EndOf(b, info, i) <= NewRva(b, info) {
    }
  }

  /** `c` is `b` with a section of its own for `data` at the address `rva`, which data directory 2 names. */
  predicate Appended(b: seq<byte>, c: seq<byte>, info: PeInfo, data: seq<byte>, rva: nat) {
    var pe, dir, slot := info.pe, Directories(info.pe, info.plus) + 16, info.headers + info.sections * 40;
    && dir + 8 <= |b| && slot + 40 <= |b| <= |c| && pe + 84 <= |b|
    && Short(c, pe + 6) == info.sections + 1
    && Long(c, dir) == rva && Long(c, dir + 4) == |data|
    && c[slot..slot + 8] == [0x2e, 0x72, 0x73, 0x72, 0x63, 0, 0, 0]
    && Long(c, slot + 8) == |data| && Long(c, slot + 12) == rva
    && (forall k :: slot + 24 <= k < slot + 36 ==> c[k] == 0) && Long(c, slot + 36) == 0x4000_0040
    && Placed(c, info, data, |b|, Long(c, slot + 20), Long(c, slot + 16))
    && Least(Long(c, pe + 80), rva + |data|, info.sectionAlignment)
    && forall k :: 0 <= k < |b| && !InHeaders(k, pe, dir, slot) ==> c[k] == b[k]
  }

  /** The section count, the image's size, the data directory, the new section's header. */
  predicate InHeaders(k: nat, pe: nat, dir: nat, slot: nat) {
    pe + 6 <= k < pe + 8 || pe + 80 <= k < pe + 84 || dir <= k < dir + 8 || slot <= k < slot + 40
  }

  /** The data at the file's end, from a multiple of the file's alignment to another. */
  predicate Placed(c: seq<byte>, info: PeInfo, data: seq<byte>, was: nat, ptr: nat, size: nat) {
    && Least(ptr, was, info.fileAlignment) && Least(size, |data|, info.fileAlignment)
    && |c| == ptr + size && c[ptr..ptr + |data|] == data
  }

  /** The first multiple of `a` from `low` on; with no alignment, `low`. */
  predicate Least(v: nat, low: nat, a: nat) {
    if a == 0 then v == low else v % a == 0 && low <= v < low + a
  }

  lemma AlignUpLeast(v: nat, a: nat)
    ensures Least(AlignUp(v, a), v, a)
  {
    AlignUpIsLeast(v, a);
  }

  lemma HeaderBytes(c: seq<byte>, slot: nat, size: u32, rva: u32, rawSize: u32, rawPtr: u32)
    requires slot + 40 <= |c| && c[slot..slot + 40] == SectionHeader(size, rva, rawSize, rawPtr)
    ensures c[slot..slot + 8] == [0x2e, 0x72, 0x73, 0x72, 0x63, 0, 0, 0]
    ensures Long(c, slot + 8) == size && Long(c, slot + 12) == rva
    ensures Long(c, slot + 16) == rawSize && Long(c, slot + 20) == rawPtr
    ensures (forall k :: slot + 24 <= k < slot + 36 ==> c[k] == 0) && Long(c, slot + 36) == 0x4000_0040
  {
    hide Short, Long, U32At, Le32;
    HeaderFields(c, slot, size, rva, rawSize, rawPtr);
    FieldsAreLittleEndian(c, slot + 8);
    FieldsAreLittleEndian(c, slot + 12);
    FieldsAreLittleEndian(c, slot + 16);
    FieldsAreLittleEndian(c, slot + 20);
    FieldsAreLittleEndian(c, slot + 36);
    var h := c[slot..slot + 40];
    assert h[..8] == c[slot..slot + 8];
    forall k | slot + 24 <= k < slot + 36 ensures c[k] == 0 {
      assert c[k] == h[k - slot];
    }
    assert c[slot + 36..slot + 40] == h[36..40] == Le32(RSRC_CHARACTERISTICS);
    LongReads(c, slot + 36, RSRC_CHARACTERISTICS);
  }

  lemma LongReads(c: seq<byte>, at: nat, v: u32)
    requires at + 4 <= |c| && c[at..at + 4] == Le32(v)
    ensures Long(c, at) == v
  {
    hide Le32;
    Le32Reads(c, at, v);
    FieldsAreLittleEndian(c, at);
  }

  lemma EditedFields(b: seq<byte>, c: seq<byte>, info: PeInfo, data: seq<byte>)
    requires Edited(b, c, info, data) && Described(b, info)
    ensures var pe, dir, slot := info.pe, Directories(info.pe, info.plus) + 16, info.headers + info.sections * 40;
      && slot + 40 <= |b| <= |c| && dir + 8 <= info.headers && pe + 84 <= |b|
      && U16(c, pe + 6) == info.sections + 1 && U32(c, dir) == NewRva(b, info) && U32(c, dir + 4) == |data|
      && U32(c, pe + 80) == AlignUp(NewRva(b, info) + |data|, info.sectionAlignment)
      && c[slot..slot + 40]
          == SectionHeader(|data|, NewRva(b, info), AlignUp(|data|, info.fileAlignment), NewPtr(b, info))
      && |c| == NewPtr(b, info) + AlignUp(|data|, info.fileAlignment)
      && c[NewPtr(b, info)..NewPtr(b, info) + |data|] == data
    ensures var pe, dir, slot := info.pe, Directories(info.pe, info.plus) + 16, info.headers + info.sections * 40;
      forall k :: 0 <= k < |b| && !InHeaders(k, pe, dir, slot) ==> c[k] == b[k]
  {
    hide Short, Long, NewRva, SectionHeader, AlignUp;
  }

  /** The edit leaves the image the format describes: one more section, in the third data directory and in no other. */
  lemma EditIsAppended(b: seq<byte>, c: seq<byte>, info: PeInfo, data: seq<byte>)
    requires Edited(b, c, info, data) && Parse(b) == Ok(info)
    requires NewRva(b, info) < 0x1_0000_0000 && |data| < 0x1_0000_0000
    requires NewPtr(b, info) < 0x1_0000_0000 && AlignUp(|data|, info.fileAlignment) < 0x1_0000_0000
    ensures Appended(b, c, info, data, NewRva(b, info))
  {
    hide Parse, Edited, Described, U16, U32, Short, Long, NewRva, VaEnd, SectionHeader, Least, AlignUp, InHeaders;
    ParseIsDescribed(b, info);
    EditedFields(b, c, info, data);
    var pe, dir, slot := info.pe, Directories(info.pe, info.plus) + 16, info.headers + info.sections * 40;
    FieldsAreLong(c, pe + 6);
    FieldsAreLong(c, pe + 80);
    FieldsAreLong(c, dir);
    FieldsAreLong(c, dir + 4);
    HeaderBytes(c, slot, |data|, NewRva(b, info), AlignUp(|data|, info.fileAlignment), NewPtr(b, info));
    AlignUpLeast(|b|, info.fileAlignment);
    AlignUpLeast(|data|, info.fileAlignment);
    AlignUpLeast(NewRva(b, info) + |data|, info.sectionAlignment);
  }

  lemma FieldsAreLong(b: seq<byte>, at: nat)
    ensures at + 2 <= |b| ==> U16(b, at) == Short(b, at)
    ensures at + 4 <= |b| ==> U32(b, at) == Long(b, at)
  {
  }

  // ---------------------------------------------------------------------------------------------
  // Addresses
  // ---------------------------------------------------------------------------------------------

  /** The header of section `i` can be read. */
  predicate HasHeader(b: seq<byte>, info: PeInfo, i: nat) {
    info.headers + i * 40 + 24 <= |b|
  }

  /** The address is one of section `i`; none goes past the last address there is. */
  predicate IsOf(b: seq<byte>, info: PeInfo, i: nat, rva: nat) {
    && HasHeader(b, info, i) && Long(b, info.headers + i * 40 + 12) <= rva
    && rva < EndOf(b, info, i) && rva < 0xffff_ffff
  }

  /** `len` bytes from an address on stand at `off` in the file: in the data on disk of the first section, from the
      `n`-th on, that the address is of. */
  predicate Maps(b: seq<byte>, info: PeInfo, n: nat, rva: nat, len: nat, off: nat) {
    exists i :: n <= i < info.sections && IsOf(b, info, i, rva)
      && (forall j :: n <= j < i ==> HasHeader(b, info, j) && !IsOf(b, info, j, rva))
      && OnDisk(b, info.headers + i * 40, rva, len, off)
  }

  predicate OnDisk(b: seq<byte>, header: nat, rva: nat, len: nat, off: nat)
    requires header + 24 <= |b|
  {
    var inside := rva - Long(b, header + 12);
    inside + len <= Long(b, header + 16) && off == Long(b, header + 20) + inside && off + len <= |b|
  }

  lemma HeaderIsRead(b: seq<byte>, info: PeInfo, i: nat)
    ensures SectionAt(b, info, i).Ok? <==> HasHeader(b, info, i)
  {
  }

  /** An address is looked up in the first section it is of. */
  lemma {:induction false} LookupIsMap(b: seq<byte>, info: PeInfo, rva: nat, len: nat, n: nat, off: nat)
    ensures FindSection(b, info, rva, len, n) == Ok(off) <==> Maps(b, info, n, rva, len, off)
    decreases info.sections - n
  {
    hide SectionAt, Long, EndOf;
    if n < info.sections {
      HeaderIsRead(b, info, n);
      if HasHeader(b, info, n) {
        SectionFields(b, info, n);
        if !IsOf(b, info, n, rva) {
          LookupIsMap(b, info, rva, len, n + 1, off);
        }
      }
    }
  }

  // ---------------------------------------------------------------------------------------------
  // The resource tree
  // ---------------------------------------------------------------------------------------------

  /** The directory stands at `at`: two counts, and then an entry every 8 bytes. */
  predicate HoldsDir(b: seq<byte>, info: PeInfo, base: nat, at: nat, d: ResDir)
    decreases d, 1
  {
    && at + 16 <= |b| && |d.entries| == Short(b, at + 12) + Short(b, at + 14)
    && forall i :: 0 <= i < |d.entries| ==> HoldsEntry(b, info, base, at + 16 + 8 * i, d.entries[i])
  }

  /** An entry: its id, or where its name is; and where its directory or its data is. A set top bit says which. */
  predicate HoldsEntry(b: seq<byte>, info: PeInfo, base: nat, slot: nat, e: ResEntry)
    decreases e, 0
  {
    && slot + 8 <= |b| && HoldsKey(b, base, Long(b, slot), e.key)
    && match e.node
       case Dir(sub) =>
         Long(b, slot + 4) >= 0x8000_0000 && HoldsDir(b, info, base, base + Long(b, slot + 4) - 0x8000_0000, sub)
       case Data(bytes, codepage) =>
         Long(b, slot + 4) < 0x8000_0000 && HoldsData(b, info, base + Long(b, slot + 4), bytes, codepage)
  }

  predicate HoldsKey(b: seq<byte>, base: nat, word: nat, key: ResKey) {
    match key
    case Id(id) => word < 0x8000_0000 && id == word
    case Name(units) =>
      && word >= 0x8000_0000
      && var at := base + word - 0x8000_0000;
         && at + 2 + 2 * |units| <= |b| && Short(b, at) == |units|
         && forall j :: 0 <= j < |units| ==> units[j] == Short(b, at + 2 + 2 * j)
  }

  /** Address, size and code page of the bytes. */
  predicate HoldsData(b: seq<byte>, info: PeInfo, at: nat, bytes: seq<byte>, codepage: nat) {
    && at + 12 <= |b| && |bytes| == Long(b, at + 4) && codepage == Long(b, at + 8)
    && exists off :: 0 <= off && off + |bytes| <= |b| && b[off..off + |bytes|] == bytes
         && Maps(b, info, 0, Long(b, at), |bytes|, off)
  }

  lemma {:induction false} UnitsRead(b: seq<byte>, at: nat, n: nat)
    requires ParseUnits(b, at, n).Ok?
    ensures var units := ParseUnits(b, at, n).value;
      |units| == n && (n > 0 ==> at + 2 * n <= |b|)
      && forall j :: 0 <= j < n ==> at + 2 * j + 2 <= |b| && units[j] == Short(b, at + 2 * j)
  {
    hide Short, U16At;
    if n > 0 {
      UnitsRead(b, at, n - 1);
      FieldsAreLittleEndian(b, at + 2 * (n - 1));
    }
  }

  lemma KeyRead(b: seq<byte>, base: nat, word: u32)
    requires ParseKey(b, base, word).Ok?
    ensures HoldsKey(b, base, word, ParseKey(b, base, word).value)
  {
    hide Short, U16At, ParseUnits;
    if word >= TAG {
      var at := base + (word - TAG);
      FieldsAreLittleEndian(b, at);
      UnitsRead(b, at + 2, U16At(b, at).value);
    }
  }

  lemma DataRead(b: seq<byte>, info: PeInfo, at: nat)
    requires ParseData(b, info, at).Ok?
    ensures var node := ParseData(b, info, at).value; node.Data? && HoldsData(b, info, at, node.bytes, node.codepage)
  {
    hide Long, U32At, FindSection, Maps;
    FieldsAreLittleEndian(b, at);
    FieldsAreLittleEndian(b, at + 4);
    FieldsAreLittleEndian(b, at + 8);
    var off := RvaToOffset(b, info, Long(b, at), Long(b, at + 4)).value;
    LookupIsMap(b, info, Long(b, at), Long(b, at + 4), 0, off);
  }

  /** A directory that was read stands there as the format lays it out. */
  lemma {:induction false} DirRead(b: seq<byte>, info: PeInfo, base: nat, off: nat, depth: nat, budget: nat)
    requires ParseDir(b, info, base, off, depth, budget).Ok?
    ensures HoldsDir(b, info, base, base + off, ParseDir(b, info, base, off, depth, budget).value.0)
    decreases LEVELS - depth, 1, 0
  {
    hide Short, U16At, ParseEntries, HoldsEntry;
    var at := base + off;
    FieldsAreLittleEndian(b, at + 12);
    FieldsAreLittleEndian(b, at + 14);
    EntriesRead(b, info, base, at, Short(b, at + 12) + Short(b, at + 14), depth, budget);
  }

  lemma {:induction false} EntriesRead(b: seq<byte>, info: PeInfo, base: nat, at: nat, n: nat, depth: nat, budget: nat)
    requires depth < LEVELS && ParseEntries(b, info, base, at, n, depth, budget).Ok?
    ensures var es := ParseEntries(b, info, base, at, n, depth, budget).value.0;
      |es| == n && forall i :: 0 <= i < n ==> HoldsEntry(b, info, base, at + 16 + 8 * i, es[i])
    decreases LEVELS - depth, 0, n
  {
    hide Long, U32At, ParseKey, ParseNode, HoldsEntry;
    if n > 0 {
      EntriesRead(b, info, base, at, n - 1, depth, budget);
      var before := ParseEntries(b, info, base, at, n - 1, depth, budget).value;
      var slot := at + 16 + 8 * (n - 1);
      FieldsAreLittleEndian(b, slot);
      FieldsAreLittleEndian(b, slot + 4);
      EntryRead(b, info, base, slot, depth, before.1 - 1);
    }
  }

  lemma {:induction false} EntryRead(b: seq<byte>, info: PeInfo, base: nat, slot: nat, depth: nat, budget: nat)
    requires depth < LEVELS && slot + 8 <= |b| && ParseKey(b, base, Long(b, slot)).Ok?
    requires ParseNode(b, info, base, Long(b, slot + 4), depth, budget).Ok?
    ensures var node := ParseNode(b, info, base, Long(b, slot + 4), depth, budget).value.0;
      HoldsEntry(b, info, base, slot, ResEntry(ParseKey(b, base, Long(b, slot)).value, node))
    decreases LEVELS - depth, 0, 0
  {
    hide Long, ParseKey, ParseDir, ParseData, HoldsDir, HoldsData, HoldsKey;
    KeyRead(b, base, Long(b, slot));
    var off := Long(b, slot + 4);
    if off >= TAG {
      DirRead(b, info, base, off - TAG, depth + 1, budget);
    } else {
      DataRead(b, info, base + off);
    }
  }

  /** Whatever image is read: the tree that comes out stands in it as the format lays it out, from where the third
      data directory points; without one, or with nothing in it, there is no tree. */
  lemma TreeIsHeld(b: seq<byte>)
    requires ParseTree(b).Ok?
    ensures Parse(b).Ok? && Described(b, Parse(b).value)
    ensures var info, root := Parse(b).value, ParseTree(b).value;
      var dirs := Directories(info.pe, info.plus);
      if Long(b, dirs - 4) > 2 && Long(b, dirs + 16) > 0 && Long(b, dirs + 20) > 0
      then exists base :: Maps(b, info, 0, Long(b, dirs + 16), 16, base) && HoldsDir(b, info, base, base, root)
      else root == ResDir([])
  {
    hide Parse, ParseDir, FindSection, Short, Long, HoldsDir, Maps;
    var info := Parse(b).value;
    ParseIsDescribed(b, info);
    if info.resourceRva != 0 && info.resourceSize != 0 {
      var base := RvaToOffset(b, info, info.resourceRva, 16).value;
      LookupIsMap(b, info, info.resourceRva, 16, 0, base);
      DirRead(b, info, base, 0, 0, MAX_RES_ENTRIES);
    }
  }

  // ---------------------------------------------------------------------------------------------
  // What is too much for the reader
  // ---------------------------------------------------------------------------------------------

  /** How many directories deep it is, itself included. */
  function Depth(d: ResDir): nat
    decreases d, 1
  {
    1 + DepthIn(d.entries)
  }

  function DepthIn(es: seq<ResEntry>): nat
    decreases es, 0
  {
    if es == [] then 0
    else
      var before, last := DepthIn(es[..|es| - 1]), DepthAt(es[|es| - 1]);
      if last > before then last else before
  }

  function DepthAt(e: ResEntry): nat
    decreases e, 0
  {
    if e.node.Dir? then Depth(e.node.dir) else 0
  }

  /** How many entries it and everything below it have. */
  function EntriesOf(d: ResDir): nat
    decreases d, 1
  {
    EntriesIn(d.entries)
  }

  function EntriesIn(es: seq<ResEntry>): nat
    decreases es, 0
  {
    if es == [] then 0 else EntriesIn(es[..|es| - 1]) + EntriesAt(es[|es| - 1])
  }

  function EntriesAt(e: ResEntry): nat
    decreases e, 0
  {
    if e.node.Dir? then 1 + EntriesOf(e.node.dir) else 1
  }

  lemma {:induction false} CountsOfAll(es: seq<ResEntry>, levels: int)
    ensures TallyAll(es, levels).entries == EntriesIn(es)
    ensures TallyAll(es, levels).shallow <==> DepthIn(es) <= (if levels < 0 then 0 else levels)
    decreases es, 0
  {
    if es != [] {
      CountsOfAll(es[..|es| - 1], levels);
      CountsAt(es[|es| - 1], levels);
    }
  }

  lemma {:induction false} CountsAt(e: ResEntry, levels: int)
    ensures TallyOne(e, levels).entries == EntriesAt(e)
    ensures TallyOne(e, levels).shallow <==> DepthAt(e) <= (if levels < 0 then 0 else levels)
    decreases e, 0
  {
    if e.node.Dir? {
      CountsOf(e.node.dir, levels);
    }
  }

  lemma {:induction false} CountsOf(d: ResDir, levels: int)
    ensures TallyOf(d, levels).entries == EntriesOf(d)
    ensures TallyOf(d, levels).shallow <==> Depth(d) <= levels
    decreases d, 1
  {
    CountsOfAll(d.entries, levels - 1);
  }

  /** The reader takes trees of up to four levels and 8192 entries. */
  lemma ReadableIff(root: ResDir)
    ensures Readable(root) <==> Depth(root) <= 4 && EntriesOf(root) <= 8192
  {
    CountsOf(root, LEVELS);
  }

  /** There is room for a header exactly when it ends within the headers. */
  lemma RoomIff(info: PeInfo)
    ensures Room(info) <==> info.headers + (info.sections + 1) * 40 <= info.sizeOfHeaders
  {
  }

  // ---------------------------------------------------------------------------------------------
  // The order of the entries
  // ---------------------------------------------------------------------------------------------

  /** As in a dictionary of code units. */
  predicate Precedes(a: seq<u16>, b: seq<u16>) {
    a <= b || exists k :: 0 <= k < |a| && k < |b| && a[..k] == b[..k] && a[k] < b[k]
  }

  lemma {:induction false} ByCodeUnits(a: seq<u16>, b: seq<u16>)
    ensures UnitsLe(a, b) <==> Precedes(a, b)
  {
    if a != [] && b != [] && a[0] == b[0] {
      ByCodeUnits(a[1..], b[1..]);
      assert a == [a[0]] + a[1..] && b == [b[0]] + b[1..];
      if k :| 0 <= k < |a[1..]| && k < |b[1..]| && a[1..][..k] == b[1..][..k] && a[1..][k] < b[1..][k] {
        assert a[..k + 1] == [a[0]] + a[1..][..k] && b[..k + 1] == [b[0]] + b[1..][..k];
      }
      if k :| 0 <= k < |a| && k < |b| && a[..k] == b[..k] && a[k] < b[k] {
        assert a[1..][..k - 1] == a[..k][1..] && b[1..][..k - 1] == b[..k][1..];
      }
    } else if a != [] && b != [] {
      assert a[..0] == b[..0];
      assert forall k :: 0 < k <= |a| && k <= |b| ==> a[..k][0] == a[0] && b[..k][0] == b[0];
    }
  }

  /** Ordered, the entries with names come first, by name; then those with ids, ascending. */
  lemma OrderedByNameThenId(d: ResDir, i: nat, j: nat)
    requires i < j < |Sorted(d).entries|
    ensures match (Sorted(d).entries[i].key, Sorted(d).entries[j].key)
            case (Name(x), Name(y)) => Precedes(x, y)
            case (Id(x), Id(y)) => x <= y
            case (x, _) => x.Name?
  {
    hide Sorted, Precedes, UnitsLe;
    SortedIsOrdered(d);
    var x, y := Sorted(d).entries[i].key, Sorted(d).entries[j].key;
    assert KeyLe(x, y);
    if x.Name? && y.Name? {
      ByCodeUnits(x.units, y.units);
    }
  }
}
