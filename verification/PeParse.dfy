/**
 Reading an executable: the headers, the map from RVAs to file offsets, and the resource tree behind
 data directory 2.
 */
module PeParse {
  import opened Wrappers
  import opened PeBytes
  import opened PeTree
  import opened PeWrite

  const MAX_RES_ENTRIES := 8192
  /** Directories nest at most this deep: depths 0 to 3. */
  const LEVELS := 4

  datatype PeInfo = PeInfo(pe: nat, plus: bool, sections: nat, headers: nat, sizeOfHeaders: u32,
                           sectionAlignment: u32, fileAlignment: u32, subsystem: u16,
                           resourceRva: u32, resourceSize: u32)

  /** Where the optional header starts. */
  function Opt(pe: nat): nat {
    pe + 24
  }

  /** Where data directory 2, the resources, is described. */
  function ResourceSlot(pe: nat, plus: bool): nat {
    Opt(pe) + (if plus then 112 else 96) + 16
  }

  function DirCountAt(pe: nat, plus: bool): nat {
    Opt(pe) + (if plus then 108 else 92)
  }

  predicate StartsWith(b: seq<byte>, at: nat, x: seq<byte>) {
    at + |x| <= |b| && b[at..at + |x|] == x
  }

  function Parse(b: seq<byte>): Result<PeInfo> {
    if !StartsWith(b, 0, [0x4d, 0x5a]) then Err("not a Windows executable (no MZ header)")
    else
      var pe :- U32At(b, 0x3c);
      if !StartsWith(b, pe, [0x50, 0x45, 0, 0]) then Err("not a PE image (PE signature missing)")
      else
        var sections :- U16At(b, pe + 6);
        var sizeOfOpt :- U16At(b, pe + 20);
        var magic :- U16At(b, Opt(pe));
        if magic != 0x10b && magic != 0x20b then Err("PE: unknown optional header magic")
        else
          var plus := magic == 0x20b;
          var sectionAlignment :- U32At(b, Opt(pe) + 32);
          var fileAlignment :- U32At(b, Opt(pe) + 36);
          var sizeOfHeaders :- U32At(b, Opt(pe) + 60);
          var subsystem :- U16At(b, Opt(pe) + 68);
          var dirs :- U32At(b, DirCountAt(pe, plus));
          var resource :- if dirs > 2 then ResourceAt(b, ResourceSlot(pe, plus)) else Ok((0, 0));
          var headers := Opt(pe) + sizeOfOpt;
          if exists i :: 0 <= i < sections && headers + i * 40 + 8 > |b| then Err("PE: truncated section table")
          else Ok(PeInfo(pe, plus, sections, headers, sizeOfHeaders, sectionAlignment, fileAlignment, subsystem,
                         resource.0, resource.1))
  }

  function ResourceAt(b: seq<byte>, at: nat): Result<(u32, u32)> {
    var rva :- U32At(b, at);
    var size :- U32At(b, at + 4);
    Ok((rva, size))
  }

  datatype Section = Section(vsize: u32, va: u32, raw: u32, ptr: u32)

  function SectionAt(b: seq<byte>, info: PeInfo, i: nat): Result<Section> {
    var at := info.headers + i * 40;
    var vsize :- U32At(b, at + 8);
    var va :- U32At(b, at + 12);
    var raw :- U32At(b, at + 16);
    var ptr :- U32At(b, at + 20);
    Ok(Section(vsize, va, raw, ptr))
  }

  function Span(s: Section): u32 {
    if s.vsize < s.raw then s.raw else s.vsize
  }

  /** `u32::saturating_add`. */
  function SaturatingAdd(a: u32, b: u32): u32 {
    if a + b < 0x1_0000_0000 then a + b else 0xffff_ffff
  }

  /** The first section from `i` on that holds `rva` must hold all `len` bytes in its raw data. */
  function FindSection(b: seq<byte>, info: PeInfo, rva: nat, len: nat, i: nat): Result<nat>
    decreases info.sections - i
  {
    if i >= info.sections then Err("PE: RVA is not inside any section")
    else
      var s :- SectionAt(b, info, i);
      if s.va <= rva < SaturatingAdd(s.va, Span(s)) then
        var rel := rva - s.va;
        if rel + len > s.raw || s.ptr + rel + len > |b| then Err("PE: resource data outside its section")
        else Ok(s.ptr + rel)
      else FindSection(b, info, rva, len, i + 1)
  }

  function RvaToOffset(b: seq<byte>, info: PeInfo, rva: nat, len: nat): Result<nat> {
    FindSection(b, info, rva, len, 0)
  }

  // ---------------------------------------------------------------------------------------------
  // The resource tree
  // ---------------------------------------------------------------------------------------------

  function ParseUnits(b: seq<byte>, at: nat, n: nat): Result<seq<u16>> {
    if n == 0 then Ok([])
    else
      var rest :- ParseUnits(b, at, n - 1);
      var unit :- U16At(b, at + 2 * (n - 1));
      Ok(rest + [unit])
  }

  function ParseKey(b: seq<byte>, base: nat, id: u32): Result<ResKey> {
    if id < TAG then Ok(Id(id))
    else
      var at := base + (id - TAG);
      var len :- U16At(b, at);
      var units :- ParseUnits(b, at + 2, len);
      Ok(Name(units))
  }

  function ParseData(b: seq<byte>, info: PeInfo, at: nat): Result<ResNode> {
    var rva :- U32At(b, at);
    var size :- U32At(b, at + 4);
    var codepage :- U32At(b, at + 8);
    var off :- RvaToOffset(b, info, rva, size);
    if off + size > |b| then Err("PE: truncated header") else Ok(Data(b[off..off + size], codepage))
  }

  /** Reads a directory; the second component is what is left of the budget of entries. */
  function ParseDir(b: seq<byte>, info: PeInfo, base: nat, off: nat, depth: nat, budget: nat): Result<(ResDir, nat)>
    decreases LEVELS - depth, 1, 0
  {
    if depth >= LEVELS then Err("PE: resource tree deeper than 3 levels")
    else
      var at := base + off;
      var named :- U16At(b, at + 12);
      var ids :- U16At(b, at + 14);
      var entries :- ParseEntries(b, info, base, at, named + ids, depth, budget);
      Ok((ResDir(entries.0), entries.1))
  }

  /** The first `n` entries of the directory at `at`. */
  function ParseEntries(b: seq<byte>, info: PeInfo, base: nat, at: nat, n: nat, depth: nat,
                        budget: nat): Result<(seq<ResEntry>, nat)>
    requires depth < LEVELS
    decreases LEVELS - depth, 0, n
  {
    if n == 0 then Ok(([], budget))
    else
      var before :- ParseEntries(b, info, base, at, n - 1, depth, budget);
      if before.1 == 0 then Err("PE: too many resource entries")
      else
        var slot := at + 16 + (n - 1) * 8;
        var id :- U32At(b, slot);
        var off :- U32At(b, slot + 4);
        var key :- ParseKey(b, base, id);
        var node :- ParseNode(b, info, base, off, depth, before.1 - 1);
        Ok((before.0 + [ResEntry(key, node.0)], node.1))
  }

  function ParseNode(b: seq<byte>, info: PeInfo, base: nat, off: u32, depth: nat, budget: nat): Result<(ResNode, nat)>
    requires depth < LEVELS
    decreases LEVELS - depth, 0, 0
  {
    if off >= TAG then
      var sub :- ParseDir(b, info, base, off - TAG, depth + 1, budget);
      Ok((Dir(sub.0), sub.1))
    else
      var data :- ParseData(b, info, base + off);
      Ok((data, budget))
  }

  /** The resource tree, empty when the image has none. */
  function ParseTree(b: seq<byte>): Result<ResDir> {
    var info :- Parse(b);
    if info.resourceRva == 0 || info.resourceSize == 0 then Ok(ResDir([]))
    else
      var base :- RvaToOffset(b, info, info.resourceRva, 16);
      var tree :- ParseDir(b, info, base, 0, 0, MAX_RES_ENTRIES);
      Ok(tree.0)
  }

  // ---------------------------------------------------------------------------------------------
  // Reading back what was written
  // ---------------------------------------------------------------------------------------------

  /** `sec` lies in `b` at `base`, and the RVAs from `rva` on lead to it. */
  ghost predicate Mapped(b: seq<byte>, info: PeInfo, base: nat, sec: seq<byte>, rva: nat) {
    && base + |sec| <= |b| && b[base..base + |sec|] == sec
    && forall at: nat, len: nat :: 0 < len && at + len <= |sec| ==> Leads(b, info, rva, base, at, len)
  }

  predicate Leads(b: seq<byte>, info: PeInfo, rva: nat, base: nat, at: nat, len: nat) {
    RvaToOffset(b, info, rva + at, len) == Ok(base + at)
  }

  lemma SliceIn(b: seq<byte>, base: nat, sec: seq<byte>, lo: nat, hi: nat)
    requires base + |sec| <= |b| && b[base..base + |sec|] == sec && lo <= hi <= |sec|
    ensures b[base + lo..base + hi] == sec[lo..hi]
  {
    var whole, part := b[base..base + |sec|], b[base + lo..base + hi];
    forall k | 0 <= k < |part| ensures part[k] == sec[lo..hi][k] {
      assert whole[lo + k] == b[base + (lo + k)];
      assert part[k] == b[(base + lo) + k];
    }
  }

  lemma FieldsIn(b: seq<byte>, base: nat, sec: seq<byte>, at: nat)
    requires base + |sec| <= |b| && b[base..base + |sec|] == sec
    ensures at + 2 <= |sec| ==> U16At(b, base + at) == Ok(U16(sec, at))
    ensures at + 4 <= |sec| ==> U32At(b, base + at) == Ok(U32(sec, at))
  {
    var whole := b[base..base + |sec|];
    if at + 2 <= |sec| {
      assert whole[at] == b[base + at] && whole[at + 1] == b[base + at + 1];
    }
    if at + 4 <= |sec| {
      assert whole[at + 2] == b[base + at + 2] && whole[at + 3] == b[base + at + 3];
    }
  }

  lemma {:induction false} UnitsReadBack(b: seq<byte>, base: nat, sec: seq<byte>, units: seq<u16>, at: nat, n: nat)
    requires base + |sec| <= |b| && b[base..base + |sec|] == sec
    requires NameAt(sec, units, at) && n <= |units|
    ensures ParseUnits(b, base + at + 2, n) == Ok(units[..n])
  {
    if n > 0 {
      UnitsReadBack(b, base, sec, units, at, n - 1);
      FieldsIn(b, base, sec, at + 2 + 2 * (n - 1));
      assert units[..n] == units[..n - 1] + [units[n - 1]];
    }
  }

  lemma KeyReadBack(b: seq<byte>, base: nat, sec: seq<byte>, key: ResKey, slot: nat, at: nat)
    requires base + |sec| <= |b| && b[base..base + |sec|] == sec
    requires KeyAt(sec, key, slot, at) && TallyKey(key).inFormat
    ensures ParseKey(b, base, U32(sec, slot)) == Ok(key)
  {
    if key.Name? {
      FieldsIn(b, base, sec, at);
      UnitsReadBack(b, base, sec, key.units, at, |key.units|);
      assert key.units[..|key.units|] == key.units;
    }
  }

  lemma DataReadBack(b: seq<byte>, info: PeInfo, base: nat, sec: seq<byte>, rva: nat, bytes: seq<byte>, codepage: u32,
                     c: Cursors)
    requires Mapped(b, info, base, sec, rva)
    requires DataAt(sec, bytes, codepage, c, rva) && 0 < |bytes|
    ensures ParseData(b, info, base + c.entry) == Ok(Data(bytes, codepage))
  {
    hide U32At, RvaToOffset;
    FieldsIn(b, base, sec, c.entry);
    FieldsIn(b, base, sec, c.entry + 4);
    FieldsIn(b, base, sec, c.entry + 8);
    var off := base + c.data;
    assert Leads(b, info, rva, base, c.data, |bytes|);
    SliceIn(b, base, sec, c.data, c.data + |bytes|);
    assert b[off..off + |bytes|] == bytes;
  }

  lemma EntryParts(sec: seq<byte>, e: ResEntry, slot: nat, c: Cursors, base: nat, levels: int)
    requires EntryAt(sec, e, slot, c, base, levels)
    ensures slot + 8 <= |sec| && KeyAt(sec, e.key, slot, c.name)
    ensures e.node.Dir? ==>
      U32(sec, slot + 4) == TAG + c.dir && DirAt(sec, e.node.dir, AfterKey(c, e.key), base, levels)
    ensures e.node.Data? ==>
      U32(sec, slot + 4) == c.entry && c.entry + 16 <= |sec|
      && DataAt(sec, e.node.bytes, e.node.codepage, AfterKey(c, e.key), base)
  {
  }

  lemma TallyParts(e: ResEntry, levels: int)
    ensures var t := TallyOne(e, levels);
      && (t.inFormat ==> TallyKey(e.key).inFormat)
      && (e.node.Dir? ==>
            var s := TallyOf(e.node.dir, levels);
            t.shallow == s.shallow && t.entries == s.entries + 1 && (t.inFormat ==> s.inFormat))
      && (e.node.Data? ==> t.shallow && t.entries == 1 && (t.inFormat ==> 0 < |e.node.bytes|))
  {
  }

  lemma DirParts(sec: seq<byte>, d: ResDir, c: Cursors, base: nat, i: nat, levels: int)
    requires DirAt(sec, d, c, base, levels) && i < |d.entries|
    ensures EntryAt(sec, d.entries[i], c.dir + 16 + 8 * i, CursorAt(d, c, i, levels), base, levels - 1)
  {
  }

  /** A written node is read back, unless it nests deeper or holds more entries than the reader allows. */
  lemma {:induction false} NodeReadBack(b: seq<byte>, info: PeInfo, base: nat, sec: seq<byte>, rva: nat,
                                        e: ResEntry, slot: nat, c: Cursors, depth: nat, budget: nat)
    requires Mapped(b, info, base, sec, rva) && |sec| <= TAG && depth < LEVELS
    requires EntryAt(sec, e, slot, c, rva, LEVELS - depth - 1) && TallyOne(e, LEVELS - depth - 1).inFormat
    ensures slot + 8 <= |sec|
    ensures var t := TallyOne(e, LEVELS - depth - 1);
      var r := ParseNode(b, info, base, U32(sec, slot + 4), depth, budget);
      && (r.Ok? <==> t.shallow && t.entries - 1 <= budget)
      && (r.Ok? ==> r.value == (e.node, budget - (t.entries - 1)))
    decreases e, 0
  {
    hide EntryAt, DirAt, DataAt, KeyAt, TallyOne, TallyOf, TallyKey, ParseDir, ParseData, Mapped;
    EntryParts(sec, e, slot, c, rva, LEVELS - depth - 1);
    TallyParts(e, LEVELS - depth - 1);
    if e.node.Dir? {
      DirReadBack(b, info, base, sec, rva, e.node.dir, AfterKey(c, e.key), depth + 1, budget);
    } else {
      DataReadBack(b, info, base, sec, rva, e.node.bytes, e.node.codepage, AfterKey(c, e.key));
    }
  }

  lemma {:induction false} EntriesReadBack(b: seq<byte>, info: PeInfo, base: nat, sec: seq<byte>, rva: nat,
                                           d: ResDir, c: Cursors, n: nat, depth: nat, budget: nat)
    requires Mapped(b, info, base, sec, rva) && |sec| <= TAG && depth < LEVELS && n <= |d.entries|
    requires DirAt(sec, d, c, rva, LEVELS - depth) && TallyOf(d, LEVELS - depth).inFormat
    ensures var t := TallyAll(d.entries[..n], LEVELS - depth - 1);
      var r := ParseEntries(b, info, base, base + c.dir, n, depth, budget);
      && (r.Ok? <==> t.shallow && t.entries <= budget)
      && (r.Ok? ==> r.value == (d.entries[..n], budget - t.entries))
    decreases d, 0, n
  {
    hide DirAt, TallyOf, Mapped;
    if n > 0 {
      EntriesReadBack(b, info, base, sec, rva, d, c, n - 1, depth, budget);
      EntryReadBack(b, info, base, sec, rva, d, c, n - 1, depth, budget);
    }
  }

  /** What the entries before it and the entry itself count together. */
  lemma EntryCounted(d: ResDir, i: nat, levels: int)
    requires i < |d.entries|
    ensures var t, e := TallyAll(d.entries[..i], levels - 1), d.entries[i];
      var u := TallyAll(d.entries[..i + 1], levels - 1);
      && (u.shallow <==> t.shallow && TallyOne(e, levels - 1).shallow)
      && u.entries == t.entries + TallyOne(e, levels - 1).entries
  {
    TallyPrefix(d.entries, i, levels - 1);
  }

  /** One more entry is read after those before it. */
  lemma {:induction false} EntryReadBack(b: seq<byte>, info: PeInfo, base: nat, sec: seq<byte>, rva: nat,
                                         d: ResDir, c: Cursors, i: nat, depth: nat, budget: nat)
    requires Mapped(b, info, base, sec, rva) && |sec| <= TAG && depth < LEVELS && i < |d.entries|
    requires DirAt(sec, d, c, rva, LEVELS - depth) && TallyOf(d, LEVELS - depth).inFormat
    requires var t := TallyAll(d.entries[..i], LEVELS - depth - 1);
      var r := ParseEntries(b, info, base, base + c.dir, i, depth, budget);
      && (r.Ok? <==> t.shallow && t.entries <= budget)
      && (r.Ok? ==> r.value == (d.entries[..i], budget - t.entries))
    ensures var t := TallyAll(d.entries[..i + 1], LEVELS - depth - 1);
      var r := ParseEntries(b, info, base, base + c.dir, i + 1, depth, budget);
      && (r.Ok? <==> t.shallow && t.entries <= budget)
      && (r.Ok? ==> r.value == (d.entries[..i + 1], budget - t.entries))
    decreases d, 0, i
  {
    hide EntryAt, DirAt, KeyAt, TallyOne, TallyOf, TallyAll, TallyKey, ParseNode, ParseKey, Mapped, CursorAt, U16At,
      U32At;
    var levels := LEVELS - depth;
    var slot, e, at := c.dir + 16 + 8 * i, d.entries[i], CursorAt(d, c, i, levels);
    EntryCounted(d, i, levels);
    InFormatPrefix(d, i, levels);
    TallyParts(e, levels - 1);
    DirParts(sec, d, c, rva, i, levels);
    EntryParts(sec, e, slot, at, rva, levels - 1);
    MappedBytes(b, info, base, sec, rva);
    FieldsIn(b, base, sec, slot);
    FieldsIn(b, base, sec, slot + 4);
    KeyReadBack(b, base, sec, e.key, slot, at.name);
    var t := TallyAll(d.entries[..i], levels - 1);
    if t.shallow && t.entries < budget {
      NodeReadBack(b, info, base, sec, rva, e, slot, at, depth, budget - t.entries - 1);
    }
    assert d.entries[..i + 1] == d.entries[..i] + [e];
  }

  lemma MappedBytes(b: seq<byte>, info: PeInfo, base: nat, sec: seq<byte>, rva: nat)
    requires Mapped(b, info, base, sec, rva)
    ensures base + |sec| <= |b| && b[base..base + |sec|] == sec
  {
  }

  lemma DirHeader(b: seq<byte>, info: PeInfo, base: nat, sec: seq<byte>, rva: nat, d: ResDir, c: Cursors, levels: int)
    requires Mapped(b, info, base, sec, rva) && DirAt(sec, d, c, rva, levels)
    ensures Names(d) <= |d.entries|
    ensures U16At(b, base + c.dir + 12) == Ok(Names(d)) && U16At(b, base + c.dir + 14) == Ok(|d.entries| - Names(d))
  {
    FieldsIn(b, base, sec, c.dir + 12);
    FieldsIn(b, base, sec, c.dir + 14);
    NamesAtMost(d);
  }

  /** A written directory is read back exactly, unless it nests deeper or holds more entries than the
      reader allows. */
  lemma {:induction false} DirReadBack(b: seq<byte>, info: PeInfo, base: nat, sec: seq<byte>, rva: nat,
                                       d: ResDir, c: Cursors, depth: nat, budget: nat)
    requires Mapped(b, info, base, sec, rva) && |sec| <= TAG
    requires DirAt(sec, d, c, rva, LEVELS - depth) && TallyOf(d, LEVELS - depth).inFormat
    ensures var t := TallyOf(d, LEVELS - depth);
      var r := ParseDir(b, info, base, c.dir, depth, budget);
      && (r.Ok? <==> t.shallow && t.entries <= budget)
      && (r.Ok? ==> r.value == (d, budget - t.entries))
    decreases d, 1, 0
  {
    hide DirAt, TallyAll, ParseEntries, Mapped, U16At;
    if depth < LEVELS {
      DirHeader(b, info, base, sec, rva, d, c, LEVELS - depth);
      EntriesReadBack(b, info, base, sec, rva, d, c, |d.entries|, depth, budget);
      assert d.entries[..|d.entries|] == d.entries;
    }
  }
}
