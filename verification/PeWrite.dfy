/**
 Writing a resource tree as the contents of a section: directories first, then data entries, then
 names, then data, filled by four cursors that move at once.
 */
module PeWrite {
  import opened PeBytes
  import opened PeTree

  datatype Cursors = Cursors(dir: nat, entry: nat, name: nat, data: nat)

  /** Where the cursors stand after something adding up to `t` has been written. */
  function Advance(c: Cursors, t: Tally): Cursors {
    Cursors(c.dir + DirSize(t), c.entry + 16 * t.leaves, c.name + t.nameBytes, c.data + t.dataBytes)
  }

  /** Where they stand before entry `i` of a directory begun at `c`: its own header and slots are taken
      from the start. */
  function CursorAt(d: ResDir, c: Cursors, i: nat, levels: int): Cursors
    requires i <= |d.entries|
  {
    var t := TallyAll(d.entries[..i], levels - 1);
    Advance(c, t).(dir := c.dir + 16 + 8 * (|d.entries| - i) + DirSize(t))
  }

  /** After one entry, whose slot belongs to its directory. */
  function AfterEntry(c: Cursors, e: ResEntry, levels: int): Cursors {
    var t := TallyOne(e, levels);
    Advance(c, t).(dir := c.dir + 16 * t.dirs + 8 * (t.entries - 1))
  }

  predicate NotAfter(a: Cursors, b: Cursors) {
    a.dir <= b.dir && a.entry <= b.entry && a.name <= b.name && a.data <= b.data
  }

  /** The four regions between two cursor positions follow one another. */
  predicate Apart(a: Cursors, b: Cursors, size: nat) {
    && NotAfter(a, b)
    && b.dir <= a.entry && b.entry <= a.name && b.name <= a.data && b.data <= size
  }

  /** Byte `k` belongs to what is written between two cursor positions. */
  predicate Owned(k: nat, a: Cursors, b: Cursors) {
    a.dir <= k < b.dir || a.entry <= k < b.entry || a.name <= k < b.name || a.data <= k < b.data
  }

  lemma AfterOne(e: ResEntry, levels: int)
    ensures TallyOne(e, levels).entries >= 1
  {
  }

  lemma CursorSteps(d: ResDir, c: Cursors, i: nat, levels: int)
    requires i < |d.entries|
    ensures CursorAt(d, c, i + 1, levels) == AfterEntry(CursorAt(d, c, i, levels), d.entries[i], levels - 1)
    ensures NotAfter(CursorAt(d, c, i, levels), CursorAt(d, c, i + 1, levels))
  {
    hide TallyAll, TallyOne;
    AfterOne(d.entries[i], levels - 1);
    TallyPrefix(d.entries, i, levels - 1);
  }

  lemma CursorStart(d: ResDir, c: Cursors, levels: int)
    ensures CursorAt(d, c, 0, levels).dir == c.dir + 16 + 8 * |d.entries|
    ensures CursorAt(d, c, 0, levels).entry == c.entry
    ensures CursorAt(d, c, 0, levels).name == c.name
    ensures CursorAt(d, c, 0, levels).data == c.data
  {
    hide TallyAll;
    var none: seq<ResEntry> := [];
    assert d.entries[..0] == none;
    TallyOfNone(none, levels - 1);
  }

  lemma TallyOfNone(es: seq<ResEntry>, levels: int)
    requires es == []
    ensures var t := TallyAll(es, levels);
      t.dirs == 0 && t.entries == 0 && t.leaves == 0 && t.nameBytes == 0 && t.dataBytes == 0
  {
  }

  lemma {:induction false} SlotsCounted(es: seq<ResEntry>, levels: int)
    ensures TallyAll(es, levels).entries >= |es|
  {
    if es != [] {
      SlotsCounted(es[..|es| - 1], levels);
    }
  }

  lemma CursorEnd(d: ResDir, c: Cursors, levels: int)
    ensures CursorAt(d, c, |d.entries|, levels) == Advance(c, TallyOf(d, levels))
  {
    assert d.entries[..|d.entries|] == d.entries;
  }

  lemma {:induction false} CursorMonotone(d: ResDir, c: Cursors, i: nat, j: nat, levels: int)
    requires i <= j <= |d.entries|
    ensures NotAfter(CursorAt(d, c, i, levels), CursorAt(d, c, j, levels))
  {
    if i < j {
      CursorMonotone(d, c, i, j - 1, levels);
      CursorSteps(d, c, j - 1, levels);
    }
  }

  /** Entry `i` is written strictly inside its directory's four regions. */
  lemma CursorWithin(d: ResDir, c: Cursors, i: nat, levels: int)
    requires i < |d.entries|
    ensures NotAfter(c.(dir := c.dir + 16 + 8 * |d.entries|), CursorAt(d, c, i, levels))
    ensures NotAfter(CursorAt(d, c, i, levels), CursorAt(d, c, i + 1, levels))
    ensures NotAfter(CursorAt(d, c, i + 1, levels), Advance(c, TallyOf(d, levels)))
  {
    hide CursorAt, TallyOf, TallyAll;
    CursorStart(d, c, levels);
    CursorEnd(d, c, levels);
    CursorMonotone(d, c, 0, i, levels);
    CursorMonotone(d, c, i, i + 1, levels);
    CursorMonotone(d, c, i + 1, |d.entries|, levels);
  }

  // ---------------------------------------------------------------------------------------------
  // A tree written in a section
  // ---------------------------------------------------------------------------------------------

  function Names(d: ResDir): nat {
    |Filter(d.entries, IsName)|
  }

  predicate NameAt(sec: seq<byte>, units: seq<u16>, at: nat) {
    && at + 2 + 2 * |units| <= |sec|
    && U16(sec, at) == |units|
    && forall j :: 0 <= j < |units| ==> U16(sec, at + 2 + 2 * j) == units[j]
  }

  predicate KeyAt(sec: seq<byte>, key: ResKey, slot: nat, at: nat) {
    slot + 4 <= |sec| &&
    match key
    case Id(id) => U32(sec, slot) == id
    case Name(units) => U32(sec, slot) == TAG + at && NameAt(sec, units, at)
  }

  predicate DataAt(sec: seq<byte>, bytes: seq<byte>, codepage: u32, c: Cursors, base: nat) {
    && c.entry + 16 <= |sec| && c.data + |bytes| <= |sec|
    && sec[c.data..c.data + |bytes|] == bytes
    && U32(sec, c.entry) == base + c.data
    && U32(sec, c.entry + 4) == |bytes|
    && U32(sec, c.entry + 8) == codepage
  }

  predicate EntryAt(sec: seq<byte>, e: ResEntry, slot: nat, c: Cursors, base: nat, levels: int)
    decreases e, 0
  {
    && slot + 8 <= |sec|
    && KeyAt(sec, e.key, slot, c.name)
    && var c' := AfterKey(c, e.key);
    match e.node
    case Dir(sub) => U32(sec, slot + 4) == TAG + c.dir && DirAt(sec, sub, c', base, levels)
    case Data(bytes, codepage) => U32(sec, slot + 4) == c.entry && DataAt(sec, bytes, codepage, c', base)
  }

  predicate DirAt(sec: seq<byte>, d: ResDir, c: Cursors, base: nat, levels: int)
    decreases d, 0
  {
    && c.dir + 16 + 8 * |d.entries| <= |sec|
    && U16(sec, c.dir + 12) == Names(d)
    && U16(sec, c.dir + 14) == |d.entries| - Names(d)
    && forall i :: 0 <= i < |d.entries| ==>
      EntryAt(sec, d.entries[i], c.dir + 16 + 8 * i, CursorAt(d, c, i, levels), base, levels - 1)
  }

  /** Two sections agree on what is written between two cursor positions. */
  predicate Same(sec: seq<byte>, tec: seq<byte>, a: Cursors, b: Cursors) {
    |sec| == |tec| && forall k :: 0 <= k < |sec| && Owned(k, a, b) ==> sec[k] == tec[k]
  }

  lemma NameKept(sec: seq<byte>, tec: seq<byte>, units: seq<u16>, at: nat)
    requires NameAt(sec, units, at)
    requires |sec| == |tec| && forall k :: at <= k < at + 2 + 2 * |units| ==> sec[k] == tec[k]
    ensures NameAt(tec, units, at)
  {
    forall j | 0 <= j < |units| ensures U16(tec, at + 2 + 2 * j) == units[j] {
      FieldsAgree(sec, tec, at + 2 + 2 * j);
    }
  }

  /** The cursors once the key of an entry is written. */
  function AfterKey(c: Cursors, key: ResKey): Cursors {
    c.(name := c.name + TallyKey(key).nameBytes)
  }

  lemma EntrySize(e: ResEntry, c: Cursors, levels: int)
    ensures e.node.Dir? ==> AfterEntry(c, e, levels) == Advance(AfterKey(c, e.key), TallyOf(e.node.dir, levels))
    ensures e.node.Data? ==>
      AfterEntry(c, e, levels)
        == Cursors(c.dir, c.entry + 16, AfterKey(c, e.key).name, c.data + Align8(|e.node.bytes|))
    ensures NotAfter(c, AfterEntry(c, e, levels))
  {
  }

  /** An entry reads only its slot and what its cursors went over. */
  lemma {:induction false} EntryKept(sec: seq<byte>, tec: seq<byte>, e: ResEntry, slot: nat, c: Cursors, base: nat,
                                     levels: int)
    requires EntryAt(sec, e, slot, c, base, levels)
    requires Same(sec, tec, c, AfterEntry(c, e, levels))
    requires forall k :: slot <= k < slot + 8 ==> sec[k] == tec[k]
    ensures EntryAt(tec, e, slot, c, base, levels)
    decreases e, 0
  {
    hide DirAt, TallyOf, U16, U32;
    EntrySize(e, c, levels);
    var c' := AfterKey(c, e.key);
    FieldsAgree(sec, tec, slot);
    FieldsAgree(sec, tec, slot + 4);
    if e.key.Name? {
      assert forall k :: c.name <= k < c'.name ==> Owned(k, c, AfterEntry(c, e, levels));
      NameKept(sec, tec, e.key.units, c.name);
    }
    if e.node.Dir? {
      var sub := e.node.dir;
      assert forall k :: Owned(k, c', Advance(c', TallyOf(sub, levels))) ==> Owned(k, c, AfterEntry(c, e, levels));
      DirKept(sec, tec, sub, c', base, levels);
    } else {
      var bytes := e.node.bytes;
      assert forall k :: c.entry <= k < c.entry + 16 ==> Owned(k, c, AfterEntry(c, e, levels));
      assert forall k :: c.data <= k < c.data + |bytes| ==> Owned(k, c, AfterEntry(c, e, levels));
      FieldsAgree(sec, tec, c.entry);
      FieldsAgree(sec, tec, c.entry + 4);
      FieldsAgree(sec, tec, c.entry + 8);
      assert tec[c.data..c.data + |bytes|] == sec[c.data..c.data + |bytes|];
    }
  }

  lemma SameInside(sec: seq<byte>, tec: seq<byte>, a: Cursors, b: Cursors, c: Cursors, d: Cursors)
    requires Same(sec, tec, a, d) && NotAfter(a, b) && NotAfter(c, d)
    ensures Same(sec, tec, b, c)
  {
    assert forall k :: Owned(k, b, c) ==> Owned(k, a, d);
  }

  /** A directory's header and slots lie in what its cursors went over. */
  lemma HeaderOwned(sec: seq<byte>, tec: seq<byte>, d: ResDir, c: Cursors, levels: int)
    requires Same(sec, tec, c, Advance(c, TallyOf(d, levels))) && c.dir + 16 + 8 * |d.entries| <= |sec|
    ensures AgreeOn(sec, tec, c.dir, c.dir + 16 + 8 * |d.entries|)
  {
    SlotsCounted(d.entries, levels - 1);
    var end := Advance(c, TallyOf(d, levels));
    assert c.dir + 16 + 8 * |d.entries| <= end.dir;
    forall k | c.dir <= k < c.dir + 16 + 8 * |d.entries| ensures sec[k] == tec[k] {
      assert Owned(k, c, end);
    }
  }

  /** So does each of its entries. */
  lemma EntryOwned(sec: seq<byte>, tec: seq<byte>, d: ResDir, c: Cursors, i: nat, levels: int)
    requires Same(sec, tec, c, Advance(c, TallyOf(d, levels))) && i < |d.entries|
    ensures Same(sec, tec, CursorAt(d, c, i, levels), AfterEntry(CursorAt(d, c, i, levels), d.entries[i], levels - 1))
  {
    CursorWithin(d, c, i, levels);
    CursorSteps(d, c, i, levels);
    SameInside(sec, tec, c, CursorAt(d, c, i, levels), CursorAt(d, c, i + 1, levels), Advance(c, TallyOf(d, levels)));
  }

  lemma {:induction false} DirKept(sec: seq<byte>, tec: seq<byte>, d: ResDir, c: Cursors, base: nat, levels: int)
    requires DirAt(sec, d, c, base, levels)
    requires Same(sec, tec, c, Advance(c, TallyOf(d, levels)))
    ensures DirAt(tec, d, c, base, levels)
    decreases d, 0
  {
    hide EntryAt, CursorAt, AfterEntry, TallyOf, Advance, Owned, U16;
    HeaderOwned(sec, tec, d, c, levels);
    FieldsAgree(sec, tec, c.dir + 12);
    FieldsAgree(sec, tec, c.dir + 14);
    forall i | 0 <= i < |d.entries|
      ensures EntryAt(tec, d.entries[i], c.dir + 16 + 8 * i, CursorAt(d, c, i, levels), base, levels - 1)
    {
      EntryOwned(sec, tec, d, c, i, levels);
      EntryKept(sec, tec, d.entries[i], c.dir + 16 + 8 * i, CursorAt(d, c, i, levels), base, levels - 1);
    }
  }

  // ---------------------------------------------------------------------------------------------
  // Writing
  // ---------------------------------------------------------------------------------------------

  /** Nothing outside what the cursors went over changed. */
  predicate OnlyOwned(sec: seq<byte>, tec: seq<byte>, a: Cursors, b: Cursors) {
    |sec| == |tec| && forall k :: 0 <= k < |sec| && !Owned(k, a, b) ==> sec[k] == tec[k]
  }

  /** Offsets fit in 31 bits and RVAs in 32. */
  predicate Addressable(end: Cursors, base: nat) {
    end.name <= TAG && base + end.data <= 0x1_0000_0000
  }

  /** `copy_from_slice`. */
  method Put(out: array<byte>, at: nat, x: seq<byte>)
    requires at + |x| <= out.Length
    modifies out
    ensures out[..] == Patch(old(out[..]), at, x)
  {
    for i := 0 to |x|
      invariant forall k :: 0 <= k < out.Length ==> out[k] == if at <= k < at + i then x[k - at] else old(out[k])
    {
      out[at + i] := x[i];
    }
    PatchReads(old(out[..]), at, x);
  }

  predicate UnitsUpTo(sec: seq<byte>, units: seq<u16>, at: nat, n: nat) {
    && n <= |units| && at + 2 + 2 * |units| <= |sec|
    && U16(sec, at) == |units|
    && forall j :: 0 <= j < n ==> U16(sec, at + 2 + 2 * j) == units[j]
  }

  lemma UnitNext(sec: seq<byte>, tec: seq<byte>, units: seq<u16>, at: nat, n: nat)
    requires n < |units| && UnitsUpTo(sec, units, at, n)
    requires tec == Patch(sec, at + 2 + 2 * n, Le16(units[n]))
    ensures UnitsUpTo(tec, units, at, n + 1)
  {
    PatchReads(sec, at + 2 + 2 * n, Le16(units[n]));
    Le16Reads(tec, at + 2 + 2 * n, units[n]);
    FieldsAgree(sec, tec, at);
    forall j | 0 <= j < n ensures U16(tec, at + 2 + 2 * j) == units[j] {
      FieldsAgree(sec, tec, at + 2 + 2 * j);
    }
  }

  lemma NoUnitYet(sec: seq<byte>, tec: seq<byte>, units: seq<u16>, at: nat)
    requires |units| < 0x1_0000 && at + 2 + 2 * |units| <= |sec| && tec == Patch(sec, at, Le16(|units|))
    ensures UnitsUpTo(tec, units, at, 0)
  {
    PatchReads(sec, at, Le16(|units|));
    Le16Reads(tec, at, |units|);
  }

  lemma EveryUnit(sec: seq<byte>, units: seq<u16>, at: nat)
    requires UnitsUpTo(sec, units, at, |units|)
    ensures NameAt(sec, units, at)
  {
  }

  /** Nothing outside `[lo, hi)` changed. */
  predicate OnlyWithin(sec: seq<byte>, tec: seq<byte>, lo: nat, hi: nat) {
    |sec| == |tec| && forall k :: 0 <= k < |sec| && !(lo <= k < hi) ==> sec[k] == tec[k]
  }

  lemma PatchWithin(was: seq<byte>, sec: seq<byte>, at: nat, x: seq<byte>, lo: nat, hi: nat)
    requires OnlyWithin(was, sec, lo, hi) && lo <= at && at + |x| <= hi <= |sec|
    ensures OnlyWithin(was, Patch(sec, at, x), lo, hi)
  {
    PatchReads(sec, at, x);
  }

  method WriteName(units: seq<u16>, out: array<byte>, at: nat)
    requires |units| < 0x1_0000 && at + 2 + 2 * |units| <= out.Length
    modifies out
    ensures NameAt(out[..], units, at)
    ensures OnlyWithin(old(out[..]), out[..], at, at + 2 + 2 * |units|)
  {
    hide UnitsUpTo, NameAt, Patch;
    ghost var was := out[..];
    PatchWithin(was, was, at, Le16(|units|), at, at + 2 + 2 * |units|);
    Put(out, at, Le16(|units|));
    NoUnitYet(was, out[..], units, at);
    for j := 0 to |units|
      invariant UnitsUpTo(out[..], units, at, j)
      invariant OnlyWithin(was, out[..], at, at + 2 + 2 * |units|)
    {
      ghost var before := out[..];
      PatchWithin(was, before, at + 2 + 2 * j, Le16(units[j]), at, at + 2 + 2 * |units|);
      Put(out, at + 2 + 2 * j, Le16(units[j]));
      UnitNext(before, out[..], units, at, j);
    }
    EveryUnit(out[..], units, at);
  }

  /** The cursors once a leaf is written. */
  function AfterData(c: Cursors, bytes: seq<byte>): Cursors {
    c.(entry := c.entry + 16, data := c.data + Align8(|bytes|))
  }

  method WriteDataEntry(out: array<byte>, at: nat, rva: u32, size: u32, codepage: u32)
    requires at + 16 <= out.Length
    modifies out
    ensures U32(out[..], at) == rva && U32(out[..], at + 4) == size && U32(out[..], at + 8) == codepage
    ensures OnlyWithin(old(out[..]), out[..], at, at + 16)
  {
    ghost var s0 := out[..];
    Put(out, at, Le32(rva));
    ghost var s1 := out[..];
    PatchReads(s0, at, Le32(rva));
    Le32Reads(s1, at, rva);
    Put(out, at + 4, Le32(size));
    ghost var s2 := out[..];
    PatchReads(s1, at + 4, Le32(size));
    Le32Reads(s2, at + 4, size);
    FieldsAgree(s1, s2, at);
    Put(out, at + 8, Le32(codepage));
    PatchReads(s2, at + 8, Le32(codepage));
    Le32Reads(out[..], at + 8, codepage);
    FieldsAgree(s2, out[..], at);
    FieldsAgree(s2, out[..], at + 4);
  }

  method WriteData(bytes: seq<byte>, codepage: u32, out: array<byte>, c: Cursors, base: nat) returns (c': Cursors)
    requires Apart(c, AfterData(c, bytes), out.Length) && Addressable(AfterData(c, bytes), base) && 0 < |bytes|
    modifies out
    ensures c' == AfterData(c, bytes)
    ensures DataAt(out[..], bytes, codepage, c, base)
    ensures OnlyOwned(old(out[..]), out[..], c, c')
  {
    c' := AfterData(c, bytes);
    ghost var s0 := out[..];
    Put(out, c.data, bytes);
    ghost var s1 := out[..];
    PatchReads(s0, c.data, bytes);
    WriteDataEntry(out, c.entry, base + c.data, |bytes|, codepage);
    assert out[..][c.data..c.data + |bytes|] == s1[c.data..c.data + |bytes|];
  }

  /** The two fields of an entry's slot. */
  method PutSlot(out: array<byte>, slot: nat, idField: u32, offField: u32)
    requires slot + 8 <= out.Length
    modifies out
    ensures U32(out[..], slot) == idField && U32(out[..], slot + 4) == offField
    ensures OnlyWithin(old(out[..]), out[..], slot, slot + 8)
  {
    ghost var s0 := out[..];
    Put(out, slot, Le32(idField));
    ghost var s1 := out[..];
    PatchReads(s0, slot, Le32(idField));
    Le32Reads(s1, slot, idField);
    Put(out, slot + 4, Le32(offField));
    PatchReads(s1, slot + 4, Le32(offField));
    Le32Reads(out[..], slot + 4, offField);
    FieldsAgree(s1, out[..], slot);
  }

  method WriteKey(key: ResKey, out: array<byte>, c: Cursors) returns (idField: u32)
    requires TallyKey(key).inFormat && AfterKey(c, key).name <= out.Length && AfterKey(c, key).name <= TAG
    modifies out
    ensures idField == match key case Id(id) => id case Name(_) => TAG + c.name
    ensures key.Name? ==> NameAt(out[..], key.units, c.name)
    ensures OnlyWithin(old(out[..]), out[..], c.name, AfterKey(c, key).name)
  {
    match key {
      case Id(id) =>
        idField := id;
      case Name(units) =>
        WriteName(units, out, c.name);
        idField := TAG + c.name;
    }
  }

  /** Only the slot and what the cursors went over changed. */
  predicate OnlyEntry(sec: seq<byte>, tec: seq<byte>, slot: nat, a: Cursors, b: Cursors) {
    |sec| == |tec| && forall k :: 0 <= k < |sec| && !Owned(k, a, b) && !(slot <= k < slot + 8) ==> sec[k] == tec[k]
  }

  lemma EntryOnly(s0: seq<byte>, s1: seq<byte>, s2: seq<byte>, s3: seq<byte>, slot: nat, c: Cursors, c1: Cursors,
                  c': Cursors)
    requires NotAfter(c, c1) && NotAfter(c1, c') && c1.dir == c.dir && c1.entry == c.entry && c1.data == c.data
    requires OnlyWithin(s0, s1, c.name, c1.name) && OnlyOwned(s1, s2, c1, c') && OnlyWithin(s2, s3, slot, slot + 8)
    ensures OnlyEntry(s0, s3, slot, c, c')
  {
    forall k | 0 <= k < |s0| && !Owned(k, c, c') && !(slot <= k < slot + 8) ensures s0[k] == s3[k] {
      assert !Owned(k, c1, c');
    }
  }

  /** One entry: its name, its node, and then the slot that points to them. */
  method WriteEntry(e: ResEntry, out: array<byte>, slot: nat, c: Cursors, base: nat, ghost levels: int)
    returns (c': Cursors)
    requires TallyOne(e, levels).inFormat
    requires Apart(c, AfterEntry(c, e, levels), out.Length) && Addressable(AfterEntry(c, e, levels), base)
    requires slot + 8 <= c.dir
    modifies out
    ensures c' == AfterEntry(c, e, levels)
    ensures EntryAt(out[..], e, slot, c, base, levels)
    ensures OnlyEntry(old(out[..]), out[..], slot, c, c')
    decreases e, 1
  {
    EntrySize(e, c, levels);
    var c1 := AfterKey(c, e.key);
    ghost var s0 := out[..];
    var idField := WriteKey(e.key, out, c);
    ghost var s1 := out[..];
    var offField: u32;
    match e.node {
      case Dir(sub) =>
        var at;
        at, c' := WriteDir(sub, out, c1, base, levels);
        offField := TAG + at;
      case Data(bytes, codepage) =>
        c' := WriteData(bytes, codepage, out, c1, base);
        offField := c1.entry;
    }
    ghost var s2 := out[..];
    PutSlot(out, slot, idField, offField);
    EntryDone(s1, s2, out[..], e, slot, c, c', base, levels);
    EntryOnly(s0, s1, s2, out[..], slot, c, c1, c');
  }

  /** The key survives the writing of the node, and both the writing of the slot. */
  lemma EntryDone(s1: seq<byte>, s2: seq<byte>, s4: seq<byte>, e: ResEntry, slot: nat, c: Cursors, c': Cursors,
                  base: nat, levels: int)
    requires c' == AfterEntry(c, e, levels) && Apart(c, c', |s1|) && slot + 8 <= c.dir
    requires e.key.Name? ==> NameAt(s1, e.key.units, c.name)
    requires OnlyOwned(s1, s2, AfterKey(c, e.key), c')
    requires OnlyWithin(s2, s4, slot, slot + 8)
    requires e.node.Dir? ==> DirAt(s2, e.node.dir, AfterKey(c, e.key), base, levels)
    requires e.node.Data? ==> DataAt(s2, e.node.bytes, e.node.codepage, AfterKey(c, e.key), base)
    requires U32(s4, slot) == match e.key case Id(id) => id case Name(_) => TAG + c.name
    requires U32(s4, slot + 4) == match e.node case Dir(_) => TAG + c.dir case Data(_, _) => c.entry
    ensures EntryAt(s4, e, slot, c, base, levels)
  {
    hide DirAt, TallyOf, U16, U32;
    EntrySize(e, c, levels);
    var c1 := AfterKey(c, e.key);
    if e.key.Name? {
      forall k | c.name <= k < c1.name ensures s1[k] == s4[k] {
        assert !Owned(k, c1, c');
      }
      NameKept(s1, s4, e.key.units, c.name);
    }
    if e.node.Dir? {
      DirKept(s2, s4, e.node.dir, c1, base, levels);
    } else {
      FieldsAgree(s2, s4, c1.entry);
      FieldsAgree(s2, s4, c1.entry + 4);
      FieldsAgree(s2, s4, c1.entry + 8);
      assert s4[c1.data..c1.data + |e.node.bytes|] == s2[c1.data..c1.data + |e.node.bytes|];
    }
  }

  /** What is written of the directory before entry `i`. */
  ghost predicate DirUpTo(sec: seq<byte>, d: ResDir, c: Cursors, i: nat, base: nat, levels: int) {
    && i <= |d.entries| && c.dir + 16 + 8 * |d.entries| <= |sec|
    && U16(sec, c.dir + 12) == Names(d)
    && U16(sec, c.dir + 14) == |d.entries| - Names(d)
    && forall j :: 0 <= j < i ==>
      EntryAt(sec, d.entries[j], c.dir + 16 + 8 * j, CursorAt(d, c, j, levels), base, levels - 1)
  }

  /** What is written from `b` on, and the slot at `late`, is clear of what was written up to `b`. */
  predicate Clear(a: Cursors, b: Cursors, c: Cursors, d: Cursors, early: nat, late: nat) {
    && NotAfter(a, b) && NotAfter(b, c) && NotAfter(c, d)
    && early + 8 <= late && late + 8 <= a.dir
    && d.dir <= a.entry && d.entry <= a.name && d.name <= a.data
  }

  /** An entry survives the writing of one clear of it. */
  lemma EarlierKept(sec: seq<byte>, tec: seq<byte>, e: ResEntry, early: nat, a: Cursors, late: nat, c: Cursors,
                    d: Cursors,
                    base: nat, levels: int)
    requires Clear(a, AfterEntry(a, e, levels), c, d, early, late)
    requires OnlyEntry(sec, tec, late, c, d)
    requires EntryAt(sec, e, early, a, base, levels)
    ensures EntryAt(tec, e, early, a, base, levels)
  {
    var b := AfterEntry(a, e, levels);
    forall k | 0 <= k < |sec| && Owned(k, a, b) ensures sec[k] == tec[k] {
      assert !Owned(k, c, d);
    }
    forall k | early <= k < early + 8 ensures sec[k] == tec[k] {
      assert !Owned(k, c, d);
    }
    EntryKept(sec, tec, e, early, a, base, levels);
  }

  lemma EntriesClear(d: ResDir, c: Cursors, j: nat, i: nat, size: nat, levels: int)
    requires j < i < |d.entries| && Apart(c, Advance(c, TallyOf(d, levels)), size)
    ensures Clear(CursorAt(d, c, j, levels), AfterEntry(CursorAt(d, c, j, levels), d.entries[j], levels - 1),
                  CursorAt(d, c, i, levels), CursorAt(d, c, i + 1, levels), c.dir + 16 + 8 * j, c.dir + 16 + 8 * i)
  {
    CursorWithin(d, c, i, levels);
    CursorWithin(d, c, j, levels);
    CursorMonotone(d, c, j + 1, i, levels);
    CursorSteps(d, c, j, levels);
  }

  lemma HeaderKept(sec: seq<byte>, tec: seq<byte>, at: nat, late: nat, a: Cursors, b: Cursors)
    requires OnlyEntry(sec, tec, late, a, b) && at + 16 <= |sec| && at + 16 <= late && late + 8 <= a.dir
    requires a.dir <= a.entry <= a.name <= a.data
    ensures U16(tec, at + 12) == U16(sec, at + 12) && U16(tec, at + 14) == U16(sec, at + 14)
  {
    forall k | at <= k < at + 16 ensures sec[k] == tec[k] {
      assert !Owned(k, a, b);
    }
    FieldsAgree(sec, tec, at + 12);
    FieldsAgree(sec, tec, at + 14);
  }

  lemma EarlierInDir(sec: seq<byte>, tec: seq<byte>, d: ResDir, c: Cursors, j: nat, i: nat, base: nat, levels: int)
    requires j < i < |d.entries| && Apart(c, Advance(c, TallyOf(d, levels)), |sec|)
    requires OnlyEntry(sec, tec, c.dir + 16 + 8 * i, CursorAt(d, c, i, levels), CursorAt(d, c, i + 1, levels))
    requires EntryAt(sec, d.entries[j], c.dir + 16 + 8 * j, CursorAt(d, c, j, levels), base, levels - 1)
    ensures EntryAt(tec, d.entries[j], c.dir + 16 + 8 * j, CursorAt(d, c, j, levels), base, levels - 1)
  {
    hide EntryAt, CursorAt, AfterEntry, Advance, OnlyEntry;
    EntriesClear(d, c, j, i, |sec|, levels);
    EarlierKept(sec, tec, d.entries[j], c.dir + 16 + 8 * j, CursorAt(d, c, j, levels), c.dir + 16 + 8 * i,
                CursorAt(d, c, i, levels), CursorAt(d, c, i + 1, levels), base, levels - 1);
  }

  lemma HeaderInDir(sec: seq<byte>, tec: seq<byte>, d: ResDir, c: Cursors, i: nat, levels: int)
    requires i < |d.entries| && Apart(c, Advance(c, TallyOf(d, levels)), |sec|) && c.dir + 16 <= |sec|
    requires OnlyEntry(sec, tec, c.dir + 16 + 8 * i, CursorAt(d, c, i, levels), CursorAt(d, c, i + 1, levels))
    ensures U16(tec, c.dir + 12) == U16(sec, c.dir + 12) && U16(tec, c.dir + 14) == U16(sec, c.dir + 14)
  {
    CursorWithin(d, c, i, levels);
    HeaderKept(sec, tec, c.dir, c.dir + 16 + 8 * i, CursorAt(d, c, i, levels), CursorAt(d, c, i + 1, levels));
  }

  /** Writing entry `i` keeps the header and the entries before it. */
  lemma DirNext(sec: seq<byte>, tec: seq<byte>, d: ResDir, c: Cursors, i: nat, base: nat, levels: int)
    requires i < |d.entries| && DirUpTo(sec, d, c, i, base, levels)
    requires Apart(c, Advance(c, TallyOf(d, levels)), |sec|)
    requires OnlyEntry(sec, tec, c.dir + 16 + 8 * i, CursorAt(d, c, i, levels), CursorAt(d, c, i + 1, levels))
    requires EntryAt(tec, d.entries[i], c.dir + 16 + 8 * i, CursorAt(d, c, i, levels), base, levels - 1)
    requires |sec| == |tec|
    ensures DirUpTo(tec, d, c, i + 1, base, levels)
  {
    hide EntryAt, CursorAt, Advance, OnlyEntry;
    HeaderInDir(sec, tec, d, c, i, levels);
    forall j | 0 <= j < i + 1
      ensures EntryAt(tec, d.entries[j], c.dir + 16 + 8 * j, CursorAt(d, c, j, levels), base, levels - 1)
    {
      if j < i {
        EarlierInDir(sec, tec, d, c, j, i, base, levels);
      }
    }
  }

  /** Each entry has room in its directory's regions. */
  lemma EntryFits(d: ResDir, c: Cursors, i: nat, size: nat, base: nat, levels: int)
    requires i < |d.entries| && TallyOf(d, levels).inFormat
    requires Apart(c, Advance(c, TallyOf(d, levels)), size) && Addressable(Advance(c, TallyOf(d, levels)), base)
    ensures var a := CursorAt(d, c, i, levels);
      var b := AfterEntry(a, d.entries[i], levels - 1);
      && b == CursorAt(d, c, i + 1, levels)
      && Apart(a, b, size) && Addressable(b, base) && c.dir + 16 + 8 * i + 8 <= a.dir
      && NotAfter(c, a) && NotAfter(b, Advance(c, TallyOf(d, levels)))
      && TallyOne(d.entries[i], levels - 1).inFormat
  {
    CursorWithin(d, c, i, levels);
    CursorSteps(d, c, i, levels);
    InFormatPrefix(d, i, levels);
  }

  lemma StillOwned(s0: seq<byte>, sec: seq<byte>, tec: seq<byte>, slot: nat, c: Cursors, a: Cursors, b: Cursors,
                   end: Cursors)
    requires OnlyOwned(s0, sec, c, end) && OnlyEntry(sec, tec, slot, a, b)
    requires NotAfter(c, a) && NotAfter(a, b) && NotAfter(b, end) && c.dir <= slot && slot + 8 <= end.dir
    ensures OnlyOwned(s0, tec, c, end)
  {
    forall k | 0 <= k < |s0| && !Owned(k, c, end) ensures s0[k] == tec[k] {
      assert !Owned(k, a, b);
    }
  }

  lemma NamesAtMost(d: ResDir)
    ensures Names(d) <= |d.entries|
  {
    SplitKeeps(d.entries);
  }

  lemma {:induction false} InFormatPrefix(d: ResDir, i: nat, levels: int)
    requires i < |d.entries| && TallyOf(d, levels).inFormat
    ensures TallyOne(d.entries[i], levels - 1).inFormat
  {
    TallyPrefix(d.entries, i, levels - 1);
  }

  method WriteHeader(d: ResDir, out: array<byte>, c: Cursors)
    requires |d.entries| < 0x1_0000 && c.dir + 16 <= out.Length
    modifies out
    ensures U16(out[..], c.dir + 12) == Names(d) <= |d.entries|
    ensures U16(out[..], c.dir + 14) == |d.entries| - Names(d)
    ensures OnlyWithin(old(out[..]), out[..], c.dir, c.dir + 16)
  {
    NamesAtMost(d);
    var named := Names(d);
    var ids := |d.entries| - named;
    ghost var s0 := out[..];
    Put(out, c.dir + 12, Le16(named));
    ghost var s1 := out[..];
    PatchReads(s0, c.dir + 12, Le16(named));
    Le16Reads(s1, c.dir + 12, named);
    Put(out, c.dir + 14, Le16(ids));
    PatchReads(s1, c.dir + 14, Le16(ids));
    Le16Reads(out[..], c.dir + 14, ids);
    FieldsAgree(s1, out[..], c.dir + 12);
  }

  /** The directory's own header and slots come first, then its entries'. */
  lemma DirFits(d: ResDir, c: Cursors, size: nat, levels: int)
    requires TallyOf(d, levels).inFormat && Apart(c, Advance(c, TallyOf(d, levels)), size)
    ensures |d.entries| < 0x1_0000
    ensures c.dir + 16 + 8 * |d.entries| <= Advance(c, TallyOf(d, levels)).dir <= size
    ensures CursorAt(d, c, 0, levels) == c.(dir := c.dir + 16 + 8 * |d.entries|)
    ensures CursorAt(d, c, |d.entries|, levels) == Advance(c, TallyOf(d, levels))
  {
    SlotsCounted(d.entries, levels - 1);
    CursorStart(d, c, levels);
    CursorEnd(d, c, levels);
  }

  lemma HeaderOnly(sec: seq<byte>, tec: seq<byte>, c: Cursors, end: Cursors)
    requires OnlyWithin(sec, tec, c.dir, c.dir + 16) && c.dir + 16 <= end.dir
    ensures OnlyOwned(sec, tec, c, end)
  {
  }

  /** Writes directory `d` at the cursors: header, then each entry with its name, node and slot. Returns
      where the directory starts and where the cursors end, as `measure` said they would. */
  method WriteDir(d: ResDir, out: array<byte>, c: Cursors, base: nat, ghost levels: int) returns (at: nat, c': Cursors)
    requires TallyOf(d, levels).inFormat
    requires Apart(c, Advance(c, TallyOf(d, levels)), out.Length) && Addressable(Advance(c, TallyOf(d, levels)), base)
    modifies out
    ensures at == c.dir && c' == Advance(c, TallyOf(d, levels))
    ensures DirAt(out[..], d, c, base, levels)
    ensures OnlyOwned(old(out[..]), out[..], c, c')
    decreases d, 1
  {
    hide EntryAt, CursorAt, TallyOf, Advance, OnlyEntry, OnlyOwned;
    ghost var s0, end := out[..], Advance(c, TallyOf(d, levels));
    at := c.dir;
    c' := c.(dir := c.dir + 16 + 8 * |d.entries|);
    DirFits(d, c, out.Length, levels);
    WriteHeader(d, out, c);
    HeaderOnly(s0, out[..], c, end);
    for i := 0 to |d.entries|
      invariant c' == CursorAt(d, c, i, levels)
      invariant DirUpTo(out[..], d, c, i, base, levels)
      invariant OnlyOwned(s0, out[..], c, end)
    {
      ghost var before, a := out[..], c';
      EntryFits(d, c, i, out.Length, base, levels);
      c' := WriteEntry(d.entries[i], out, at + 16 + 8 * i, c', base, levels - 1);
      DirNext(before, out[..], d, c, i, base, levels);
      StillOwned(s0, before, out[..], at + 16 + 8 * i, c, a, c', end);
    }
  }
}
