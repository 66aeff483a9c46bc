/**
 Appending a resource section to an executable, and giving it icons: the tree read back afterwards, and
 what of the image stays as it was.
 */
module PeAppend {
  import opened Wrappers
  import opened PeBytes
  import opened PeTree
  import opened PeWrite
  import opened PeParse

  // ---------------------------------------------------------------------------------------------
  // The section's contents
  // ---------------------------------------------------------------------------------------------

  /** The four totals `measure` accumulates. */
  datatype Layout = Layout(dirSize: nat, nData: nat, strSize: nat, dataSize: nat)

  function Grown(l: Layout, t: Tally): Layout {
    Layout(l.dirSize + DirSize(t), l.nData + t.leaves, l.strSize + t.nameBytes, l.dataSize + t.dataBytes)
  }

  /** The layout once the first `i` entries of a directory are measured: all its slots count from the start. */
  function MeasuredUpTo(d: ResDir, l: Layout, i: nat, levels: int): Layout
    requires i <= |d.entries|
  {
    var t := TallyAll(d.entries[..i], levels - 1);
    Layout(l.dirSize + 16 + 8 * (|d.entries| - i) + DirSize(t), l.nData + t.leaves, l.strSize + t.nameBytes,
           l.dataSize + t.dataBytes)
  }

  lemma MeasureStart(d: ResDir, l: Layout, levels: int)
    ensures MeasuredUpTo(d, l, 0, levels).dirSize == l.dirSize + 16 + 8 * |d.entries|
    ensures MeasuredUpTo(d, l, 0, levels).nData == l.nData
    ensures MeasuredUpTo(d, l, 0, levels).strSize == l.strSize
    ensures MeasuredUpTo(d, l, 0, levels).dataSize == l.dataSize
  {
  }

  lemma MeasureStep(d: ResDir, l: Layout, i: nat, levels: int)
    requires i < |d.entries|
    ensures var e := d.entries[i];
      var r := MeasuredUpTo(d, l, i, levels);
      var named := r.(strSize := r.strSize + if e.key.Name? then 2 + 2 * |e.key.units| else 0);
      MeasuredUpTo(d, l, i + 1, levels)
        == if e.node.Dir? then Grown(named, TallyOf(e.node.dir, levels - 1))
           else named.(nData := named.nData + 1, dataSize := named.dataSize + Align8(|e.node.bytes|))
  {
    hide TallyAll, TallyOf;
    TallyPrefix(d.entries, i, levels - 1);
  }

  lemma MeasureEnd(d: ResDir, l: Layout, levels: int)
    ensures MeasuredUpTo(d, l, |d.entries|, levels) == Grown(l, TallyOf(d, levels))
  {
    assert d.entries[..|d.entries|] == d.entries;
  }

  /** Adds up a directory and everything below it. */
  method Measure(d: ResDir, l: Layout, ghost levels: int) returns (r: Layout)
    ensures r == Grown(l, TallyOf(d, levels))
    decreases d
  {
    hide MeasuredUpTo, TallyOf, Grown;
    r := l.(dirSize := l.dirSize + 16 + 8 * |d.entries|);
    MeasureStart(d, l, levels);
    for i := 0 to |d.entries|
      invariant r == MeasuredUpTo(d, l, i, levels)
    {
      MeasureStep(d, l, i, levels);
      var e := d.entries[i];
      if e.key.Name? {
        r := r.(strSize := r.strSize + 2 + 2 * |e.key.units|);
      }
      match e.node {
        case Dir(sub) => r := Measure(sub, r, levels - 1);
        case Data(bytes, _) => r := r.(nData := r.nData + 1, dataSize := r.dataSize + Align8(|bytes|));
      }
    }
    MeasureEnd(d, l, levels);
  }

  /** Where the four cursors start in a section for a tree adding up to `t`. */
  function Start(t: Tally): Cursors {
    var names := DirSize(t) + 16 * t.leaves;
    Cursors(0, DirSize(t), names, Align8(names + t.nameBytes))
  }

  function SectionSize(t: Tally): nat {
    Start(t).data + t.dataBytes
  }

  lemma StartApart(t: Tally)
    ensures Apart(Start(t), Advance(Start(t), t), SectionSize(t))
    ensures Advance(Start(t), t).dir == Start(t).entry && Advance(Start(t), t).entry == Start(t).name
    ensures Advance(Start(t), t).data == SectionSize(t)
  {
  }

  /** `data` is the tree, in the loader's order, written for a section at `rva`. */
  predicate Serialized(data: seq<byte>, root: ResDir, rva: nat) {
    && |data| == SectionSize(TallyOf(root, LEVELS))
    && DirAt(data, Sorted(root), Start(TallyOf(root, LEVELS)), rva, LEVELS)
  }

  /** The format can hold the tree and its section can be addressed at `rva`. */
  predicate Fits(root: ResDir, rva: nat) {
    var t := TallyOf(root, LEVELS);
    && t.inFormat && SectionSize(t) <= TAG && rva + SectionSize(t) <= 0x1_0000_0000
  }

  /** Writes the tree as the contents of a section; the cursors end where `Measure` said they would. */
  method SerializeTree(root: ResDir, rva: nat) returns (data: seq<byte>, end: Cursors)
    requires Fits(root, rva)
    ensures Serialized(data, root, rva)
    ensures var start := Start(TallyOf(root, LEVELS));
      end.dir == start.entry && end.entry == start.name && end.name <= start.data && end.data == |data|
  {
    hide DirAt, TallyOf, Sorted;
    ghost var t := TallyOf(root, LEVELS);
    SortedTally(root, LEVELS);
    var sorted := Sorted(root);
    var l := Measure(sorted, Layout(0, 0, 0, 0), LEVELS);
    var entriesStart := l.dirSize;
    var namesStart := entriesStart + l.nData * 16;
    var dataStart := Align8(namesStart + l.strSize);
    var total := dataStart + l.dataSize;
    var out := new byte[total](_ => 0);
    StartApart(t);
    var at;
    at, end := WriteDir(sorted, out, Cursors(0, entriesStart, namesStart, dataStart), rva, LEVELS);
    assert end.dir == entriesStart && end.entry == namesStart && end.data == total;
    data := out[..];
  }

  // ---------------------------------------------------------------------------------------------
  // The image around the section
  // ---------------------------------------------------------------------------------------------

  /** Where the virtual addresses of the first `n` sections end. */
  function VaEnd(b: seq<byte>, info: PeInfo, n: nat): nat {
    if n == 0 then 0
    else
      var before, s := VaEnd(b, info, n - 1), SectionAt(b, info, n - 1);
      if s.Ok? && before < s.value.va + Span(s.value) then s.value.va + Span(s.value) else before
  }

  function NewRva(b: seq<byte>, info: PeInfo): nat {
    AlignUp(VaEnd(b, info, info.sections), info.sectionAlignment)
  }

  function NewPtr(b: seq<byte>, info: PeInfo): nat {
    AlignUp(|b|, info.fileAlignment)
  }

  /** The header slot after the last section. */
  function NewHeaderSlot(info: PeInfo): nat {
    info.headers + info.sections * 40
  }

  predicate Room(info: PeInfo) {
    NewHeaderSlot(info) + 40 <= info.sizeOfHeaders
  }

  predicate SectionOk(b: seq<byte>, info: PeInfo, i: nat) {
    var s := SectionAt(b, info, i);
    s.Ok? && s.value.va + Span(s.value) < 0x1_0000_0000
  }

  /** Every section header can be read. */
  predicate TableRead(b: seq<byte>, info: PeInfo) {
    forall i :: 0 <= i < info.sections ==> SectionAt(b, info, i).Ok?
  }

  /** No section that can be read ends past the 32-bit addresses. */
  predicate SectionsFit(b: seq<byte>, info: PeInfo) {
    forall i :: 0 <= i < info.sections && SectionAt(b, info, i).Ok? ==> SectionOk(b, info, i)
  }

  /** What the edit takes for granted of an image: data directory 2 lies before the section table, the new
      header's slot in the file, and the section count does not wrap. */
  predicate Editable(b: seq<byte>, info: PeInfo) {
    && ResourceSlot(info.pe, info.plus) + 8 <= info.headers
    && NewHeaderSlot(info) + 40 <= |b|
    && info.sections < 0xffff
  }

  /** An image that parses, with the PE header after the DOS header, and can be edited. */
  predicate WellFormed(b: seq<byte>, info: PeInfo) {
    && Parse(b) == Ok(info)
    && 0x40 <= info.pe
    && Editable(b, info)
    && forall i :: 0 <= i < info.sections ==> SectionOk(b, info, i)
  }

  /** No 32-bit sum of the edit overflows. */
  predicate SizesFitImage(b: seq<byte>, info: PeInfo, root: ResDir) {
    var size := SectionSize(TallyOf(root, LEVELS));
    && size <= TAG && NewRva(b, info) + size <= 0x1_0000_0000
    && NewRva(b, info) + AlignUp(size, info.fileAlignment) < 0x1_0000_0000
    && AlignUp(NewRva(b, info) + size, info.sectionAlignment) < 0x1_0000_0000
    && NewPtr(b, info) + AlignUp(size, info.fileAlignment) < 0x1_0000_0000
  }

  /** The format can hold the tree, and the image its section. */
  predicate FitsImage(b: seq<byte>, info: PeInfo, root: ResDir) {
    TallyOf(root, LEVELS).inFormat && SizesFitImage(b, info, root)
  }

  const RSRC_CHARACTERISTICS := 0x4000_0040

  function SectionHeader(size: nat, rva: nat, rawSize: nat, rawPtr: nat): (r: seq<byte>)
    ensures |r| == 40
  {
    [0x2e, 0x72, 0x73, 0x72, 0x63, 0, 0, 0] + Le32(size) + Le32(rva) + Le32(rawSize) + Le32(rawPtr)
      + [0, 0, 0, 0, 0, 0, 0, 0, 0, 0, 0, 0] + Le32(RSRC_CHARACTERISTICS)
  }

  /** Byte `k` is one of those the edit rewrites: section count, image size, resource directory, header slot. */
  predicate Rewritten(info: PeInfo, k: nat) {
    var dir := ResourceSlot(info.pe, info.plus);
    || info.pe + 6 <= k < info.pe + 8
    || Opt(info.pe) + 56 <= k < Opt(info.pe) + 60
    || dir <= k < dir + 8
    || NewHeaderSlot(info) <= k < NewHeaderSlot(info) + 40
  }

  /** `c` is `b` with a resource section holding `data` appended, and nothing else changed. */
  ghost predicate Edited(b: seq<byte>, c: seq<byte>, info: PeInfo, data: seq<byte>) {
    var rva, ptr, rawSize := NewRva(b, info), NewPtr(b, info), AlignUp(|data|, info.fileAlignment);
    var dir, slot := ResourceSlot(info.pe, info.plus), NewHeaderSlot(info);
    && dir + 8 <= info.headers && slot + 40 <= |b|
    && |c| == ptr + rawSize
    && U16(c, info.pe + 6) == info.sections + 1
    && U32(c, Opt(info.pe) + 56) == AlignUp(rva + |data|, info.sectionAlignment)
    && U32(c, dir) == rva && U32(c, dir + 4) == |data|
    && c[slot..slot + 40] == SectionHeader(|data|, rva, rawSize, ptr)
    && c[ptr..ptr + |data|] == data
    && (forall k :: 0 <= k < |b| && !Rewritten(info, k) ==> c[k] == b[k])
    && (forall k :: |b| <= k < ptr || ptr + |data| <= k < |c| ==> c[k] == 0)
  }

  function Zeros(n: nat): (r: seq<byte>)
    ensures |r| == n
  {
    seq(n, _ => 0)
  }

  class PeFile {
    var bytes: seq<byte>

    constructor (bytes: seq<byte>)
      ensures this.bytes == bytes
    {
      this.bytes := bytes;
    }

    /** `copy_from_slice` at `at`. */
    method Put(at: nat, x: seq<byte>)
      requires at + |x| <= |bytes|
      modifies this
      ensures bytes == Patch(old(bytes), at, x)
    {
      bytes := Patch(bytes, at, x);
    }

    /** Where the last section's virtual addresses end. */
    method VirtualEnd(info: PeInfo) returns (r: Result<nat>)
      requires SectionsFit(bytes, info)
      ensures r.Ok? <==> TableRead(bytes, info)
      ensures r.Ok? ==> r.value == VaEnd(bytes, info, info.sections)
    {
      var last := 0;
      for i := 0 to info.sections
        invariant last == VaEnd(bytes, info, i)
        invariant forall j :: 0 <= j < i ==> SectionAt(bytes, info, j).Ok?
      {
        var section := SectionAt(bytes, info, i);
        if section.Err? {
          return Err(section.reason);
        }
        var s := section.value;
        last := if last < s.va + Span(s) then s.va + Span(s) else last;
      }
      r := Ok(last);
    }

    /** The new section's header, the section count, the image size and data directory 2. */
    method PatchHeaders(info: PeInfo, rva: nat, size: nat, rawPtr: nat, rawSize: nat, ghost b: seq<byte>,
                        ghost data: seq<byte>)
      requires Editable(b, info)
      requires rva == NewRva(b, info) && size == |data| && rawPtr == NewPtr(b, info)
        && rawSize == AlignUp(|data|, info.fileAlignment)
      requires rva + |data| <= 0x1_0000_0000 && |data| < 0x1_0000_0000 && rva < 0x1_0000_0000
      requires AlignUp(rva + |data|, info.sectionAlignment) < 0x1_0000_0000
      requires bytes == b + Zeros(rawPtr - |b|) + data + Zeros(rawSize - |data|)
      modifies this
      ensures Edited(b, bytes, info, data)
    {
      hide VaEnd, AlignUp, Zeros, Le16, Le32, SectionHeader, Edited;
      ghost var b0 := bytes;
      Put(NewHeaderSlot(info), SectionHeader(size, rva, rawSize, rawPtr));
      ghost var b1 := bytes;
      Put(info.pe + 6, Le16(info.sections + 1));
      ghost var b2 := bytes;
      var sizeOfImage := AlignUp(rva + size, info.sectionAlignment);
      Put(Opt(info.pe) + 56, Le32(sizeOfImage));
      ghost var b3 := bytes;
      var dir := ResourceSlot(info.pe, info.plus);
      Put(dir, Le32(rva));
      ghost var b4 := bytes;
      Put(dir + 4, Le32(size));
      FiveEdits(b, b0, b1, b2, b3, b4, bytes, info, data);
    }

    /** Appends a resource section with the tree and points data directory 2 at it; leaves the file as it
        was when it is no executable, has no room for another section header or its section table is cut off. */
    method AppendRsrcSection(root: ResDir) returns (r: Result<()>)
      requires var info := Parse(bytes);
        info.Ok? && Room(info.value) ==>
          && SectionsFit(bytes, info.value)
          && (TableRead(bytes, info.value) ==> Editable(bytes, info.value) && FitsImage(bytes, info.value, root))
      modifies this
      ensures r.Ok? <==>
        Parse(old(bytes)).Ok? && Room(Parse(old(bytes)).value) && TableRead(old(bytes), Parse(old(bytes)).value)
      ensures r.Err? ==> bytes == old(bytes)
      ensures r.Ok? ==>
        exists data :: Serialized(data, root, NewRva(old(bytes), Parse(old(bytes)).value))
          && Edited(old(bytes), bytes, Parse(old(bytes)).value, data)
    {
      hide Parse, DirAt, TallyOf, SectionOk, Edited, TableRead, SectionsFit;
      var parsed := Parse(bytes);
      if parsed.Err? {
        return Err(parsed.reason);
      }
      var info := parsed.value;
      if !Room(info) {
        return Err("--icon: no room in the PE headers for another section");
      }
      ghost var b := bytes;
      var last := VirtualEnd(info);
      if last.Err? {
        return Err(last.reason);
      }
      var rva := AlignUp(last.value, info.sectionAlignment);
      var data, _ := SerializeTree(root, rva);
      var rawPtr := AlignUp(|bytes|, info.fileAlignment);
      var rawSize := AlignUp(|data|, info.fileAlignment);
      bytes := bytes + Zeros(rawPtr - |bytes|);
      bytes := bytes + data;
      bytes := bytes + Zeros(rawPtr + rawSize - |bytes|);
      PatchHeaders(info, rva, |data|, rawPtr, rawSize, b, data);
      return Ok(());
    }
  }

  lemma Edit16(b: seq<byte>, at: nat, v: u16)
    requires at + 2 <= |b|
    ensures OnlyWithin(b, Patch(b, at, Le16(v)), at, at + 2) && U16(Patch(b, at, Le16(v)), at) == v
  {
    PatchReads(b, at, Le16(v));
    Le16Reads(Patch(b, at, Le16(v)), at, v);
  }

  lemma Edit32(b: seq<byte>, at: nat, v: u32)
    requires at + 4 <= |b|
    ensures OnlyWithin(b, Patch(b, at, Le32(v)), at, at + 4) && U32(Patch(b, at, Le32(v)), at) == v
  {
    PatchReads(b, at, Le32(v));
    Le32Reads(Patch(b, at, Le32(v)), at, v);
  }

  /** What lies clear of an edit survives it. */
  lemma Survives(b: seq<byte>, c: seq<byte>, lo: nat, hi: nat, at: nat, n: nat)
    requires OnlyWithin(b, c, lo, hi) && at + n <= |b| && (at + n <= lo || hi <= at)
    ensures c[at..at + n] == b[at..at + n]
    ensures n == 2 ==> U16(c, at) == U16(b, at)
    ensures n == 4 ==> U32(c, at) == U32(b, at)
  {
    FieldsAgree(b, c, at);
  }

  lemma Extended(b: seq<byte>, b0: seq<byte>, ptr: nat, data: seq<byte>, tail: nat)
    requires |b| <= ptr && b0 == b + Zeros(ptr - |b|) + data + Zeros(tail)
    ensures |b0| == ptr + |data| + tail && b0[ptr..ptr + |data|] == data
    ensures forall k :: 0 <= k < |b| ==> b0[k] == b[k]
    ensures forall k :: |b| <= k < ptr || ptr + |data| <= k < |b0| ==> b0[k] == 0
  {
  }

  /** Five successive edits, each within its own bytes. */
  predicate Successive(b0: seq<byte>, b1: seq<byte>, b2: seq<byte>, b3: seq<byte>, b4: seq<byte>, c: seq<byte>,
                       info: PeInfo) {
    var count, image, dir, slot := info.pe + 6, Opt(info.pe) + 56, ResourceSlot(info.pe, info.plus),
      NewHeaderSlot(info);
    && OnlyWithin(b0, b1, slot, slot + 40)
    && OnlyWithin(b1, b2, count, count + 2)
    && OnlyWithin(b2, b3, image, image + 4)
    && OnlyWithin(b3, b4, dir, dir + 4)
    && OnlyWithin(b4, c, dir + 4, dir + 8)
  }

  lemma SuccessiveKeeps(b0: seq<byte>, b1: seq<byte>, b2: seq<byte>, b3: seq<byte>, b4: seq<byte>, c: seq<byte>,
                        info: PeInfo)
    requires Successive(b0, b1, b2, b3, b4, c, info)
    ensures |c| == |b0| && forall k :: 0 <= k < |b0| && !Rewritten(info, k) ==> c[k] == b0[k]
  {
  }

  lemma SuccessiveFields(b0: seq<byte>, b1: seq<byte>, b2: seq<byte>, b3: seq<byte>, b4: seq<byte>, c: seq<byte>,
                         info: PeInfo)
    requires Successive(b0, b1, b2, b3, b4, c, info)
    requires ResourceSlot(info.pe, info.plus) + 8 <= info.headers && NewHeaderSlot(info) + 40 <= |b0|
    ensures var count, image, dir, slot := info.pe + 6, Opt(info.pe) + 56, ResourceSlot(info.pe, info.plus),
      NewHeaderSlot(info);
      && c[slot..slot + 40] == b1[slot..slot + 40]
      && U16(c, count) == U16(b2, count) && U32(c, image) == U32(b3, image) && U32(c, dir) == U32(b4, dir)
  {
    hide U16, U32, OnlyWithin;
    var count, image, dir, slot := info.pe + 6, Opt(info.pe) + 56, ResourceSlot(info.pe, info.plus),
      NewHeaderSlot(info);
    SameSize(b0, b1, slot, slot + 40);
    SameSize(b1, b2, count, count + 2);
    SameSize(b2, b3, image, image + 4);
    SameSize(b3, b4, dir, dir + 4);
    SameSize(b4, c, dir + 4, dir + 8);
    Survives(b1, b2, count, count + 2, slot, 40);
    Survives(b2, b3, image, image + 4, slot, 40);
    Survives(b3, b4, dir, dir + 4, slot, 40);
    Survives(b4, c, dir + 4, dir + 8, slot, 40);
    Survives(b2, b3, image, image + 4, count, 2);
    Survives(b3, b4, dir, dir + 4, count, 2);
    Survives(b4, c, dir + 4, dir + 8, count, 2);
    Survives(b3, b4, dir, dir + 4, image, 4);
    Survives(b4, c, dir + 4, dir + 8, image, 4);
    Survives(b4, c, dir + 4, dir + 8, dir, 4);
  }

  lemma SameSize(b: seq<byte>, c: seq<byte>, lo: nat, hi: nat)
    requires OnlyWithin(b, c, lo, hi)
    ensures |b| == |c|
  {
  }

  /** The five edits do not disturb one another, nor what was appended. */
  lemma FiveEdits(b: seq<byte>, b0: seq<byte>, b1: seq<byte>, b2: seq<byte>, b3: seq<byte>, b4: seq<byte>, c: seq<byte>,
                  info: PeInfo, data: seq<byte>)
    requires Editable(b, info)
    requires var rva, ptr, rawSize := NewRva(b, info), NewPtr(b, info), AlignUp(|data|, info.fileAlignment);
      && rva + |data| <= 0x1_0000_0000 && |data| < 0x1_0000_0000 && rva < 0x1_0000_0000
      && AlignUp(rva + |data|, info.sectionAlignment) < 0x1_0000_0000
      && b0 == b + Zeros(ptr - |b|) + data + Zeros(rawSize - |data|)
      && b1 == Patch(b0, NewHeaderSlot(info), SectionHeader(|data|, rva, rawSize, ptr))
      && b2 == Patch(b1, info.pe + 6, Le16(info.sections + 1))
      && b3 == Patch(b2, Opt(info.pe) + 56, Le32(AlignUp(rva + |data|, info.sectionAlignment)))
      && b4 == Patch(b3, ResourceSlot(info.pe, info.plus), Le32(rva))
      && c == Patch(b4, ResourceSlot(info.pe, info.plus) + 4, Le32(|data|))
    ensures Edited(b, c, info, data)
  {
    hide Patch, SectionHeader, NewRva, VaEnd, AlignUp, U16, U32, Le16, Le32, Zeros, OnlyWithin;
    var rva, ptr, rawSize := NewRva(b, info), NewPtr(b, info), AlignUp(|data|, info.fileAlignment);
    var slot := NewHeaderSlot(info);
    Extended(b, b0, ptr, data, rawSize - |data|);
    EditHeader(b0, slot, SectionHeader(|data|, rva, rawSize, ptr));
    Edit16(b1, info.pe + 6, info.sections + 1);
    Edit32(b2, Opt(info.pe) + 56, AlignUp(rva + |data|, info.sectionAlignment));
    Edit32(b3, ResourceSlot(info.pe, info.plus), rva);
    Edit32(b4, ResourceSlot(info.pe, info.plus) + 4, |data|);
    SuccessiveFields(b0, b1, b2, b3, b4, c, info);
    SuccessiveKeeps(b0, b1, b2, b3, b4, c, info);
    assert c[ptr..ptr + |data|] == b0[ptr..ptr + |data|];
  }

  lemma EditHeader(b: seq<byte>, at: nat, x: seq<byte>)
    requires at + |x| <= |b|
    ensures OnlyWithin(b, Patch(b, at, x), at, at + |x|) && Patch(b, at, x)[at..at + |x|] == x
  {
    PatchReads(b, at, x);
  }
}
