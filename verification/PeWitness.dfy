/**
 Small executables of both formats, alike but for the number of their data directories: with sixteen the resource
 tree given is read back, with two it is lost.
 */
module PeWitness {
  import opened Wrappers
  import opened PeBytes
  import opened PeTree
  import opened PeWrite
  import opened PeParse
  import opened PeAppend
  import opened PeImage
  import opened PeFormat

  /** Headers in 512 bytes: the PE header at 0x40, one section of 0x1000 bytes at 0x1000 with no data. The second,
      third and fourth data directories differ. */
  function HeaderByte(plus: bool, dirs: byte, at: nat): byte {
    if at == 0x00 then 0x4d else if at == 0x01 then 0x5a
    else if at == 0x3c then 0x40
    else if at == 0x40 then 0x50 else if at == 0x41 then 0x45
    else if at == 0x46 then 1
    else if at == 0x54 then 0xf0
    else if at == 0x58 then 0x0b else if at == 0x59 then (if plus then 0x02 else 0x01)
    else if at == 0x79 then 0x10
    else if at == 0x7d then 0x02
    else if at == 0x95 then 0x02
    else if at == 0x9c then 3
    else if at == 0x151 then 0x10
    else if at == 0x155 then 0x10
    else DirectoryByte(dirs, if plus then at - 0x10 else at)
  }

  /** From the number of data directories on, where the smaller header has it. */
  function DirectoryByte(dirs: byte, at: int): byte {
    if at == 0xb4 then dirs
    else if at == 0xc0 then 0x11 else if at == 0xc4 then 0x12
    else if at == 0xc8 then 0x21 else if at == 0xcc then 0x22
    else if at == 0xd0 then 0x31 else if at == 0xd4 then 0x32
    else 0
  }

  function Image(plus: bool, dirs: byte): (b: seq<byte>)
    ensures |b| == 0x200
  {
    seq(0x200, i requires 0 <= i < 0x200 => HeaderByte(plus, dirs, i))
  }

  function ImageInfo(plus: bool, dirs: byte): PeInfo {
    PeInfo(0x40, plus, 1, 0x148, 0x200, 0x1000, 0x200, 3,
           if dirs > 2 then 0x21 else 0, if dirs > 2 then 0x22 else 0)
  }

  /** One resource of one byte. */
  function OneLeaf(x: byte): ResDir {
    ResDir([ResEntry(Id(1), Data([x], 0))])
  }

  lemma Half(plus: bool, dirs: byte, at: nat)
    requires at + 2 <= 0x200
    ensures Short(Image(plus, dirs), at) == HeaderByte(plus, dirs, at) + 0x100 * HeaderByte(plus, dirs, at + 1)
  {
    hide HeaderByte;
  }

  lemma Word(plus: bool, dirs: byte, at: nat)
    requires at + 4 <= 0x200
    ensures Long(Image(plus, dirs), at)
         == HeaderByte(plus, dirs, at) + 0x100 * HeaderByte(plus, dirs, at + 1)
            + 0x1_0000 * HeaderByte(plus, dirs, at + 2) + 0x100_0000 * HeaderByte(plus, dirs, at + 3)
  {
    hide HeaderByte;
  }

  /** The headers, field by field. */
  lemma ImageIsDescribed(plus: bool, dirs: byte)
    ensures Described(Image(plus, dirs), ImageInfo(plus, dirs))
  {
    hide Short, Long, Image;
    var b, at := Image(plus, dirs), if plus then 0xc8 else 0xb8;
    Half(plus, dirs, 0x46);
    Half(plus, dirs, 0x54);
    Half(plus, dirs, 0x58);
    Half(plus, dirs, 0x9c);
    Word(plus, dirs, 0x3c);
    Word(plus, dirs, 0x78);
    Word(plus, dirs, 0x7c);
    Word(plus, dirs, 0x94);
    Word(plus, dirs, at - 4);
    Word(plus, dirs, at + 16);
    Word(plus, dirs, at + 20);
    Marks(plus, dirs);
  }

  lemma Marks(plus: bool, dirs: byte)
    ensures var b := Image(plus, dirs);
      b[0] == 0x4d && b[1] == 0x5a && b[0x40] == 0x50 && b[0x41] == 0x45 && b[0x42] == 0 && b[0x43] == 0
  {
  }

  lemma SectionOfImage(plus: bool, dirs: byte)
    ensures SectionAt(Image(plus, dirs), ImageInfo(plus, dirs), 0) == Ok(Section(0x1000, 0x1000, 0, 0))
  {
    hide Short, Long, Image, U32At;
    var b := Image(plus, dirs);
    FieldsAreLittleEndian(b, 0x150);
    FieldsAreLittleEndian(b, 0x154);
    FieldsAreLittleEndian(b, 0x158);
    FieldsAreLittleEndian(b, 0x15c);
    Word(plus, dirs, 0x150);
    Word(plus, dirs, 0x154);
    Word(plus, dirs, 0x158);
    Word(plus, dirs, 0x15c);
  }

  /** The images are what the edit asks for, and those with more than two data directories have one for resources. */
  lemma ImageIsWellFormed(plus: bool, dirs: byte)
    ensures var b, info := Image(plus, dirs), ImageInfo(plus, dirs);
      && WellFormed(b, info) && Room(info) && (HasResourceSlot(b, info) <==> dirs > 2)
      && TableRead(b, info) && SectionsFit(b, info) && DataPastHeaders(b, info)
      && VaEnd(b, info, 1) == 0x2000 && NewRva(b, info) == 0x2000 && NewPtr(b, info) == 0x200
  {
    hide Short, Long, U32At, HeaderByte, Image, Parse, Described, SectionAt;
    var b, info, at := Image(plus, dirs), ImageInfo(plus, dirs), if plus then 0xc4 else 0xb4;
    ImageIsDescribed(plus, dirs);
    ParseIsDescribed(b, info);
    SectionOfImage(plus, dirs);
    assert SectionOk(b, info, 0);
    DirectoriesOfImage(plus, dirs);
    FieldsAreLittleEndian(b, at);
    assert VaEnd(b, info, 0) == 0;
  }

  lemma DirectoriesOfImage(plus: bool, dirs: byte)
    ensures var b, at := Image(plus, dirs), if plus then 0xc4 else 0xb4;
      && Long(b, at) == dirs && Long(b, at + 12) == 0x11 && Long(b, at + 16) == 0x12
      && Long(b, at + 20) == 0x21 && Long(b, at + 24) == 0x22 && Long(b, at + 28) == 0x31 && Long(b, at + 32) == 0x32
  {
    hide Long, Image;
    var at := if plus then 0xc4 else 0xb4;
    Word(plus, dirs, at);
    Word(plus, dirs, at + 12);
    Word(plus, dirs, at + 16);
    Word(plus, dirs, at + 20);
    Word(plus, dirs, at + 24);
    Word(plus, dirs, at + 28);
    Word(plus, dirs, at + 32);
  }

  lemma OneLeafFits(plus: bool, dirs: byte, x: byte)
    ensures FitsImage(Image(plus, dirs), ImageInfo(plus, dirs), OneLeaf(x)) && Readable(OneLeaf(x))
  {
    hide Image, VaEnd, NewRva, NewPtr, TallyOf, TableRead, SectionsFit, WellFormed, OneLeaf;
    ImageIsWellFormed(plus, dirs);
    OneLeafTally(x, LEVELS);
  }

  lemma OneLeafTally(x: byte, levels: int)
    requires levels > 0
    ensures TallyOf(OneLeaf(x), levels) == Tally(1, 1, 1, 0, 8, true, true)
  {
    hide TallyOf, TallyOne;
    OneEntryTally(ResEntry(Id(1), Data([x], 0)), levels);
    LeafTally(x, levels - 1);
  }

  lemma LeafTally(x: byte, levels: int)
    ensures TallyOne(ResEntry(Id(1), Data([x], 0)), levels) == Tally(0, 1, 1, 0, 8, true, true)
  {
  }

  /** The tree is written into an image with two data directories, and read back as no tree at all. */
  method LosesResources(plus: bool, x: byte) returns (after: seq<byte>)
    ensures exists data ::
      Serialized(data, OneLeaf(x), 0x2000) && Edited(Image(plus, 2), after, ImageInfo(plus, 2), data)
    ensures ParseTree(after) == Ok(ResDir([]))
  {
    hide Image, ImageInfo, OneLeaf, Parse, ParseTree, Edited, Serialized, FitsImage, WellFormed, Readable, NewRva,
      HasResourceSlot;
    ghost var data;
    after, data := Written(plus, 2, x);
    ImageIsWellFormed(plus, 2);
    OneLeafFits(plus, 2, x);
    TreeReadBack(Image(plus, 2), after, ImageInfo(plus, 2), data, OneLeaf(x));
  }

  /** With sixteen it is read back as it was given. The third data directory names the new section, and the second
      and fourth are as they were. */
  method KeepsResources(plus: bool, x: byte) returns (after: seq<byte>)
    ensures ParseTree(after) == Ok(Sorted(OneLeaf(x))) && Sorted(OneLeaf(x)) != ResDir([])
    ensures var at := if plus then 0xd0 else 0xc0;
      && |after| >= 0x200 && Long(after, at) == 0x11 && Long(after, at + 4) == 0x12
      && Long(after, at + 8) == 0x2000 && Long(after, at + 12) > 0
      && Long(after, at + 16) == 0x31 && Long(after, at + 20) == 0x32
  {
    hide Image, ImageInfo, OneLeaf, Sorted, Parse, ParseTree, Edited, Serialized, FitsImage, WellFormed, Readable,
      NewRva, HasResourceSlot, Long;
    ghost var data;
    after, data := Written(plus, 16, x);
    ImageIsWellFormed(plus, 16);
    OneLeafFits(plus, 16, x);
    NotEmpty(x);
    TreeReadBack(Image(plus, 16), after, ImageInfo(plus, 16), data, OneLeaf(x));
    OnlyTheThird(plus, after, data, x);
  }

  lemma NotEmpty(x: byte)
    ensures Sorted(OneLeaf(x)) != ResDir([])
  {
    hide Sorted;
    SortedEmpty(OneLeaf(x));
  }

  lemma OnlyTheThird(plus: bool, after: seq<byte>, data: seq<byte>, x: byte)
    requires Serialized(data, OneLeaf(x), 0x2000) && Edited(Image(plus, 16), after, ImageInfo(plus, 16), data)
    ensures var at := if plus then 0xd0 else 0xc0;
      && |after| >= 0x200 && Long(after, at) == 0x11 && Long(after, at + 4) == 0x12
      && Long(after, at + 8) == 0x2000 && Long(after, at + 12) > 0
      && Long(after, at + 16) == 0x31 && Long(after, at + 20) == 0x32
  {
    hide Image, OneLeaf, Parse, Edited, Short, WellFormed, Long, NewRva, NewPtr, TallyOf, DirAt, HasResourceSlot,
      TableRead, SectionsFit, VaEnd, AlignUp, Placed, Least;
    var b, info := Image(plus, 16), ImageInfo(plus, 16);
    ImageIsWellFormed(plus, 16);
    WellFormedParts(b, info);
    OneLeafTally(x, LEVELS);
    EditIsAppended(b, after, info, data);
    DirectoriesOfImage(plus, 16);
    var at := if plus then 0xd0 else 0xc0;
    LongKept(b, after, at);
    LongKept(b, after, at + 4);
    LongKept(b, after, at + 16);
    LongKept(b, after, at + 20);
  }

  lemma LongKept(b: seq<byte>, c: seq<byte>, at: nat)
    requires at + 4 <= |b| <= |c| && forall k :: at <= k < at + 4 ==> b[k] == c[k]
    ensures Long(c, at) == Long(b, at)
  {
  }

  method Written(plus: bool, dirs: byte, x: byte) returns (after: seq<byte>, ghost data: seq<byte>)
    ensures Serialized(data, OneLeaf(x), 0x2000) && Edited(Image(plus, dirs), after, ImageInfo(plus, dirs), data)
  {
    hide Image, ImageInfo, OneLeaf, Parse, Edited, Serialized, FitsImage, WellFormed, NewRva, Room, TableRead,
      SectionsFit;
    ImageIsWellFormed(plus, dirs);
    WellFormedParts(Image(plus, dirs), ImageInfo(plus, dirs));
    OneLeafFits(plus, dirs, x);
    var f := new PeFile(Image(plus, dirs));
    var r := f.AppendRsrcSection(OneLeaf(x));
    after := f.bytes;
    data :| Serialized(data, OneLeaf(x), 0x2000) && Edited(Image(plus, dirs), after, ImageInfo(plus, dirs), data);
  }
}
