/** Giving an executable its icons: the resources it had are kept, the icon types are replaced. */
module PeIcon {
  import opened Wrappers
  import opened PeBytes
  import opened PeTree
  import opened PeWrite
  import opened PeParse
  import opened PeAppend
  import opened PeImage
  import opened PeParsed
  import opened PeFormat

  const RT_ICON := 3
  const RT_GROUP_ICON := 14
  const LANG_EN_US := 0x0409

  datatype IconImage = IconImage(size: u32, bytes: seq<byte>)

  /** One `GRPICONDIR` entry: side, side, no palette, 1 plane, 32 bits, size and id. */
  function GroupEntry(im: IconImage, id: nat): seq<byte> {
    var side: byte := if im.size >= 256 then 0 else im.size;
    [side, side, 0, 0] + Le16(1) + Le16(32) + Le32(|im.bytes|) + Le16(id)
  }

  function GroupEntries(images: seq<IconImage>): seq<byte> {
    if images == [] then []
    else GroupEntries(images[..|images| - 1]) + GroupEntry(images[|images| - 1], |images|)
  }

  function GroupIconDir(images: seq<IconImage>): seq<byte> {
    Le16(0) + Le16(1) + Le16(|images|) + GroupEntries(images)
  }

  function Lang(node: ResNode): ResNode {
    Dir(ResDir([ResEntry(Id(LANG_EN_US), node)]))
  }

  /** The images under ids 1 to n. */
  function IconDir(images: seq<IconImage>): ResDir
    requires |images| < 0xffff_ffff
  {
    ResDir(seq(|images|, i requires 0 <= i < |images| => ResEntry(Id(i + 1), Lang(Data(images[i].bytes, 0)))))
  }

  function GroupDir(images: seq<IconImage>): ResDir {
    ResDir([ResEntry(Id(1), Lang(Data(GroupIconDir(images), 0)))])
  }

  predicate Foreign(k: ResKey) {
    k != Id(RT_ICON) && k != Id(RT_GROUP_ICON)
  }

  predicate IsIcon(k: ResKey) {
    k == Id(RT_ICON)
  }

  predicate IsGroupIcon(k: ResKey) {
    k == Id(RT_GROUP_ICON)
  }

  /** The tree with its icon types replaced. */
  function WithIcons(root: ResDir, images: seq<IconImage>): ResDir
    requires |images| < 0xffff_ffff
  {
    ResDir(Filter(root.entries, Foreign)
             + [ResEntry(Id(RT_ICON), Dir(IconDir(images)))]
             + [ResEntry(Id(RT_GROUP_ICON), Dir(GroupDir(images)))])
  }

  // ---------------------------------------------------------------------------------------------
  // What Windows looks for
  // ---------------------------------------------------------------------------------------------

  /** The entry of a group at `at`: the side twice (0 for 256), no palette, one plane, 32 bits a pixel, the bytes of
      the image and its id. */
  predicate GroupEntryAt(g: seq<byte>, at: nat, im: IconImage, id: nat) {
    && at + 14 <= |g|
    && g[at] == g[at + 1] == (if im.size < 0x100 then im.size else 0) && g[at + 2] == 0 && g[at + 3] == 0
    && Short(g, at + 4) == 1 && Short(g, at + 6) == 32
    && Long(g, at + 8) == |im.bytes| && Short(g, at + 12) == id
  }

  lemma EntryIsLaidOut(im: IconImage, id: nat)
    requires |im.bytes| < 0x1_0000_0000 && id < 0x1_0000
    ensures |GroupEntry(im, id)| == 14 && GroupEntryAt(GroupEntry(im, id), 0, im, id)
  {
    hide Long, Le32;
    var g := GroupEntry(im, id);
    assert g[8..12] == Le32(|im.bytes|);
    LongReads(g, 8, |im.bytes|);
  }

  lemma EntryMoved(g: seq<byte>, h: seq<byte>, from: nat, at: nat, im: IconImage, id: nat)
    requires GroupEntryAt(g, from, im, id) && at + 14 <= |h| && h[at..at + 14] == g[from..from + 14]
    ensures GroupEntryAt(h, at, im, id)
  {
    forall j | at <= j < at + 14 ensures h[j] == g[from + j - at] {
      assert h[j] == h[at..at + 14][j - at] && g[from + j - at] == g[from..from + 14][j - at];
    }
  }

  lemma {:induction false} EntriesAreLaidOut(images: seq<IconImage>)
    requires |images| < 0x1_0000 && forall im :: im in images ==> |im.bytes| < 0x1_0000_0000
    ensures |GroupEntries(images)| == 14 * |images|
    ensures forall i :: 0 <= i < |images| ==> GroupEntryAt(GroupEntries(images), 14 * i, images[i], i + 1)
  {
    hide GroupEntry, GroupEntryAt;
    if images != [] {
      var fewer, last := images[..|images| - 1], images[|images| - 1];
      assert last in images;
      EntriesAreLaidOut(fewer);
      EntryIsLaidOut(last, |images|);
      var g, before := GroupEntries(images), GroupEntries(fewer);
      forall i | 0 <= i < |images| ensures GroupEntryAt(g, 14 * i, images[i], i + 1) {
        if i < |fewer| {
          assert GroupEntryAt(before, 14 * i, fewer[i], i + 1);
          EntryInside(before, 14 * i, images[i], i + 1);
          assert g[14 * i..14 * i + 14] == before[14 * i..14 * i + 14];
          EntryMoved(before, g, 14 * i, 14 * i, images[i], i + 1);
        } else {
          assert g[14 * i..14 * i + 14] == GroupEntry(last, |images|)[0..14];
          EntryMoved(GroupEntry(last, |images|), g, 0, 14 * i, last, |images|);
        }
      }
    }
  }

  lemma EntryInside(g: seq<byte>, at: nat, im: IconImage, id: nat)
    requires GroupEntryAt(g, at, im, id)
    ensures at + 14 <= |g|
  {
  }

  /** The group: nothing, the type of icons, how many, and then each image by its id. */
  lemma GroupIsLaidOut(images: seq<IconImage>)
    requires |images| < 0x1_0000 && forall im :: im in images ==> |im.bytes| < 0x1_0000_0000
    ensures var g := GroupIconDir(images);
      && |g| == 6 + 14 * |images| && Short(g, 0) == 0 && Short(g, 2) == 1 && Short(g, 4) == |images|
      && forall i :: 0 <= i < |images| ==> GroupEntryAt(g, 6 + 14 * i, images[i], i + 1)
  {
    hide GroupEntryAt, GroupEntries;
    EntriesAreLaidOut(images);
    var g, entries := GroupIconDir(images), GroupEntries(images);
    forall i | 0 <= i < |images| ensures GroupEntryAt(g, 6 + 14 * i, images[i], i + 1) {
      EntryInside(entries, 14 * i, images[i], i + 1);
      assert g[6 + 14 * i..6 + 14 * i + 14] == entries[14 * i..14 * i + 14];
      EntryMoved(entries, g, 14 * i, 6 + 14 * i, images[i], i + 1);
    }
  }

  /** A resource under one language, US English. */
  predicate InEnglish(node: ResNode, bytes: seq<byte>) {
    node == Dir(ResDir([ResEntry(Id(0x409), Data(bytes, 0))]))
  }

  lemma {:induction false} FilterIsPart(es: seq<ResEntry>, keep: ResKey -> bool)
    ensures forall e :: e in Filter(es, keep) <==> e in es && keep(e.key)
  {
    if es != [] {
      FilterIsPart(es[..|es| - 1], keep);
      assert es == es[..|es| - 1] + [es[|es| - 1]];
    }
  }

  /** Types 3 and 14 are replaced and no other: the images by number under the one, the group under the other. */
  lemma IconTypes(root: ResDir, images: seq<IconImage>)
    requires |images| < 0xffff_ffff
    ensures var es := WithIcons(root, images).entries;
      && |es| >= 2 && (forall e :: e in es[..|es| - 2] <==> e in root.entries && e.key != Id(3) && e.key != Id(14))
      && es[|es| - 2].key == Id(3) && es[|es| - 1].key == Id(14)
      && es[|es| - 2].node.Dir? && es[|es| - 1].node.Dir?
      && |es[|es| - 2].node.dir.entries| == |images| && |es[|es| - 1].node.dir.entries| == 1
      && (forall i :: 0 <= i < |images| ==>
            var e := es[|es| - 2].node.dir.entries[i]; e.key == Id(i + 1) && InEnglish(e.node, images[i].bytes))
      && var e := es[|es| - 1].node.dir.entries[0]; e.key == Id(1) && InEnglish(e.node, GroupIconDir(images))
  {
    hide Filter, GroupIconDir;
    var es, kept := WithIcons(root, images).entries, Filter(root.entries, Foreign);
    FilterIsPart(root.entries, Foreign);
    assert es[..|es| - 2] == kept;
  }

  // ---------------------------------------------------------------------------------------------
  // The new tree is within the format and the reader's limits
  // ---------------------------------------------------------------------------------------------

  lemma {:induction false} FilteredTally(es: seq<ResEntry>, keep: ResKey -> bool, levels: int)
    ensures var all, kept := TallyAll(es, levels), TallyAll(Filter(es, keep), levels);
      && (all.shallow ==> kept.shallow) && (all.inFormat ==> kept.inFormat) && kept.entries <= all.entries
  {
    hide TallyOne;
    if es != [] {
      var rest, last := es[..|es| - 1], es[|es| - 1];
      FilteredTally(rest, keep, levels);
      TallyAppend(rest, last, levels);
      assert es == rest + [last];
      FilterAppend(rest, last, keep);
      TallyAppend(Filter(rest, keep), last, levels);
    }
  }

  /** A resource under one id and one language. */
  lemma LangTally(id: u32, bytes: seq<byte>, levels: int)
    requires id < TAG && bytes != [] && levels > 0
    ensures var t := TallyOne(ResEntry(Id(id), Lang(Data(bytes, 0))), levels); t.entries == 2 && t.shallow && t.inFormat
  {
    hide TallyOf;
    OneEntryTally(ResEntry(Id(LANG_EN_US), Data(bytes, 0)), levels);
  }

  predicate ImagesHold(images: seq<IconImage>) {
    forall im :: im in images ==> im.bytes != []
  }

  lemma {:induction false} IconsTally(images: seq<IconImage>, levels: int)
    requires |images| < 0x1_0000 && ImagesHold(images) && levels > 0
    ensures var t := TallyAll(IconDir(images).entries, levels); t.entries == 2 * |images| && t.shallow && t.inFormat
  {
    hide TallyOne, TallyAll;
    if images == [] {
      NothingTallied(levels);
      assert IconDir(images).entries == [];
    } else {
      var fewer, last := images[..|images| - 1], images[|images| - 1];
      assert last in images;
      IconsTally(fewer, levels);
      var e := ResEntry(Id(|images|), Lang(Data(last.bytes, 0)));
      assert IconDir(images).entries == IconDir(fewer).entries + [e];
      TallyAppend(IconDir(fewer).entries, e, levels);
      LangTally(|images|, last.bytes, levels);
    }
  }

  lemma DirTally(id: u32, d: ResDir, levels: int)
    requires id < TAG
    ensures var t, u := TallyOne(ResEntry(Id(id), Dir(d)), levels), TallyOf(d, levels);
      t.entries == u.entries + 1 && t.shallow == u.shallow && t.inFormat == u.inFormat
  {
    hide TallyOf;
  }

  lemma GroupIsNotEmpty(images: seq<IconImage>)
    ensures GroupIconDir(images) != []
  {
    assert |GroupIconDir(images)| >= |Le16(0)|;
  }

  /** The counts that `TallyOf` asks for beside those of the entries. */
  lemma FewEntries(b: seq<byte>, root: ResDir)
    requires ParseTree(b) == Ok(root) && NoEmptyLeaf(root)
    ensures var t := TallyAll(Filter(root.entries, Foreign), LEVELS - 1);
      t.inFormat && t.shallow && t.entries <= TallyOf(root, LEVELS).entries && |Filter(root.entries, Foreign)| <= 8192
  {
    hide TallyOne, TallyAll, ParseTree, NoEmptyLeaves, Filter;
    ParsedTree(b);
    FilteredTally(root.entries, Foreign, LEVELS - 1);
    SlotsCounted(Filter(root.entries, Foreign), LEVELS - 1);
  }

  /** With what the reader gave and images that hold something, only the sizes are left to ask for. */
  lemma WithIconsFits(b: seq<byte>, root: ResDir, images: seq<IconImage>)
    requires ParseTree(b) == Ok(root) && NoEmptyLeaf(root) && ImagesHold(images) && |images| < 0x1_0000
    ensures var t := TallyOf(WithIcons(root, images), LEVELS);
      t.inFormat && t.shallow && t.entries <= TallyOf(root, LEVELS).entries + 2 * |images| + 4
  {
    hide TallyOne, TallyAll, ParseTree, NoEmptyLeaves, Filter, GroupIconDir;
    var kept := Filter(root.entries, Foreign);
    FewEntries(b, root);
    GroupIsNotEmpty(images);
    IconsTally(images, LEVELS - 2);
    DirTally(RT_ICON, IconDir(images), LEVELS - 1);
    LangTally(1, GroupIconDir(images), LEVELS - 2);
    OneEntryTally(ResEntry(Id(1), Lang(Data(GroupIconDir(images), 0))), LEVELS - 1);
    DirTally(RT_GROUP_ICON, GroupDir(images), LEVELS - 1);
    var icon, group := ResEntry(Id(RT_ICON), Dir(IconDir(images))), ResEntry(Id(RT_GROUP_ICON), Dir(GroupDir(images)));
    TallyAppend(kept, icon, LEVELS - 1);
    TallyAppend(kept + [icon], group, LEVELS - 1);
  }

  /** Puts the icons in the file, or leaves it as it was. */
  method AddIcon(f: PeFile, images: seq<IconImage>) returns (r: Result<()>)
    requires |images| < 0x1_0000 && ImagesHold(images)
    requires var info, root := Parse(f.bytes), ParseTree(f.bytes);
      images != [] && info.Ok? && root.Ok? && Room(info.value) ==>
        && SectionsFit(f.bytes, info.value)
        && (TableRead(f.bytes, info.value) ==>
              && Editable(f.bytes, info.value) && NoEmptyLeaf(root.value)
              && SizesFitImage(f.bytes, info.value, WithIcons(root.value, images)))
    modifies f
    ensures r.Ok? <==>
      && images != [] && Parse(old(f.bytes)).Ok? && ParseTree(old(f.bytes)).Ok?
      && Room(Parse(old(f.bytes)).value) && TableRead(old(f.bytes), Parse(old(f.bytes)).value)
    ensures r.Err? ==> f.bytes == old(f.bytes)
    ensures r.Ok? ==>
      exists data ::
        && Serialized(data, WithIcons(ParseTree(old(f.bytes)).value, images),
          NewRva(old(f.bytes), Parse(old(f.bytes)).value))
        && Edited(old(f.bytes), f.bytes, Parse(old(f.bytes)).value, data)
  {
    hide Serialized, Edited, SizesFitImage, WithIcons, Editable, TableRead, SectionsFit, Parse, ParseTree, NoEmptyLeaf,
      TallyOf;
    if images == [] {
      return Err("--icon: no icon images");
    }
    var root := ParseTree(f.bytes);
    if root.Err? {
      return Err("--icon: cannot read the engine's resources; build from another engine");
    }
    if NoEmptyLeaf(root.value) {
      WithIconsFits(f.bytes, root.value, images);
    }
    r := f.AppendRsrcSection(WithIcons(root.value, images));
  }

  lemma IconDirOrdered(images: seq<IconImage>)
    requires |images| < 0xffff_ffff
    ensures AllOrdered(IconDir(images)) && AllOrdered(GroupDir(images))
  {
    assert forall im: seq<byte> :: AllOrdered(ResDir([ResEntry(Id(LANG_EN_US), Data(im, 0))]));
  }

  lemma {:induction false} FilterNothing(es: seq<ResEntry>, f: ResKey -> bool, g: ResKey -> bool)
    requires forall k :: !(f(k) && g(k))
    ensures Filter(Filter(es, f), g) == []
  {
    if es != [] {
      var rest, last := es[..|es| - 1], es[|es| - 1];
      FilterNothing(rest, f, g);
      assert es == rest + [last] && !(f(last.key) && g(last.key));
      FilterAppend(rest, last, f);
      FilterAppend(Filter(rest, f), last, g);
    }
  }

  lemma {:induction false} FilterAgain(es: seq<ResEntry>, f: ResKey -> bool)
    ensures Filter(Filter(es, f), f) == Filter(es, f)
  {
    if es != [] {
      FilterAgain(es[..|es| - 1], f);
      FilterAppend(Filter(es[..|es| - 1], f), es[|es| - 1], f);
    }
  }

  /** By key, the new tree is the old one's foreign entries, one icon directory and one group. */
  lemma WithIconsByKey(root: ResDir, images: seq<IconImage>)
    requires |images| < 0xffff_ffff
    ensures Filter(WithIcons(root, images).entries, Foreign) == Filter(root.entries, Foreign)
    ensures Filter(WithIcons(root, images).entries, IsIcon) == [ResEntry(Id(RT_ICON), Dir(IconDir(images)))]
    ensures Filter(WithIcons(root, images).entries, IsGroupIcon) == [ResEntry(Id(RT_GROUP_ICON), Dir(GroupDir(images)))]
  {
    hide Filter, IconDir, GroupDir;
    var kept := Filter(root.entries, Foreign);
    var icon, group := ResEntry(Id(RT_ICON), Dir(IconDir(images))), ResEntry(Id(RT_GROUP_ICON), Dir(GroupDir(images)));
    FilterAgain(root.entries, Foreign);
    FilterNothing(root.entries, Foreign, IsIcon);
    FilterNothing(root.entries, Foreign, IsGroupIcon);
    FilterAppend(kept, icon, Foreign);
    FilterAppend(kept + [icon], group, Foreign);
    FilterAppend(kept, icon, IsIcon);
    FilterAppend(kept + [icon], group, IsIcon);
    FilterAppend(kept, icon, IsGroupIcon);
    FilterAppend(kept + [icon], group, IsGroupIcon);
  }

  lemma SortedSingle(e: ResEntry)
    requires e.node.Dir? && AllOrdered(e.node.dir)
    ensures Sorted(ResDir([e])).entries == [e]
  {
    assert AllOrdered(ResDir([e]));
    OrderedIsSorted(ResDir([e]));
  }

  /** Read back, the image's tree has the resources it had before, in order, the given images as its only
      icons and their group as its only icon group. */
  lemma IconsReplaceOnlyIcons(b: seq<byte>, c: seq<byte>, info: PeInfo, data: seq<byte>, root: ResDir,
                              images: seq<IconImage>)
    requires |images| < 0x1_0000 && ParseTree(b) == Ok(root) && NoEmptyLeaf(root) && ImagesHold(images)
    requires WellFormed(b, info) && SizesFitImage(b, info, WithIcons(root, images))
    requires Serialized(data, WithIcons(root, images), NewRva(b, info)) && Edited(b, c, info, data)
    requires HasResourceSlot(b, info) && NewRva(b, info) > 0
    requires TallyOf(WithIcons(root, images), LEVELS).entries <= MAX_RES_ENTRIES
    ensures ParseTree(c).Ok?
    ensures var es := ParseTree(c).value.entries;
      && Ordered(es)
      && Filter(es, Foreign) == Sorted(ResDir(Filter(root.entries, Foreign))).entries
      && Filter(es, IsIcon) == [ResEntry(Id(RT_ICON), Dir(IconDir(images)))]
      && Filter(es, IsGroupIcon) == [ResEntry(Id(RT_GROUP_ICON), Dir(GroupDir(images)))]
  {
    hide WellFormed, SizesFitImage, Serialized, Edited, ParseTree, Filter, Sorted, WithIcons, IconDir, GroupDir,
      NewRva, TallyOf, NoEmptyLeaf;
    var tree := WithIcons(root, images);
    WithIconsFits(b, root, images);
    TreeReadBack(b, c, info, data, tree);
    SortedIsOrdered(tree);
    SortedFiltered(tree, Foreign);
    SortedFiltered(tree, IsIcon);
    SortedFiltered(tree, IsGroupIcon);
    WithIconsByKey(root, images);
    IconDirOrdered(images);
    SortedSingle(ResEntry(Id(RT_ICON), Dir(IconDir(images))));
    SortedSingle(ResEntry(Id(RT_GROUP_ICON), Dir(GroupDir(images))));
  }
}
