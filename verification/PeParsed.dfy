/** What the reader gives is within the reader's limits, and within the format unless it has an empty leaf. */
module PeParsed {
  import opened Wrappers
  import opened PeBytes
  import opened PeTree
  import opened PeWrite
  import opened PeParse

  predicate NoEmptyLeaf(d: ResDir)
    decreases d, 0
  {
    NoEmptyLeaves(d.entries)
  }

  predicate NoEmptyLeaves(es: seq<ResEntry>)
    decreases es, 0
  {
    es == [] || (NoEmptyLeaves(es[..|es| - 1]) && NoEmptyLeafIn(es[|es| - 1]))
  }

  predicate NoEmptyLeafIn(e: ResEntry)
    decreases e, 0
  {
    match e.node
    case Dir(sub) => NoEmptyLeaf(sub)
    case Data(bytes, _) => bytes != []
  }

  lemma {:induction false} UnitsCounted(b: seq<byte>, at: nat, n: nat)
    requires ParseUnits(b, at, n).Ok?
    ensures |ParseUnits(b, at, n).value| == n
  {
    if n > 0 {
      UnitsCounted(b, at, n - 1);
    }
  }

  lemma KeyInFormat(b: seq<byte>, base: nat, id: u32)
    requires ParseKey(b, base, id).Ok?
    ensures TallyKey(ParseKey(b, base, id).value).inFormat
  {
    if id >= TAG {
      var at := base + (id - TAG);
      UnitsCounted(b, at + 2, U16At(b, at).value);
    }
  }

  /** A directory that was read nests no deeper than allowed, holds as many entries as were taken from the
      budget, and every id, name and count of it fits the format. */
  lemma {:induction false} ParsedDir(b: seq<byte>, info: PeInfo, base: nat, off: nat, depth: nat, budget: nat)
    requires ParseDir(b, info, base, off, depth, budget).Ok? && budget < 0x1_0000
    ensures var (d, rest) := ParseDir(b, info, base, off, depth, budget).value;
      var t := TallyOf(d, LEVELS - depth);
      t.shallow && rest <= budget && t.entries == budget - rest && (NoEmptyLeaf(d) ==> t.inFormat)
    decreases LEVELS - depth, 1, 0
  {
    hide U16At, TallyAll, NoEmptyLeaves, ParseDir, ParseEntries;
    var n := DirCount(b, info, base, off, depth, budget);
    ParsedEntries(b, info, base, base + off, n, depth, budget);
    SlotsCounted(ParseDir(b, info, base, off, depth, budget).value.0.entries, LEVELS - depth - 1);
  }

  /** The entries of a directory that was read, by number. */
  lemma DirCount(b: seq<byte>, info: PeInfo, base: nat, off: nat, depth: nat, budget: nat) returns (n: nat)
    requires ParseDir(b, info, base, off, depth, budget).Ok?
    ensures depth < LEVELS
    ensures var es := ParseEntries(b, info, base, base + off, n, depth, budget);
      es.Ok? && ParseDir(b, info, base, off, depth, budget).value == (ResDir(es.value.0), es.value.1)
  {
    hide U16At, ParseEntries;
    n := U16At(b, base + off + 12).value + U16At(b, base + off + 14).value;
  }

  lemma {:induction false} ParsedEntries(b: seq<byte>, info: PeInfo, base: nat, at: nat, n: nat, depth: nat,
                                         budget: nat)
    requires depth < LEVELS && ParseEntries(b, info, base, at, n, depth, budget).Ok? && budget < 0x1_0000
    ensures var (es, rest) := ParseEntries(b, info, base, at, n, depth, budget).value;
      var t := TallyAll(es, LEVELS - depth - 1);
      t.shallow && rest <= budget && t.entries == budget - rest && (NoEmptyLeaves(es) ==> t.inFormat)
    decreases LEVELS - depth, 0, n
  {
    hide U32At, ParseKey, ParseNode, TallyOne, NoEmptyLeafIn;
    if n > 0 {
      ParsedEntries(b, info, base, at, n - 1, depth, budget);
      var before := ParseEntries(b, info, base, at, n - 1, depth, budget).value;
      var slot := at + 16 + (n - 1) * 8;
      var id, off := U32At(b, slot).value, U32At(b, slot + 4).value;
      KeyInFormat(b, base, id);
      ParsedNode(b, info, base, id, off, depth, before.1 - 1);
      var e := ResEntry(ParseKey(b, base, id).value, ParseNode(b, info, base, off, depth, before.1 - 1).value.0);
      TallyAppend(before.0, e, LEVELS - depth - 1);
      assert (before.0 + [e])[..|before.0|] == before.0;
    } else {
      NothingTallied(LEVELS - depth - 1);
    }
  }

  lemma {:induction false} ParsedNode(b: seq<byte>, info: PeInfo, base: nat, id: u32, off: u32, depth: nat, budget: nat)
    requires depth < LEVELS && budget < 0x1_0000
    requires ParseKey(b, base, id).Ok? && TallyKey(ParseKey(b, base, id).value).inFormat
    requires ParseNode(b, info, base, off, depth, budget).Ok?
    ensures var (node, rest) := ParseNode(b, info, base, off, depth, budget).value;
      var e := ResEntry(ParseKey(b, base, id).value, node);
      var t := TallyOne(e, LEVELS - depth - 1);
      t.shallow && rest <= budget && t.entries == 1 + budget - rest && (NoEmptyLeafIn(e) ==> t.inFormat)
    decreases LEVELS - depth, 0, 0
  {
    hide ParseDir, ParseKey, TallyOf, NoEmptyLeaf;
    if off >= TAG {
      ParsedDir(b, info, base, off - TAG, depth + 1, budget);
    }
  }

  /** The tree of an image is within the reader's own limits; and the format can hold it again unless it has an
      empty leaf. */
  lemma ParsedTree(b: seq<byte>)
    requires ParseTree(b).Ok?
    ensures var root := ParseTree(b).value;
      var t := TallyOf(root, LEVELS);
      t.shallow && t.entries <= MAX_RES_ENTRIES && (NoEmptyLeaf(root) ==> t.inFormat)
  {
    hide Parse, RvaToOffset, ParseDir, TallyAll, NoEmptyLeaves;
    var info := Parse(b).value;
    if info.resourceRva == 0 || info.resourceSize == 0 {
      NothingTallied(LEVELS - 1);
    } else {
      ParsedDir(b, info, RvaToOffset(b, info, info.resourceRva, 16).value, 0, 0, MAX_RES_ENTRIES);
    }
  }
}
