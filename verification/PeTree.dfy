/** Resource trees (Microsoft PE Format, "The .rsrc Section"), what `measure` adds up over them, and the
    order in which the loader wants their entries. */
module PeTree {
  import opened PeBytes

  datatype ResKey = Id(id: u32) | Name(units: seq<u16>)

  datatype ResNode = Dir(dir: ResDir) | Data(bytes: seq<byte>, codepage: u32)

  datatype ResEntry = ResEntry(key: ResKey, node: ResNode)

  datatype ResDir = ResDir(entries: seq<ResEntry>)

  // ---------------------------------------------------------------------------------------------
  // What a tree adds up to
  // ---------------------------------------------------------------------------------------------

  /** The totals of a tree. `shallow` says that it has no more levels of directories than allowed,
      `inFormat` that every count, name, id and leaf is one the format can hold. */
  datatype Tally = Tally(dirs: nat, entries: nat, leaves: nat, nameBytes: nat, dataBytes: nat, shallow: bool,
    inFormat: bool)

  function Zero(): Tally {
    Tally(0, 0, 0, 0, 0, true, true)
  }

  function Plus(a: Tally, b: Tally): Tally {
    Tally(a.dirs + b.dirs, a.entries + b.entries, a.leaves + b.leaves, a.nameBytes + b.nameBytes,
          a.dataBytes + b.dataBytes, a.shallow && b.shallow, a.inFormat && b.inFormat)
  }

  /** The totals of a directory with `levels` levels of directories allowed, itself included. */
  function TallyOf(d: ResDir, levels: int): Tally
    decreases d, 0
  {
    var t := TallyAll(d.entries, levels - 1);
    t.(dirs := t.dirs + 1, shallow := t.shallow && levels > 0, inFormat := t.inFormat && |d.entries| < 0x1_0000)
  }

  function TallyAll(es: seq<ResEntry>, levels: int): Tally
    decreases es, 0
  {
    if es == [] then Zero() else Plus(TallyAll(es[..|es| - 1], levels), TallyOne(es[|es| - 1], levels))
  }

  function TallyKey(k: ResKey): Tally {
    match k
    case Id(id) => Zero().(entries := 1, inFormat := id < TAG)
    case Name(units) => Zero().(entries := 1, nameBytes := 2 + 2 * |units|, inFormat := |units| < 0x1_0000)
  }

  function TallyOne(e: ResEntry, levels: int): Tally
    decreases e, 0
  {
    Plus(TallyKey(e.key),
         match e.node
         case Dir(sub) => TallyOf(sub, levels)
         case Data(bytes, _) => Zero().(leaves := 1, dataBytes := Align8(|bytes|), inFormat := 0 < |bytes|))
  }

  /** Bytes of the directory region. */
  function DirSize(t: Tally): nat {
    16 * t.dirs + 8 * t.entries
  }

  lemma PlusAssociates(a: Tally, b: Tally, c: Tally)
    ensures Plus(Plus(a, b), c) == Plus(a, Plus(b, c))
    ensures Plus(a, b) == Plus(b, a)
    ensures Plus(a, Zero()) == a
  {
  }

  lemma TallyAppend(es: seq<ResEntry>, e: ResEntry, levels: int)
    ensures TallyAll(es + [e], levels) == Plus(TallyAll(es, levels), TallyOne(e, levels))
  {
    assert (es + [e])[..|es|] == es;
  }

  lemma NothingTallied(levels: int)
    ensures TallyAll([], levels) == Zero()
  {
  }

  lemma OneEntryTally(e: ResEntry, levels: int)
    ensures var d, t := ResDir([e]), TallyOne(e, levels - 1);
      TallyOf(d, levels) == t.(dirs := t.dirs + 1, shallow := t.shallow && levels > 0)
  {
    hide TallyOne, TallyAll;
    NothingTallied(levels - 1);
    assert [e] == [] + [e];
    TallyAppend([], e, levels - 1);
  }

  lemma {:induction false} TallyConcat(a: seq<ResEntry>, b: seq<ResEntry>, levels: int)
    ensures TallyAll(a + b, levels) == Plus(TallyAll(a, levels), TallyAll(b, levels))
  {
    if b == [] {
      assert a + b == a;
    } else {
      var rest, last := b[..|b| - 1], b[|b| - 1];
      TallyConcat(a, rest, levels);
      assert b == rest + [last] && a + b == (a + rest) + [last];
      TallyAppend(a + rest, last, levels);
      TallyAppend(rest, last, levels);
      PlusAssociates(TallyAll(a, levels), TallyAll(rest, levels), TallyOne(last, levels));
    }
  }

  /** Each prefix of the entries adds up to no more than all of them. */
  lemma {:induction false} TallyPrefix(es: seq<ResEntry>, i: nat, levels: int)
    requires i < |es|
    ensures TallyAll(es[..i + 1], levels) == Plus(TallyAll(es[..i], levels), TallyOne(es[i], levels))
    ensures TallyAll(es, levels) == Plus(TallyAll(es[..i + 1], levels), TallyAll(es[i + 1..], levels))
  {
    assert es[..i + 1][..i] == es[..i];
    TallyConcat(es[..i + 1], es[i + 1..], levels);
    assert es == es[..i + 1] + es[i + 1..];
  }

  // ---------------------------------------------------------------------------------------------
  // The loader's order
  // ---------------------------------------------------------------------------------------------

  /** `Vec<u16>`'s order: code units left to right, a prefix first. */
  predicate UnitsLe(a: seq<u16>, b: seq<u16>) {
    a == [] || (b != [] && (a[0] < b[0] || (a[0] == b[0] && UnitsLe(a[1..], b[1..]))))
  }

  /** Names first, then ids ascending. */
  predicate KeyLe(a: ResKey, b: ResKey) {
    match (a, b)
    case (Name(x), Name(y)) => UnitsLe(x, y)
    case (Name(_), Id(_)) => true
    case (Id(_), Name(_)) => false
    case (Id(x), Id(y)) => x <= y
  }

  /** A stable sort puts `e`, which comes last, behind everything not above it. */
  function Insert(es: seq<ResEntry>, e: ResEntry): seq<ResEntry> {
    if es == [] || KeyLe(es[|es| - 1].key, e.key) then es + [e]
    else Insert(es[..|es| - 1], e) + [es[|es| - 1]]
  }

  /** `slice::sort_by`, which is stable. */
  function StableSort(es: seq<ResEntry>): seq<ResEntry> {
    if es == [] then [] else Insert(StableSort(es[..|es| - 1]), es[|es| - 1])
  }

  function Filter(es: seq<ResEntry>, keep: ResKey -> bool): seq<ResEntry> {
    if es == [] then []
    else Filter(es[..|es| - 1], keep) + (if keep(es[|es| - 1].key) then [es[|es| - 1]] else [])
  }

  predicate IsName(k: ResKey) {
    k.Name?
  }

  predicate IsId(k: ResKey) {
    k.Id?
  }

  /** A copy of the tree in the loader's order at every level. (The children are put in order first:
      their keys do not change, so it is the same as doing it last.) */
  function Sorted(d: ResDir): ResDir
    decreases d, 0
  {
    ResDir(StableSort(Filter(SortedNodes(d.entries), IsName)) + StableSort(Filter(SortedNodes(d.entries), IsId)))
  }

  function SortedNodes(es: seq<ResEntry>): seq<ResEntry>
    decreases es, 0
  {
    if es == [] then [] else SortedNodes(es[..|es| - 1]) + [SortedNode(es[|es| - 1])]
  }

  function SortedNode(e: ResEntry): ResEntry
    decreases e, 0
  {
    match e.node
    case Dir(sub) => ResEntry(e.key, Dir(Sorted(sub)))
    case Data(_, _) => e
  }

  // ---------------------------------------------------------------------------------------------
  // Sorting loses nothing
  // ---------------------------------------------------------------------------------------------

  lemma PlusSwaps(a: Tally, b: Tally, c: Tally)
    ensures Plus(Plus(a, b), c) == Plus(Plus(a, c), b)
  {
    PlusAssociates(a, b, c);
    PlusAssociates(b, c, Zero());
    PlusAssociates(a, c, b);
  }

  lemma {:induction false} InsertKeeps(es: seq<ResEntry>, e: ResEntry)
    ensures multiset(Insert(es, e)) == multiset(es) + multiset{e}
    ensures |Insert(es, e)| == |es| + 1
  {
    if es != [] && !KeyLe(es[|es| - 1].key, e.key) {
      InsertKeeps(es[..|es| - 1], e);
      assert es == es[..|es| - 1] + [es[|es| - 1]];
    }
  }

  lemma SortAppend(es: seq<ResEntry>, e: ResEntry)
    ensures StableSort(es + [e]) == Insert(StableSort(es), e)
  {
    assert (es + [e])[..|es|] == es;
  }

  lemma FilterAppend(es: seq<ResEntry>, e: ResEntry, keep: ResKey -> bool)
    ensures Filter(es + [e], keep) == if keep(e.key) then Filter(es, keep) + [e] else Filter(es, keep)
  {
    assert (es + [e])[..|es|] == es;
    assert Filter(es, keep) + [] == Filter(es, keep);
  }

  lemma NodesAppend(es: seq<ResEntry>, e: ResEntry)
    ensures SortedNodes(es + [e]) == SortedNodes(es) + [SortedNode(e)]
  {
    assert (es + [e])[..|es|] == es;
  }

  lemma {:induction false} SortKeeps(es: seq<ResEntry>)
    ensures multiset(StableSort(es)) == multiset(es)
    ensures |StableSort(es)| == |es|
  {
    if es != [] {
      SortKeeps(es[..|es| - 1]);
      InsertKeeps(StableSort(es[..|es| - 1]), es[|es| - 1]);
      assert es == es[..|es| - 1] + [es[|es| - 1]];
    }
  }

  lemma {:induction false} SplitKeeps(es: seq<ResEntry>)
    ensures multiset(Filter(es, IsName)) + multiset(Filter(es, IsId)) == multiset(es)
    ensures |Filter(es, IsName)| + |Filter(es, IsId)| == |es|
  {
    if es != [] {
      var rest, last := es[..|es| - 1], es[|es| - 1];
      SplitKeeps(rest);
      assert es == rest + [last];
    }
  }

  lemma TallyWithout(es: seq<ResEntry>, i: nat, levels: int)
    requires i < |es|
    ensures TallyAll(es, levels) == Plus(TallyAll(es[..i] + es[i + 1..], levels), TallyOne(es[i], levels))
  {
    var a, b := es[..i], es[i + 1..];
    assert es == (a + [es[i]]) + b;
    TallyConcat(a + [es[i]], b, levels);
    TallyAppend(a, es[i], levels);
    TallyConcat(a, b, levels);
    PlusSwaps(TallyAll(a, levels), TallyOne(es[i], levels), TallyAll(b, levels));
  }

  lemma Removed(es: seq<ResEntry>, i: nat)
    requires i < |es|
    ensures multiset(es[..i] + es[i + 1..]) == multiset(es) - multiset{es[i]}
  {
    assert es == es[..i] + [es[i]] + es[i + 1..];
  }

  /** The totals do not depend on the order of the entries. */
  lemma {:induction false} TallyPermuted(a: seq<ResEntry>, b: seq<ResEntry>, levels: int)
    requires multiset(a) == multiset(b)
    ensures TallyAll(a, levels) == TallyAll(b, levels) && |a| == |b|
  {
    assert |a| == |multiset(a)| == |multiset(b)| == |b|;
    if a != [] {
      var rest, last := a[..|a| - 1], a[|a| - 1];
      assert a == rest + [last];
      assert last in multiset(b);
      var i :| 0 <= i < |b| && b[i] == last;
      Removed(b, i);
      Removed(a, |a| - 1);
      assert a[..|a| - 1] + a[|a|..] == rest;
      TallyPermuted(rest, b[..i] + b[i + 1..], levels);
      TallyWithout(b, i, levels);
    }
  }

  /** The tree in order adds up to the same, level by level. */
  lemma {:induction false} SortedTally(d: ResDir, levels: int)
    ensures TallyOf(Sorted(d), levels) == TallyOf(d, levels)
    decreases d, 0
  {
    SortedNodesTally(d.entries, levels - 1);
    SortedPermutes(d);
    TallyPermuted(Sorted(d).entries, SortedNodes(d.entries), levels - 1);
  }

  lemma SortedPermutes(d: ResDir)
    ensures multiset(Sorted(d).entries) == multiset(SortedNodes(d.entries))
  {
    var es := SortedNodes(d.entries);
    SplitKeeps(es);
    SortKeeps(Filter(es, IsName));
    SortKeeps(Filter(es, IsId));
  }

  lemma {:induction false} SortedNodesTally(es: seq<ResEntry>, levels: int)
    ensures TallyAll(SortedNodes(es), levels) == TallyAll(es, levels) && |SortedNodes(es)| == |es|
    decreases es, 0
  {
    if es != [] {
      var rest, last := es[..|es| - 1], es[|es| - 1];
      SortedNodesTally(rest, levels);
      SortedNodeTally(last, levels);
      TallyAppend(SortedNodes(rest), SortedNode(last), levels);
    }
  }

  lemma {:induction false} SortedNodeTally(e: ResEntry, levels: int)
    ensures TallyOne(SortedNode(e), levels) == TallyOne(e, levels) && SortedNode(e).key == e.key
    decreases e, 0
  {
    if e.node.Dir? {
      SortedTally(e.node.dir, levels);
    }
  }

  // ---------------------------------------------------------------------------------------------
  // Sorting sorts
  // ---------------------------------------------------------------------------------------------

  lemma {:induction false} UnitsLeTotal(a: seq<u16>, b: seq<u16>)
    ensures UnitsLe(a, b) || UnitsLe(b, a)
    ensures UnitsLe(a, b) && UnitsLe(b, a) ==> a == b
  {
    if a != [] && b != [] && a[0] == b[0] {
      UnitsLeTotal(a[1..], b[1..]);
      assert a == [a[0]] + a[1..] && b == [b[0]] + b[1..];
    }
  }

  lemma {:induction false} UnitsLeTransitive(a: seq<u16>, b: seq<u16>, c: seq<u16>)
    requires UnitsLe(a, b) && UnitsLe(b, c)
    ensures UnitsLe(a, c)
  {
    if a != [] && b != [] && c != [] && a[0] == b[0] == c[0] {
      UnitsLeTransitive(a[1..], b[1..], c[1..]);
    }
  }

  /** The loader's order is total, and only equal keys are level. */
  lemma KeyLeTotal(a: ResKey, b: ResKey)
    ensures KeyLe(a, b) || KeyLe(b, a)
    ensures KeyLe(a, b) && KeyLe(b, a) ==> a == b
  {
    if a.Name? && b.Name? {
      UnitsLeTotal(a.units, b.units);
    }
  }

  lemma KeyLeTransitive(a: ResKey, b: ResKey, c: ResKey)
    requires KeyLe(a, b) && KeyLe(b, c)
    ensures KeyLe(a, c)
  {
    if a.Name? && b.Name? && c.Name? {
      UnitsLeTransitive(a.units, b.units, c.units);
    }
  }

  predicate Ordered(es: seq<ResEntry>) {
    forall i, j :: 0 <= i < j < |es| ==> KeyLe(es[i].key, es[j].key)
  }

  lemma {:induction false} InsertFrom(es: seq<ResEntry>, e: ResEntry)
    ensures forall x :: x in Insert(es, e) ==> x == e || x in es
  {
    if es != [] {
      InsertFrom(es[..|es| - 1], e);
    }
  }

  lemma {:induction false} InsertOrders(es: seq<ResEntry>, e: ResEntry)
    requires Ordered(es)
    ensures Ordered(Insert(es, e))
  {
    if es == [] {
    } else if KeyLe(es[|es| - 1].key, e.key) {
      forall i | 0 <= i < |es| ensures KeyLe(es[i].key, e.key) {
        if i < |es| - 1 {
          KeyLeTransitive(es[i].key, es[|es| - 1].key, e.key);
        }
      }
    } else {
      var rest, last := es[..|es| - 1], es[|es| - 1];
      InsertOrders(rest, e);
      InsertFrom(rest, e);
      KeyLeTotal(last.key, e.key);
      var more := Insert(rest, e);
      forall i | 0 <= i < |more| ensures KeyLe(more[i].key, last.key) {
        assert more[i] in more;
      }
    }
  }

  lemma {:induction false} SortOrders(es: seq<ResEntry>)
    ensures Ordered(StableSort(es))
  {
    if es != [] {
      SortOrders(es[..|es| - 1]);
      InsertOrders(StableSort(es[..|es| - 1]), es[|es| - 1]);
    }
  }

  lemma {:induction false} FilterKeys(es: seq<ResEntry>, keep: ResKey -> bool)
    ensures forall x :: x in Filter(es, keep) ==> keep(x.key)
  {
    if es != [] {
      FilterKeys(es[..|es| - 1], keep);
    }
  }

  lemma SameElements(a: seq<ResEntry>, b: seq<ResEntry>)
    requires multiset(a) == multiset(b)
    ensures forall x :: x in a <==> x in b
  {
    forall x ensures x in a <==> x in b {
      assert x in a <==> x in multiset(a);
      assert x in b <==> x in multiset(b);
    }
  }

  /** The top level is in the loader's order and has the same entries, each with its subtree in order. */
  lemma SortedIsOrdered(d: ResDir)
    ensures Ordered(Sorted(d).entries)
    ensures multiset(Sorted(d).entries) == multiset(SortedNodes(d.entries))
  {
    var es := SortedNodes(d.entries);
    var names, ids := Filter(es, IsName), Filter(es, IsId);
    SortedPermutes(d);
    SortKeeps(names);
    SortKeeps(ids);
    SortOrders(names);
    SortOrders(ids);
    FilterKeys(es, IsName);
    FilterKeys(es, IsId);
    SameElements(StableSort(names), names);
    SameElements(StableSort(ids), ids);
  }

  /** In order at every level. */
  predicate AllOrdered(d: ResDir)
    decreases d
  {
    && Ordered(d.entries)
    && forall i :: 0 <= i < |d.entries| && d.entries[i].node.Dir? ==> AllOrdered(d.entries[i].node.dir)
  }

  lemma {:induction false} SortedIsAllOrdered(d: ResDir)
    ensures AllOrdered(Sorted(d))
    decreases d, 0
  {
    SortedIsOrdered(d);
    SortedNodesAllOrdered(d.entries);
    SameElements(Sorted(d).entries, SortedNodes(d.entries));
    forall i | 0 <= i < |Sorted(d).entries| && Sorted(d).entries[i].node.Dir?
      ensures AllOrdered(Sorted(d).entries[i].node.dir)
    {
      assert Sorted(d).entries[i] in SortedNodes(d.entries);
    }
  }

  lemma {:induction false} SortedNodesAllOrdered(es: seq<ResEntry>)
    ensures forall x :: x in SortedNodes(es) && x.node.Dir? ==> AllOrdered(x.node.dir)
    decreases es, 0
  {
    if es != [] {
      SortedNodesAllOrdered(es[..|es| - 1]);
      SortedNodeAllOrdered(es[|es| - 1]);
    }
  }

  lemma {:induction false} SortedNodeAllOrdered(e: ResEntry)
    ensures SortedNode(e).node.Dir? ==> AllOrdered(SortedNode(e).node.dir)
    decreases e, 0
  {
    if e.node.Dir? {
      SortedIsAllOrdered(e.node.dir);
    }
  }

  // ---------------------------------------------------------------------------------------------
  // Sorting is stable
  // ---------------------------------------------------------------------------------------------

  lemma {:induction false} InsertFiltered(es: seq<ResEntry>, e: ResEntry, keep: ResKey -> bool)
    requires Ordered(es)
    ensures Filter(Insert(es, e), keep) == if keep(e.key) then Insert(Filter(es, keep), e) else Filter(es, keep)
  {
    if es == [] || KeyLe(es[|es| - 1].key, e.key) {
      FilterAppend(es, e, keep);
      if keep(e.key) && es != [] {
        InsertAbove(es, e, keep);
      }
    } else {
      var rest, last := es[..|es| - 1], es[|es| - 1];
      assert es == rest + [last];
      InsertFiltered(rest, e, keep);
      FilterAppend(Insert(rest, e), last, keep);
      FilterAppend(rest, last, keep);
      if keep(last.key) {
        var kept := Filter(rest, keep);
        assert (kept + [last])[..|kept|] == kept;
      }
    }
  }

  lemma {:induction false} InsertAbove(es: seq<ResEntry>, e: ResEntry, keep: ResKey -> bool)
    requires es != [] && Ordered(es) && KeyLe(es[|es| - 1].key, e.key)
    ensures Insert(Filter(es, keep), e) == Filter(es, keep) + [e]
  {
    var kept := Filter(es, keep);
    if kept != [] {
      FilterFrom(es, keep);
      var last := kept[|kept| - 1];
      assert last in kept;
      var i :| 0 <= i < |es| && es[i] == last;
      if i < |es| - 1 {
        KeyLeTransitive(es[i].key, es[|es| - 1].key, e.key);
      }
    }
  }

  lemma {:induction false} FilterFrom(es: seq<ResEntry>, keep: ResKey -> bool)
    ensures forall x :: x in Filter(es, keep) ==> x in es
  {
    if es != [] {
      FilterFrom(es[..|es| - 1], keep);
    }
  }

  /** Entries picked by key keep their order among themselves: picking and sorting commute. */
  lemma {:induction false} SortFiltered(es: seq<ResEntry>, keep: ResKey -> bool)
    ensures Filter(StableSort(es), keep) == StableSort(Filter(es, keep))
  {
    if es != [] {
      var rest, last := es[..|es| - 1], es[|es| - 1];
      assert es == rest + [last];
      SortFiltered(rest, keep);
      SortOrders(rest);
      InsertFiltered(StableSort(rest), last, keep);
      FilterAppend(rest, last, keep);
      SortAppend(Filter(rest, keep), last);
    }
  }

  lemma {:induction false} FilterTwice(es: seq<ResEntry>, f: ResKey -> bool, g: ResKey -> bool)
    ensures Filter(Filter(es, f), g) == Filter(Filter(es, g), f)
  {
    if es != [] {
      var rest, last := es[..|es| - 1], es[|es| - 1];
      assert es == rest + [last];
      FilterTwice(rest, f, g);
      FilterAppend(rest, last, f);
      FilterAppend(rest, last, g);
      FilterAppend(Filter(rest, f), last, g);
      FilterAppend(Filter(rest, g), last, f);
    }
  }

  lemma {:induction false} FilterConcat(a: seq<ResEntry>, b: seq<ResEntry>, keep: ResKey -> bool)
    ensures Filter(a + b, keep) == Filter(a, keep) + Filter(b, keep)
  {
    if b == [] {
      assert a + b == a;
    } else {
      FilterConcat(a, b[..|b| - 1], keep);
      assert (a + b)[..|a + b| - 1] == a + b[..|b| - 1];
    }
  }

  lemma {:induction false} SortedNodesFiltered(es: seq<ResEntry>, keep: ResKey -> bool)
    ensures Filter(SortedNodes(es), keep) == SortedNodes(Filter(es, keep))
  {
    if es != [] {
      var rest, last := es[..|es| - 1], es[|es| - 1];
      assert es == rest + [last];
      SortedNodesFiltered(rest, keep);
      NodesAppend(rest, last);
      FilterAppend(rest, last, keep);
      FilterAppend(SortedNodes(rest), SortedNode(last), keep);
      NodesAppend(Filter(rest, keep), last);
      assert SortedNode(last).key == last.key;
    }
  }

  /** The entries with some keys, in the sorted tree, are those entries sorted on their own. */
  lemma SortedFiltered(d: ResDir, keep: ResKey -> bool)
    ensures Filter(Sorted(d).entries, keep) == Sorted(ResDir(Filter(d.entries, keep))).entries
  {
    var es := SortedNodes(d.entries);
    SortedNodesFiltered(d.entries, keep);
    FilterConcat(StableSort(Filter(es, IsName)), StableSort(Filter(es, IsId)), keep);
    SortFiltered(Filter(es, IsName), keep);
    SortFiltered(Filter(es, IsId), keep);
    FilterTwice(es, IsName, keep);
    FilterTwice(es, IsId, keep);
  }

  // ---------------------------------------------------------------------------------------------
  // Sorting what is in order
  // ---------------------------------------------------------------------------------------------

  lemma {:induction false} OrderedStays(es: seq<ResEntry>)
    requires Ordered(es)
    ensures StableSort(es) == es
  {
    if es != [] {
      OrderedStays(es[..|es| - 1]);
      assert es == es[..|es| - 1] + [es[|es| - 1]];
    }
  }

  lemma {:induction false} NamesOnly(es: seq<ResEntry>)
    requires forall x :: x in es ==> x.key.Name?
    ensures Filter(es, IsName) == es && Filter(es, IsId) == []
  {
    if es != [] {
      var rest, last := es[..|es| - 1], es[|es| - 1];
      assert es == rest + [last];
      NamesOnly(rest);
      FilterAppend(rest, last, IsName);
      FilterAppend(rest, last, IsId);
    }
  }

  lemma {:induction false} OrderedSplits(es: seq<ResEntry>)
    requires Ordered(es)
    ensures Filter(es, IsName) + Filter(es, IsId) == es
  {
    if es != [] {
      var rest, last := es[..|es| - 1], es[|es| - 1];
      assert es == rest + [last];
      if last.key.Name? {
        forall x | x in es ensures x.key.Name? {
          var i :| 0 <= i < |es| && es[i] == x;
          assert i < |es| - 1 ==> KeyLe(x.key, last.key);
        }
        NamesOnly(es);
      } else {
        OrderedSplits(rest);
        FilterAppend(rest, last, IsName);
        FilterAppend(rest, last, IsId);
      }
    }
  }

  lemma {:induction false} FilterOrdered(es: seq<ResEntry>, keep: ResKey -> bool)
    requires Ordered(es)
    ensures Ordered(Filter(es, keep))
  {
    OrderedStays(es);
    SortFiltered(es, keep);
    SortOrders(Filter(es, keep));
  }

  /** A tree already in order is left alone; so sorting twice is sorting once. */
  lemma {:induction false} OrderedIsSorted(d: ResDir)
    requires AllOrdered(d)
    ensures Sorted(d) == d
    decreases d, 0
  {
    NodesOrdered(d, |d.entries|);
    assert d.entries[..|d.entries|] == d.entries;
    OrderedSplits(d.entries);
    FilterOrdered(d.entries, IsName);
    FilterOrdered(d.entries, IsId);
    OrderedStays(Filter(d.entries, IsName));
    OrderedStays(Filter(d.entries, IsId));
  }

  lemma {:induction false} NodesOrdered(d: ResDir, n: nat)
    requires AllOrdered(d) && n <= |d.entries|
    ensures SortedNodes(d.entries[..n]) == d.entries[..n]
    decreases d, 0, n
  {
    if n > 0 {
      NodesOrdered(d, n - 1);
      var e := d.entries[n - 1];
      if e.node.Dir? {
        OrderedIsSorted(e.node.dir);
      }
      NodesAppend(d.entries[..n - 1], e);
      assert d.entries[..n] == d.entries[..n - 1] + [e];
    }
  }

  lemma SortedTwice(d: ResDir)
    ensures Sorted(Sorted(d)) == Sorted(d)
  {
    SortedIsAllOrdered(d);
    OrderedIsSorted(Sorted(d));
  }
}
