/**
 Where links, `..` and missing names lead, in terms of other paths; what counts as a folder met before; and what the
 decision makes of it.
 */
module Links {
  import opened Wrappers
  import opened Paths
  import opened Walk
  import opened Touching

  // ---------------------------------------------------------------------------------------------
  // Where a component leads
  // ---------------------------------------------------------------------------------------------

  /** Two resolutions that come to the same place. */
  predicate Agree(t: Trail, u: Trail) {
    t.end == u.end && t.here == u.here
  }

  /** Folders that exist are walked through as they are, however many links were followed before. */
  lemma {:induction false} Through(fs: Fs, d: Path, n: nat, rest: Path, hops: nat)
    requires Real(fs, d) && n <= |d|
    ensures Agree(Resolve(fs, d[n..] + rest, d[..n], hops), Resolve(fs, rest, d, hops))
    decreases |d| - n
  {
    hide Up, From;
    if n == |d| {
      assert d[n..] + rest == rest && d[..n] == d;
    } else {
      var queue := d[n..] + rest;
      assert queue[1..] == d[n + 1..] + rest && queue[0] == d[n];
      assert d[..n] + [d[n]] == d[..n + 1];
      Through(fs, d, n + 1, rest, hops);
      assert d[n].Name? || (n == 0 && d[..1] == [Root]);
    }
  }

  lemma FromStart(fs: Fs, d: Path, rest: Path, hops: nat)
    requires Real(fs, d)
    ensures Agree(Resolve(fs, d + rest, [], hops), Resolve(fs, rest, d, hops))
  {
    Through(fs, d, 0, rest, hops);
    assert d[0..] == d && d[..0] == [];
  }

  /** A resolution that arrives arrives there with fewer links followed before, too. */
  lemma {:induction false} FewerHops(fs: Fs, queue: Path, cur: Path, few: nat, many: nat)
    requires few <= many && !Resolve(fs, queue, cur, many).end.Unresolved?
    ensures Resolve(fs, queue, cur, few) == Resolve(fs, queue, cur, many)
    decreases MAX_HOPS - many, |queue|
  {
    hide Up, From;
    if queue != [] {
      var rest := queue[1..];
      match queue[0] {
        case Root => FewerHops(fs, rest, [Root], few, many);
        case Here => FewerHops(fs, rest, cur, few, many);
        case Parent => FewerHops(fs, rest, Up(cur), few, many);
        case Name(_) =>
          var next := cur + [queue[0]];
          match fs.lstat(next) {
            case Missing =>
            case Other(_) => FewerHops(fs, rest, next, few, many);
            case Link(target) =>
              if target.Some? && many < MAX_HOPS {
                FewerHops(fs, target.value + rest, From(cur, target.value), few + 1, many + 1);
              }
          }
      }
    }
  }

  /** A link in a folder leads where its target leads: from the folder when the target is relative, from the root when
      it is absolute; and whatever follows the link follows that. */
  lemma LinkLeadsOn(fs: Fs, d: Path, c: Comp, target: Spelled, rest: Path)
    requires Real(fs, d) && c.Name? && fs.lstat(d + [c]) == Link(Some(target))
    ensures var there := if target != [] && target[0].Root? then target + rest else d + (target + rest);
      && Agree(Resolve(fs, d + ([c] + rest), [], 0), Resolve(fs, there, [], 1))
      && (!Resolve(fs, there, [], 1).end.Unresolved? ==> Resolve(fs, there, [], 0) == Resolve(fs, there, [], 1))
  {
    FromStart(fs, d, [c] + rest, 0);
    assert ([c] + rest)[1..] == rest;
    FromStart(fs, d, target + rest, 1);
    var there := if target != [] && target[0].Root? then target + rest else d + (target + rest);
    if !Resolve(fs, there, [], 1).end.Unresolved? {
      FewerHops(fs, there, [], 0, 1);
    }
  }

  /** `..` after a folder that is no link leads to the folder above it; after the root, nowhere else. */
  lemma ParentLeadsUp(fs: Fs, d: Path, c: Comp, rest: Path)
    requires Real(fs, d + [c])
    ensures c.Name? ==> Agree(Resolve(fs, (d + [c]) + ([Parent] + rest), [], 0), Resolve(fs, d + rest, [], 0))
    ensures Resolve(fs, [Root] + ([Parent] + rest), [], 0) == Resolve(fs, [Root] + rest, [], 0)
  {
    FromStart(fs, d + [c], [Parent] + rest, 0);
    assert ([Parent] + rest)[1..] == rest && (d + [c])[..|d|] == d;
    RealPrefix(fs, d + [c], |d|);
    FromStart(fs, d, rest, 0);
    assert ([Root] + ([Parent] + rest))[1..] == [Parent] + rest && ([Root] + rest)[1..] == rest;
  }

  /** A name that does not exist is to be created, with all that follows it. */
  lemma MissingIsCreated(fs: Fs, d: Path, c: Comp, rest: Path)
    requires Real(fs, d) && c.Name? && fs.lstat(d + [c]).Missing?
    ensures Resolve(fs, d + ([c] + rest), [], 0).end == Arrived(d + [c] + rest)
    ensures Resolve(fs, d + ([c] + rest), [], 0).here == d
  {
    FromStart(fs, d, [c] + rest, 0);
    assert ([c] + rest)[1..] == rest;
  }

  predicate Readable(fs: Fs, p: Path) {
    fs.lstat(p).Link? ==> fs.lstat(p).target.Some?
  }

  /** With every link readable a resolution is given up only at the forty-first link. */
  lemma {:induction false} GivesUpAfterForty(fs: Fs, queue: Path, cur: Path, hops: nat)
    requires hops <= 40 && (forall p :: Readable(fs, p)) && Resolve(fs, queue, cur, hops).end.Unresolved?
    ensures LinksMet(Resolve(fs, queue, cur, hops).visits) + hops == 41
    decreases MAX_HOPS - hops, |queue|
  {
    hide LinksMet, Up, From;
    LinksOfNone();
    if queue != [] {
      var rest := queue[1..];
      match queue[0] {
        case Root => GivesUpAfterForty(fs, rest, [Root], hops);
        case Here => GivesUpAfterForty(fs, rest, cur, hops);
        case Parent => GivesUpAfterForty(fs, rest, Up(cur), hops);
        case Name(_) =>
          var next := cur + [queue[0]];
          assert Readable(fs, next);
          match fs.lstat(next) {
            case Missing =>
            case Other(_) =>
              GivesUpAfterForty(fs, rest, next, hops);
              LinksAfter(Visit(cur, false), Resolve(fs, rest, next, hops));
            case Link(target) =>
              LinksOfOne(Visit(cur, true));
              if hops < 40 {
                GivesUpAfterForty(fs, target.value + rest, From(cur, target.value), hops + 1);
                LinksAfter(Visit(cur, true), Resolve(fs, target.value + rest, From(cur, target.value), hops + 1));
              }
          }
      }
    }
  }

  // ---------------------------------------------------------------------------------------------
  // What a folder is
  // ---------------------------------------------------------------------------------------------

  /** The folder was that inode: born then, as far as both births are known; or its name leads to the inode still. */
  predicate WasThat(fs: Fs, a: Area, id: FileId) {
    && a.id.Some? && a.id.value.dev == id.dev && a.id.value.ino == id.ino
    && (a.id.value.born.Some? && id.born.Some? && a.id.value.born != id.born ==>
          var now := Stat(fs, a.path); now.Some? && now.value.dev == id.dev && now.value.ino == id.ino)
  }

  /** A folder is inside another by its name, or because it or one above it is the other. */
  lemma HeldIff(fs: Fs, a: Area, dir: Path)
    ensures Contains(fs, a, dir) <==> (a.path <= dir || exists k :: 0 < k <= |dir| && HeldBy(fs, a, dir[..k]))
  {
    hide Stat;
    var ids := IdsOf(fs, dir);
    if k :| 0 <= k < |ids| && ids[k].Some? && Is(fs, a, ids[k].value) {
      IdsAt(fs, dir, k);
      assert HeldBy(fs, a, dir[..k + 1]);
    }
    if k :| 0 < k <= |dir| && HeldBy(fs, a, dir[..k]) {
      IdsAt(fs, dir, k - 1);
      assert ids[k - 1].Some?;
    }
  }

  /** Two areas are the same folder by their name, or because the one was the inode that the other was. */
  lemma SameIff(fs: Fs, a: Area, b: Area)
    ensures Same(fs, a, b) <==> a.path == b.path || (b.id.Some? && WasThat(fs, a, b.id.value))
  {
    hide Stat;
  }

  predicate HeldBy(fs: Fs, a: Area, f: Path) {
    f != [] && f[|f| - 1].Name? && fs.lstat(f).Other? && fs.lstat(f).id.Some? && WasThat(fs, a, fs.lstat(f).id.value)
  }

  // ---------------------------------------------------------------------------------------------
  // A relative link into a lent folder
  // ---------------------------------------------------------------------------------------------

  /** `/d` with a folder `s` in it and a link `/d/x` to `s`. */
  function Neighbours(): Fs {
    Fs(p =>
      if p == [Root] then Other(Some(FileId(0, 1, None)))
      else if p == [Root, Name("d")] then Other(Some(FileId(0, 2, None)))
      else if p == [Root, Name("d"), Name("s")] then Other(Some(FileId(0, 3, None)))
      else if p == [Root, Name("d"), Name("x")] then Link(Some([Name("s")]))
      else Missing)
  }

  /** The relative link leads to the folder beside it, by way of the folder both are in. */
  lemma NeighbourResolves()
    ensures var d, s: Path := [Root, Name("d")], [Root, Name("d"), Name("s")];
      Resolve(Neighbours(), [Root, Name("d"), Name("x")], [], 0)
      == Trail([Visit([Root], false), Visit(d, true), Visit(d, false)], Arrived(s), s)
  {
    hide Resolve;
    var fs, d, none: Path := Neighbours(), [Root, Name("d")], [];
    assert [Root, Name("d"), Name("x")] == [Root] + ([Name("d")] + ([Name("x")] + none));
    FromRoot(fs, [Name("d")] + ([Name("x")] + none), [], 0);
    assert [Root] + [Name("d")] == d && d + [Name("x")] == [Root, Name("d"), Name("x")];
    LookedUp(fs, Name("d"), [Name("x")] + none, [Root], 0);
    LinkMet(fs, Name("x"), [Name("s")], none, d);
    assert d + [Name("s")] == [Root, Name("d"), Name("s")];
    LookedUp(fs, Name("s"), none, d, 1);
    EndsThere(fs, d + [Name("s")], 1);
  }

  lemma LinkMet(fs: Fs, c: Comp, target: Spelled, rest: Path, cur: Path)
    requires c.Name? && fs.lstat(cur + [c]) == Link(Some(target)) && target != [] && !target[0].Root?
    ensures Resolve(fs, [c] + rest, cur, 0) == After(Visit(cur, true), Resolve(fs, target + rest, cur, 1))
  {
    assert ([c] + rest)[1..] == rest;
  }

  /** It is refused while the folder is lent. */
  lemma RelativeLinkIsSeen()
    ensures var x, s: Path := [Root, Name("d"), Name("x")], [Root, Name("d"), Name("s")];
      var a := Area(s, Some(FileId(0, 3, None)));
      PlainCrossing(Neighbours(), [a], [a], x) == Some(InUse(s))
  {
    hide Resolve, PlainCrossing, Stat, IdsOf;
    var fs, d: Path := Neighbours(), [Root, Name("d")];
    var x, s: Path := [Root, Name("d"), Name("x")], [Root, Name("d"), Name("s")];
    var a := Area(s, Some(FileId(0, 3, None)));
    NeighbourResolves();
    HeldIff(fs, a, [Root]);
    HeldIff(fs, a, d);
    assert d[..1] == [Root] && d[..2] == d && [Root][..1] == [Root];
    EndIsNoticed(fs, [a], a, x);
  }

  lemma EndsThere(fs: Fs, cur: Path, hops: nat)
    ensures Resolve(fs, [], cur, hops) == Trail([], Arrived(cur), cur)
  {
  }

  /** A path that ends in a busy folder by its name is refused for that folder, when it is the only one. */
  lemma EndIsNoticed(fs: Fs, known: seq<Area>, a: Area, path: Spelled)
    requires Resolve(fs, path, [], 0).end.Arrived? && a.path <= Resolve(fs, path, [], 0).end.path
    requires NoCrossing(fs, known, Resolve(fs, path, [], 0).visits)
    ensures PlainCrossing(fs, known, [a], path) == Some(InUse(a.path))
  {
    hide Resolve, Cut, TouchedBy;
    EndsLikeResolution(fs, known, path);
    assert Uses(fs, Walks(fs, known, path), a);
  }

  predicate InTheWay(fs: Fs, areas: seq<Area>, t: Trail, b: Area) {
    || (t.end.Arrived? && b.path <= t.end.path)
    || AnyIs(fs, b, IdsOf(fs, t.here))
    || exists x :: x in areas && Same(fs, x, b) && GoesThrough(fs, areas, t.visits, x.path)
  }

  lemma UsedIsInTheWay(fs: Fs, areas: seq<Area>, b: Area, path: Spelled)
    requires Uses(fs, Walks(fs, areas, path), b)
    ensures InTheWay(fs, areas, Resolve(fs, path, [], 0), b)
  {
    hide Resolve, TouchedBy, Contains, Same, Is, AnyIs, IdsOf, Holder;
    TouchedIsGoneThrough(fs, areas, path);
    EndsLikeResolution(fs, areas, path);
    if NoCrossing(fs, areas, Resolve(fs, path, [], 0).visits) {
    } else {
      NobodyIs(fs, b);
    }
  }

  lemma NobodyIs(fs: Fs, b: Area)
    ensures !AnyIs(fs, b, [])
  {
  }

  lemma TouchedIsGoneThrough(fs: Fs, areas: seq<Area>, path: Spelled)
    ensures forall a :: a in Walks(fs, areas, path).touched ==>
      a in areas && GoesThrough(fs, areas, Resolve(fs, path, [], 0).visits, a.path)
  {
    hide Resolve, TouchedBy, Contains, Holder, Cut;
    var t, w := Resolve(fs, path, [], 0), Walks(fs, areas, path);
    var k := FirstLinkInArea(fs, areas, t.visits);
    var way := if k < |t.visits| then t.visits[..k + 1] else t.visits;
    TouchedIsExact(fs, areas, path);
    forall a | a in w.touched ensures a in areas && GoesThrough(fs, areas, t.visits, a.path) {
      assert HasPath(w.touched, a.path) && GoesThrough(fs, areas, way, a.path);
    }
  }

  /** A refusal names what is in the way: a busy folder the path ends in or goes through; or else a known folder it
      goes through. */
  lemma NamedIsInTheWay(fs: Fs, areas: seq<Area>, busy: seq<Area>, path: Spelled)
    ensures var t := Resolve(fs, path, [], 0);
      match PlainCrossing(fs, areas, busy, path)
      case Some(InUse(q)) => exists b :: b in busy && b.path == q && InTheWay(fs, areas, t, b)
      case Some(Through(q)) => GoesThrough(fs, areas, t.visits, q)
      case None => true
  {
    hide Resolve, TouchedBy, Contains, Same, Is, AnyIs, IdsOf, Holder, Cut, InTheWay, Uses, Walks;
    var w := Walks(fs, areas, path);
    if FirstUsed(fs, w, busy).Some? {
      var b := UsedFirst(fs, w, busy);
      UsedIsInTheWay(fs, areas, b, path);
    } else {
      TouchedIsGoneThrough(fs, areas, path);
      HeldByArea(fs, areas, path);
    }
  }

  lemma {:induction false} UsedFirst(fs: Fs, w: Walked, busy: seq<Area>) returns (b: Area)
    requires FirstUsed(fs, w, busy).Some?
    ensures b in busy && Uses(fs, w, b) && FirstUsed(fs, w, busy) == Some(b.path)
  {
    hide Uses;
    if Uses(fs, w, busy[0]) {
      b := busy[0];
    } else {
      b := UsedFirst(fs, w, busy[1..]);
    }
  }

  lemma HeldByArea(fs: Fs, areas: seq<Area>, path: Spelled)
    ensures var end := Walks(fs, areas, path).end;
      end.InArea? ==> GoesThrough(fs, areas, Resolve(fs, path, [], 0).visits, end.area)
  {
    hide Resolve, TouchedBy, Contains, Holder, IdsOf;
    var t := Resolve(fs, path, [], 0);
    var k := FirstLinkInArea(fs, areas, t.visits);
    if k < |t.visits| {
      assert FirstCrossing(fs, areas, t.visits, k);
      EndsLikeResolution(fs, areas, path);
    }
  }

  // ---------------------------------------------------------------------------------------------
  // An inode used again
  // ---------------------------------------------------------------------------------------------

  /** `/v` is inode 7, born later than the folder that was lent as `/w`, which is `atW` now. */
  function Born(atW: Node): Fs {
    Fs(p =>
      if p == [Root] then Other(Some(FileId(0, 1, Some(0))))
      else if p == [Root, Name("v")] then Other(Some(FileId(0, 7, Some(2))))
      else if p == [Root, Name("w")] then atW
      else Missing)
  }

  /** With the lent folder gone, inode 7 is another folder that used it again; with its name still at inode 7, it is
      the same with another date. */
  lemma BornAgain()
    ensures var a, id := Area([Root, Name("w")], Some(FileId(0, 7, Some(1)))), FileId(0, 7, Some(2));
      !Is(Born(Missing), a, id) && Is(Born(Other(Some(id))), a, id)
  {
    hide Resolve;
    var w, none: Path := [Root, Name("w")], [];
    var gone, there := Born(Missing), Born(Other(Some(FileId(0, 7, Some(2)))));
    assert [Root] + ([Name("w")] + none) == w && [Root] + [Name("w")] == w;
    assert w[..1] == [Root] && w[..2] == w;
    MissingIsCreated(gone, [Root], Name("w"), none);
    assert "w"[0] != "v"[0];
    RealIsCanonical(there, w);
  }
}
