/** The handshake with the tests of the source in their places. */
module Handshake {
  import opened Wrappers
  import opened Paths
  import opened Touching
  import L = Lending
  import W = Walk

  /** The world of one file system. */
  function WorldOf(fs: W.Fs): L.World {
    L.World((p, a) => Touches(fs, p, a), (p, a) => Related(fs, p, a), (a, b) => W.Same(fs, a, b),
            (p, known, busy) => Clear(fs, p, known, busy))
  }

  /** The builtin's decision; a path spelled otherwise is none that the source can have. */
  predicate Clear(fs: W.Fs, p: Path, known: seq<Area>, busy: seq<Area>) {
    if IsSpelled(p) then W.PlainCrossing(fs, known, busy, p).None? else known + busy == []
  }

  /** A known folder that is busy is noticed wherever it is touched, whatever it is called. */
  lemma KnownIsNoticed(fs: W.Fs, known: seq<Area>, a: Area, p: Spelled)
    requires OnePerName(known) && a in known && Touches(fs, p, a)
    ensures W.PlainCrossing(fs, known, [a], p).Some?
  {
    hide W.PlainCrossing, W.Resolve, W.Contains, W.AnyIs, W.IdsOf;
    W.GrantedIff(fs, known, [a], p);
    assert W.Same(fs, a, a) && a in [a];
  }

  lemma WorldIsLawful(fs: W.Fs)
    ensures L.Lawful(WorldOf(fs))
  {
    hide W.PlainCrossing, Touches, Related;
    var w := WorldOf(fs);
    forall p, known, more, busy, b | L.Among(known, more) && b in busy && w.clear(p, more, busy)
      ensures w.clear(p, known, [b])
    {
      if IsSpelled(p) {
        W.FewerInTheWay(fs, known, more, busy, b, p);
      }
    }
    forall p, known, a | OnePerName(known) && a in known && w.touches(p, a) ensures !w.clear(p, known, [a]) {
      if IsSpelled(p) {
        KnownIsNoticed(fs, known, a, p);
      }
    }
    forall p ensures w.clear(p, [], []) {
      if IsSpelled(p) {
        W.NothingKnown(fs, p);
      }
    }
  }

  ghost predicate AllGenuine(fs: W.Fs, areas: iset<Area>) {
    forall a :: a in areas ==> Genuine(fs, a)
  }

  ghost predicate AllSpelled(paths: iset<Path>) {
    forall p :: p in paths ==> IsSpelled(p)
  }

  /** The borrower's test relates each of the paths to each of the folders it touches. */
  ghost predicate Waited(fs: W.Fs, areas: iset<Area>, paths: iset<Path>) {
    forall p, a :: p in paths && a in areas && Touches(fs, p, a) ==> Related(fs, p, a)
  }

  /** What `borrow` knows once it lent `x` and then `y`. */
  function KnownAfter(fs: W.Fs, x: Area, y: Area): seq<Area> {
    if W.Same(fs, x, y) then [x] else [x, y]
  }

  predicate StandsIn(fs: W.Fs, known: seq<Area>, a: Area) {
    exists x :: x in known && W.Same(fs, x, a)
  }

  /** Whichever two of the folders are known from lending them before, and whichever two known ones of one name are
      lent now: the decision refuses what touches the one, also when only the other is still busy. */
  ghost predicate Refused(fs: W.Fs, areas: iset<Area>, paths: iset<Path>) {
    forall x, y, a, b, p ::
      (x in areas && y in areas && a in areas && b in areas && a.path == b.path && p in paths)
      && StandsIn(fs, KnownAfter(fs, x, y), a) && StandsIn(fs, KnownAfter(fs, x, y), b) && Touches(fs, p, a)
      ==> !Clear(fs, p, KnownAfter(fs, x, y), [b])
  }

  /** For any folders, those replaced by another of their name included, and any paths: every run that lends only
      those folders and judges only those paths is safe in every state, exactly when the borrower waits for what
      touches them and the decision refuses it. */
  lemma HandshakeIsSafeIff(fs: W.Fs, areas: iset<Area>, paths: iset<Path>)
    ensures Waited(fs, areas, paths) && Refused(fs, areas, paths) <==>
      forall steps :: L.Within(steps, areas, paths) && L.Run(WorldOf(fs), steps).Some? ==>
        L.Safe(WorldOf(fs), L.Run(WorldOf(fs), steps).value)
  {
    hide Touches, Related, Clear, W.Same, L.Lawful;
    WorldIsLawful(fs);
    L.SafeIff(WorldOf(fs), areas, paths);
    RefusedIsGuarded(fs, areas, paths);
  }

  lemma RefusedIsGuarded(fs: W.Fs, areas: iset<Area>, paths: iset<Path>)
    ensures Refused(fs, areas, paths) <==> L.GuardedAll(WorldOf(fs), areas, paths)
  {
    hide Touches, Related, Clear, W.Same, L.Known;
    var w := WorldOf(fs);
    forall x, y ensures L.Known(w, [], [x, y]) == KnownAfter(fs, x, y) {
      L.TwoLent(w, x, y);
    }
    if Refused(fs, areas, paths) {
      forall x, y, a, b | (x in areas && y in areas && a in areas && b in areas && a.path == b.path)
          && L.StandsIn(w, L.Known(w, [], [x, y]), a) && L.StandsIn(w, L.Known(w, [], [x, y]), b)
        ensures L.Guards(w, paths, L.Known(w, [], [x, y]), b, a)
      {
        assert StandsIn(fs, KnownAfter(fs, x, y), a) && StandsIn(fs, KnownAfter(fs, x, y), b);
      }
    }
    if L.GuardedAll(w, areas, paths) {
      forall x, y, a, b, p | (x in areas && y in areas && a in areas && b in areas && a.path == b.path && p in paths)
          && StandsIn(fs, KnownAfter(fs, x, y), a) && StandsIn(fs, KnownAfter(fs, x, y), b) && Touches(fs, p, a)
        ensures !Clear(fs, p, KnownAfter(fs, x, y), [b])
      {
        assert L.StandsIn(w, L.Known(w, [], [x, y]), a) && L.StandsIn(w, L.Known(w, [], [x, y]), b);
        assert L.Guards(w, paths, L.Known(w, [], [x, y]), b, a);
      }
    }
  }

  /** For folders that are what they were when they were lent, only the borrower's waiting matters: every run is
      safe exactly when each of the paths that enters one of the folders and leaves it again is related to it. */
  lemma GenuineIsSafeIff(fs: W.Fs, areas: iset<Area>, paths: iset<Path>)
    requires AllGenuine(fs, areas) && AllSpelled(paths)
    ensures (forall p, a :: p in paths && a in areas && LeftBehind(fs, p, a) ==> Related(fs, p, a)) <==>
      forall steps :: L.Within(steps, areas, paths) && L.Run(WorldOf(fs), steps).Some? ==>
        L.Safe(WorldOf(fs), L.Run(WorldOf(fs), steps).value)
  {
    hide Touches, Related, LeftBehind, L.Lawful;
    HandshakeIsSafeIff(fs, areas, paths);
    GenuineIsRefused(fs, areas, paths);
    forall p, a | p in paths && a in areas
      ensures (Touches(fs, p, a) ==> Related(fs, p, a)) <==> (LeftBehind(fs, p, a) ==> Related(fs, p, a))
    {
      WaitsIff(fs, p, a);
    }
  }

  lemma GenuineIsRefused(fs: W.Fs, areas: iset<Area>, paths: iset<Path>)
    requires AllGenuine(fs, areas) && AllSpelled(paths)
    ensures Refused(fs, areas, paths)
  {
    hide Touches, W.Same, W.PlainCrossing;
    forall x, y, a, b, p | (x in areas && y in areas && a in areas && b in areas && a.path == b.path && p in paths)
        && StandsIn(fs, KnownAfter(fs, x, y), a) && StandsIn(fs, KnownAfter(fs, x, y), b) && Touches(fs, p, a)
      ensures !Clear(fs, p, KnownAfter(fs, x, y), [b])
    {
      assert Genuine(fs, a) && Genuine(fs, b) && a == b && b in [b];
      if Clear(fs, p, KnownAfter(fs, x, y), [b]) {
        KnownAfterIsOnePerName(fs, x, y);
        GrantedTouchesNothingBusy(fs, KnownAfter(fs, x, y), [b], p);
      }
    }
  }

  lemma KnownAfterIsOnePerName(fs: W.Fs, x: Area, y: Area)
    ensures OnePerName(KnownAfter(fs, x, y))
  {
  }

  /** As long as builtins judge straight paths only, no run is unsafe. */
  lemma StraightPathsAreSafe(fs: W.Fs, areas: iset<Area>, paths: iset<Path>, steps: seq<L.Step>)
    requires AllGenuine(fs, areas) && forall p :: p in paths ==> Straight(fs, p)
    requires L.Within(steps, areas, paths) && L.Run(WorldOf(fs), steps).Some?
    ensures L.Safe(WorldOf(fs), L.Run(WorldOf(fs), steps).value)
  {
    hide Touches, Related, LeftBehind;
    GenuineIsSafeIff(fs, areas, paths);
    forall p, a | p in paths && a in areas && LeftBehind(fs, p, a) ensures Related(fs, p, a) {
      WaitsIff(fs, p, a);
      if Touches(fs, p, a) {
        StraightIsWaitedFor(fs, p, a);
      } else {
        LeftBehindTouches(fs, p, a);
      }
    }
  }

  lemma LeftBehindTouches(fs: W.Fs, p: Path, a: Area)
    requires LeftBehind(fs, p, a)
    ensures Touches(fs, p, a)
  {
    hide IsFolder, PlaceOf;
    var v, k :| v in W.Resolve(fs, p, [], 0).visits && 0 <= k <= |v.dir| && LeftAt(fs, p, a, v.dir, k);
    HoldsBelow(fs, a, v.dir, k);
  }

  // ---------------------------------------------------------------------------------------------
  // The builtin's decision
  // ---------------------------------------------------------------------------------------------

  /** Two names of one folder hold the same folders. */
  lemma SameHolds(fs: W.Fs, x: Area, b: Area, dir: Path)
    requires Genuine(fs, x) && Genuine(fs, b) && W.Same(fs, x, b) && W.Contains(fs, b, dir)
    ensures W.Contains(fs, x, dir)
  {
    if x.path != b.path {
      var k := Holds(fs, b, dir);
      if dir[..k] == b.path {
        RealStat(fs, b.path);
      }
      assert W.IdAt(fs, dir[..k]).Some? && W.Is(fs, x, W.IdAt(fs, dir[..k]).value);
      HoldsBelow(fs, x, dir, k);
    }
  }

  /** A granted path touches no busy folder, under whatever name it is known, as long as the folders are what they
      were when they were lent. */
  lemma GrantedTouchesNothingBusy(fs: W.Fs, areas: seq<Area>, busy: seq<Area>, p: Spelled)
    requires (forall a :: a in areas || a in busy ==> Genuine(fs, a)) && OnePerName(areas)
    requires forall b :: b in busy ==> StandsIn(fs, areas, b)
    requires W.PlainCrossing(fs, areas, busy, p).None?
    ensures forall b :: b in busy ==> !Touches(fs, p, b)
  {
    hide Genuine, W.Contains, W.AnyIs, W.PlainCrossing, W.Same, W.Resolve, W.IdsOf;
    W.GrantedIff(fs, areas, busy, p);
    var t := W.Resolve(fs, p, [], 0);
    forall b | b in busy ensures !Touches(fs, p, b) {
      var x :| x in areas && W.Same(fs, x, b);
      forall v | v in t.visits ensures !W.Contains(fs, b, v.dir) {
        assert !W.Contains(fs, x, v.dir);
        if W.Contains(fs, b, v.dir) {
          SameHolds(fs, x, b, v.dir);
        }
      }
    }
  }

  // ---------------------------------------------------------------------------------------------
  // A folder whose name was used again
  // ---------------------------------------------------------------------------------------------

  /** `/w` was folder 3, lent as `First`, and folder 2, lent as `Second`. Folder 3 is also at `/v`, with a folder `s`
      in it; `/w` is now the one or the other. */
  function Reused(now: nat): W.Fs {
    W.Fs(p =>
      if p == [Root] then W.Other(Some(FileId(0, 1, None)))
      else if p == [Root, Name("w")] then W.Other(Some(FileId(0, now, None)))
      else if p == [Root, Name("v")] then W.Other(Some(FileId(0, 3, None)))
      else if p == [Root, Name("v"), Name("s")] then W.Other(Some(FileId(0, 5, None)))
      else if p == ExampleLink() then W.Link(Some(Around()))
      else W.Missing)
  }

  function Around(): Spelled {
    [Root, Name("v"), Name("s"), Parent, Parent]
  }

  function First(): Area {
    Area([Root, Name("w")], Some(FileId(0, 3, None)))
  }

  function Second(): Area {
    Area([Root, Name("w")], Some(FileId(0, 2, None)))
  }

  function Moved(): Path {
    [Root, Name("v")]
  }

  /** `/v` leads to folder 3. */
  lemma MovedResolves()
    ensures W.Resolve(Reused(2), Moved(), [], 0)
         == W.Trail([W.Visit([Root], false)], W.Arrived(Moved()), Moved())
  {
    hide W.Resolve;
    var fs, none: Path := Reused(2), [];
    assert Moved() == [Root] + ([Name("v")] + none) && [Root] + [Name("v")] == Moved();
    FromRoot(fs, [Name("v")] + none, [], 0);
    LookedUp(fs, Name("v"), none, [Root], 0);
    Nothing(fs, Moved(), 0);
  }

  lemma Nothing(fs: W.Fs, cur: Path, hops: nat)
    ensures W.Resolve(fs, [], cur, hops) == W.Trail([], W.Arrived(cur), cur)
  {
  }

  /** `/x` goes through folder 3 and ends in the root. */
  lemma AroundResolves()
    ensures W.Resolve(Reused(3), ExampleLink(), [], 0)
         == W.Trail([W.Visit([Root], true), W.Visit([Root], false), W.Visit(Moved(), false)],
                    W.Arrived([Root]), [Root])
  {
    hide W.Resolve;
    var fs, none: Path := Reused(3), [];
    var s := Moved() + [Name("s")];
    Followed(fs, Around());
    assert Around() == [Root] + ([Name("v")] + ([Name("s")] + ([Parent] + ([Parent] + none))));
    assert [Root] + [Name("v")] == Moved() && s == [Root, Name("v"), Name("s")];
    FromRoot(fs, [Name("v")] + ([Name("s")] + ([Parent] + ([Parent] + none))), [], 1);
    LookedUp(fs, Name("v"), [Name("s")] + ([Parent] + ([Parent] + none)), [Root], 1);
    LookedUp(fs, Name("s"), [Parent] + ([Parent] + none), Moved(), 1);
    WentUp(fs, [Parent] + none, s, 1);
    assert W.Up(s) == Moved() && W.Up(Moved()) == [Root];
    WentUp(fs, none, Moved(), 1);
    Nothing(fs, [Root], 1);
  }

  /** The identities on the way, by hand. */
  lemma IdsOnTheWay(now: nat)
    ensures W.IdsOf(Reused(now), [Root]) == [None]
    ensures W.IdsOf(Reused(now), Moved()) == [None, Some(FileId(0, 3, None))]
  {
    var none: Path := [];
    assert [Root][..0] == none && Moved()[..1] == [Root];
    assert W.IdsOf(Reused(now), none) == [];
    assert W.IdsOf(Reused(now), [Root]) == W.IdsOf(Reused(now), none) + [W.IdAt(Reused(now), [Root])];
  }

  /** Neither folder holds the root; folder 2 does not hold folder 3, which is the first one. */
  lemma WhoHoldsWhom(now: nat)
    ensures var fs := Reused(now);
      && !W.Contains(fs, First(), [Root]) && !W.Contains(fs, Second(), [Root]) && !W.Contains(fs, Second(), Moved())
      && !W.AnyIs(fs, First(), W.IdsOf(fs, [Root])) && !W.AnyIs(fs, Second(), W.IdsOf(fs, Moved()))
      && W.AnyIs(fs, First(), W.IdsOf(fs, Moved())) && W.Contains(fs, First(), Moved())
      && !(First().path <= Moved()) && !(Second().path <= Moved())
  {
    hide W.Stat, W.IdsOf;
    var fs := Reused(now);
    IdsOnTheWay(now);
    assert Moved()[1] == Name("v") && First().path[1] == Name("w");
    assert "v"[0] != "w"[0];
    assert W.Is(fs, First(), FileId(0, 3, None));
    assert W.IdsOf(fs, Moved())[1] == Some(FileId(0, 3, None));
  }

  /** Once the second lending of `/w` is given back, the path `/v` into the first is granted while its child runs. */
  lemma FirstIsFreed() returns (steps: seq<L.Step>)
    ensures var fs := Reused(2);
      && W.PlainCrossing(fs, [First()], [Second()], Moved()).None? && Touches(fs, Moved(), First())
      && L.Within(steps, iset{First(), Second()}, iset{Moved()})
      && L.Run(WorldOf(fs), steps).Some? && !L.Safe(WorldOf(fs), L.Run(WorldOf(fs), steps).value)
  {
    hide W.Resolve, W.PlainCrossing, W.Contains, W.AnyIs, W.IdsOf, L.Run, L.Safe, L.Known;
    var fs := Reused(2);
    MovedResolves();
    WhoHoldsWhom(2);
    W.GrantedIff(fs, [First()], [Second()], Moved());
    L.TwoLent(WorldOf(fs), First(), First());
    assert First() in [First()];
    steps := L.GrantedWhileLent(WorldOf(fs), First(), First(), First(), Second(), Moved());
  }

  /** Once `/w` was lent as folder 2 and given back, lending it as folder 3 does not make folder 3 known: the path `/x`
      through it, under its other name, is granted while its child runs. */
  lemma AnotherIsKnown() returns (steps: seq<L.Step>)
    ensures var fs := Reused(3);
      && W.PlainCrossing(fs, [Second()], [First()], ExampleLink()).None? && Touches(fs, ExampleLink(), First())
      && L.Within(steps, iset{First(), Second()}, iset{ExampleLink()})
      && L.Run(WorldOf(fs), steps).Some? && !L.Safe(WorldOf(fs), L.Run(WorldOf(fs), steps).value)
  {
    hide W.Resolve, W.PlainCrossing, W.Contains, W.AnyIs, W.IdsOf, L.Run, L.Safe, L.Known;
    var fs := Reused(3);
    AroundResolves();
    WhoHoldsWhom(3);
    W.GrantedIff(fs, [Second()], [First()], ExampleLink());
    assert W.Visit(Moved(), false) in W.Resolve(fs, ExampleLink(), [], 0).visits;
    L.TwoLent(WorldOf(fs), Second(), Second());
    assert Second() in [Second()];
    steps := L.GrantedWhileLent(WorldOf(fs), Second(), Second(), First(), First(), ExampleLink());
  }
}
