/**
 What a path touches, and what a borrower takes it to touch. A builtin is denied a path whose resolution goes
 through a lent folder or ends in it. The borrower looks at the literal path and at the place it leads to today,
 and waits for those related to the folder. The two agree unless a resolution enters the folder and leaves it
 again.
 */
module Touching {
  import opened Wrappers
  import opened Paths
  import opened Walk

  // ---------------------------------------------------------------------------------------------
  // What a path touches
  // ---------------------------------------------------------------------------------------------

  predicate PassesThrough(fs: Fs, p: Path, a: Area) {
    exists v :: v in Resolve(fs, p, [], 0).visits && Contains(fs, a, v.dir)
  }

  predicate EndsIn(fs: Fs, p: Path, a: Area) {
    var t := Resolve(fs, p, [], 0);
    (t.end.Arrived? && a.path <= t.end.path) || AnyIs(fs, a, IdsOf(fs, t.here))
  }

  predicate Touches(fs: Fs, p: Path, a: Area) {
    PassesThrough(fs, p, a) || EndsIn(fs, p, a)
  }

  // ---------------------------------------------------------------------------------------------
  // What the borrower relates it to
  // ---------------------------------------------------------------------------------------------

  /** `canonicalize` of as much of the first `n` components as exists, the rest as it is; the path itself when a
      component that is no name stands in the way. */
  function Existing(fs: Fs, p: Path, n: nat): Path
    requires n <= |p|
  {
    match Canonical(fs, p[..n])
    case Some(c) => c + p[n..]
    case None => if n > 0 && p[n - 1].Name? then Existing(fs, p, n - 1) else p
  }

  function ResolveExisting(fs: Fs, p: Path): Path {
    Existing(fs, p, |p|)
  }

  /** `chain`: the identities of a path and of each folder above it, links followed. */
  function Chain(fs: Fs, p: Path): seq<Option<FileId>> {
    if p == [] then [] else Chain(fs, p[..|p| - 1]) + [Stat(fs, p)]
  }

  /** `symlink_metadata`: what is at a path, only the last name not followed. */
  function LstatThrough(fs: Fs, p: Path): Node
    requires p != []
  {
    match Canonical(fs, p[..|p| - 1])
    case None => Missing
    case Some(d) => fs.lstat(d + [p[|p| - 1]])
  }

  datatype Place = Place(spot: Path, here: Option<FileId>, chain: seq<Option<FileId>>)

  function WholePlace(fs: Fs, p: Path): Place {
    var spot := ResolveExisting(fs, p);
    Place(spot, Stat(fs, spot), Chain(fs, spot))
  }

  /** `Resolver::place`: a name that is no link is joined to its folder; all else is resolved whole. */
  function PlaceOf(fs: Fs, p: Path): Place {
    if p == [] || !p[|p| - 1].Name? then WholePlace(fs, p)
    else
      var d := ResolveExisting(fs, p[..|p| - 1]);
      var spot := d + [p[|p| - 1]];
      match LstatThrough(fs, p)
      case Link(_) => WholePlace(fs, p)
      case Other(id) => Place(spot, id, Chain(fs, d) + [id])
      case Missing => Place(spot, None, Chain(fs, d))
  }

  predicate Comparable(p: Path, q: Path) {
    p <= q || q <= p
  }

  /** `related`: by name, literally or where the path leads, in either direction; or by identity. */
  predicate Related(fs: Fs, p: Path, a: Area) {
    var at := PlaceOf(fs, p);
    || Comparable(p, a.path) || Comparable(at.spot, a.path)
    || AnyIs(fs, a, at.chain) || (at.here.Some? && at.here in Chain(fs, a.path))
  }

  // ---------------------------------------------------------------------------------------------
  // Folders that are what they are called
  // ---------------------------------------------------------------------------------------------

  /** A folder (not the root) as it is when it is lent: there, by its physical name, with its identity. */
  predicate Genuine(fs: Fs, a: Area) {
    Real(fs, a.path) && a.path != [] && a.path[|a.path| - 1].Name? && a.id == Stat(fs, a.path)
  }

  lemma RealPrefix(fs: Fs, p: Path, k: nat)
    requires Real(fs, p) && k <= |p|
    ensures Real(fs, p[..k])
  {
    forall j | 0 <= j < k && p[..k][j].Name? ensures fs.lstat(p[..k][..j + 1]).Other? {
      assert p[..k][..j + 1] == p[..j + 1];
    }
  }

  /** What exists by its physical name leads to itself. */
  lemma RealIsCanonical(fs: Fs, p: Path)
    requires Real(fs, p)
    ensures Canonical(fs, p) == Some(p)
  {
    ThroughReal(fs, p, 0, []);
    assert p[0..] + [] == p && p[..0] == [];
  }

  lemma RealStat(fs: Fs, p: Path)
    requires Real(fs, p) && p != [] && p[|p| - 1].Name?
    ensures Stat(fs, p) == IdAt(fs, p)
  {
    RealIsCanonical(fs, p);
    assert p[..|p| - 1 + 1] == p;
  }

  lemma CanonicalIsReal(fs: Fs, p: Path)
    requires IsSpelled(p) && Canonical(fs, p).Some?
    ensures Real(fs, Canonical(fs, p).value)
  {
    ArrivesSettled(fs, p, [], 0);
  }

  lemma {:induction false} ChainHas(fs: Fs, p: Path, k: nat)
    requires 0 < k <= |p|
    ensures Stat(fs, p[..k]) in Chain(fs, p)
  {
    if k < |p| {
      assert p[..|p| - 1][..k] == p[..k];
      ChainHas(fs, p[..|p| - 1], k);
    } else {
      assert p[..k] == p;
    }
  }

  lemma {:induction false} IdsAt(fs: Fs, p: Path, k: nat)
    requires k < |p|
    ensures IdsOf(fs, p)[k] == IdAt(fs, p[..k + 1])
  {
    if k < |p| - 1 {
      assert p[..|p| - 1][..k + 1] == p[..k + 1];
      IdsAt(fs, p[..|p| - 1], k);
    } else {
      assert p[..k + 1] == p;
    }
  }

  lemma InChain(fs: Fs, a: Area, chain: seq<Option<FileId>>, id: FileId)
    requires Some(id) in chain && Is(fs, a, id)
    ensures AnyIs(fs, a, chain)
  {
    hide Is;
    var k :| 0 <= k < |chain| && chain[k] == Some(id);
  }

  // ---------------------------------------------------------------------------------------------
  // Resolving a path and more
  // ---------------------------------------------------------------------------------------------

  predicate Whole(t: Trail) {
    t.end.Arrived? && t.here == t.end.path
  }

  /** A path followed by more is resolved from where the path leads, if all of it exists; and otherwise it does
      not exist either. */
  lemma {:induction false} ResolveOn(fs: Fs, queue: Path, more: Path, cur: Path, hops: nat)
    ensures var t, u := Resolve(fs, queue, cur, hops), Resolve(fs, queue + more, cur, hops);
      && (Whole(t) ==>
           var v := Resolve(fs, more, t.here, hops + LinksMet(t.visits)); u.end == v.end && u.here == v.here)
      && (!Whole(t) ==> !Whole(u))
    decreases MAX_HOPS - hops, |queue|
  {
    hide LinksMet, Up, From;
    LinksOfNone();
    var all := queue + more;
    if queue == [] {
      assert all == more;
    } else {
      var rest := queue[1..];
      assert all[1..] == rest + more && all[0] == queue[0];
      match queue[0] {
        case Root => ResolveOn(fs, rest, more, [Root], hops);
        case Here => ResolveOn(fs, rest, more, cur, hops);
        case Parent => ResolveOn(fs, rest, more, Up(cur), hops);
        case Name(_) =>
          var next := cur + [queue[0]];
          match fs.lstat(next) {
            case Missing =>
            case Other(_) =>
              ResolveOn(fs, rest, more, next, hops);
              LinksAfter(Visit(cur, false), Resolve(fs, rest, next, hops));
            case Link(target) =>
              if target.Some? && hops < MAX_HOPS {
                assert target.value + (rest + more) == (target.value + rest) + more;
                ResolveOn(fs, target.value + rest, more, From(cur, target.value), hops + 1);
                LinksAfter(Visit(cur, true), Resolve(fs, target.value + rest, From(cur, target.value), hops + 1));
              }
          }
      }
    }
  }

  /** The last name of a path that exists, looked up in its folder. */
  lemma LastName(fs: Fs, p: Path)
    requires p != [] && p[|p| - 1].Name?
    ensures Canonical(fs, p).Some? ==> Canonical(fs, p[..|p| - 1]).Some?
    ensures var d := Canonical(fs, p[..|p| - 1]);
      d.Some? ==>
        var spot := d.value + [p[|p| - 1]];
        && (fs.lstat(spot).Other? ==> Canonical(fs, p) == Some(spot))
        && (fs.lstat(spot).Missing? ==> Canonical(fs, p).None?)
  {
    hide Resolve;
    var parent, name := p[..|p| - 1], p[|p| - 1];
    assert parent + [name] == p;
    ResolveOn(fs, parent, [name], [], 0);
    var t := Resolve(fs, parent, [], 0);
    OneName(fs, name, t.here, LinksMet(t.visits));
  }

  lemma OneName(fs: Fs, name: Comp, cur: Path, hops: nat)
    requires name.Name?
    ensures var t, next := Resolve(fs, [name], cur, hops), cur + [name];
      && (fs.lstat(next).Other? ==> t.end == Arrived(next) && t.here == next)
      && (fs.lstat(next).Missing? ==> t.end == Arrived(next) && t.here == cur)
  {
    var none: Path := [];
    assert [name][1..] == none;
  }

  lemma {:induction false} VisitsAreReal(fs: Fs, queue: Path, cur: Path, hops: nat)
    requires Queued(queue, cur) && Real(fs, cur)
    ensures forall v :: v in Resolve(fs, queue, cur, hops).visits ==> Real(fs, v.dir)
    decreases MAX_HOPS - hops, |queue|
  {
    if queue != [] {
      var rest := queue[1..];
      match queue[0] {
        case Root => VisitsAreReal(fs, rest, [Root], hops);
        case Here => VisitsAreReal(fs, rest, cur, hops);
        case Parent =>
          RealUp(fs, cur);
          VisitsAreReal(fs, rest, Up(cur), hops);
        case Name(_) =>
          var next := cur + [queue[0]];
          match fs.lstat(next) {
            case Missing =>
            case Other(_) =>
              RealStep(fs, cur, queue[0]);
              VisitsAreReal(fs, rest, next, hops);
            case Link(target) =>
              if target.Some? && hops < MAX_HOPS {
                VisitsAreReal(fs, target.value + rest, From(cur, target.value), hops + 1);
              }
          }
      }
    }
  }

  /** A resolution that meets a missing name looked it up in the part that exists. */
  lemma {:induction false} MissingWasLookedUp(fs: Fs, queue: Path, cur: Path, hops: nat)
    requires Resolve(fs, queue, cur, hops).end.Arrived? && !Whole(Resolve(fs, queue, cur, hops))
    ensures var t := Resolve(fs, queue, cur, hops); exists v :: v in t.visits && v.dir == t.here
    decreases MAX_HOPS - hops, |queue|
  {
    hide Up, From;
    var t := Resolve(fs, queue, cur, hops);
    var rest := queue[1..];
    match queue[0] {
      case Root => MissingWasLookedUp(fs, rest, [Root], hops);
      case Here => MissingWasLookedUp(fs, rest, cur, hops);
      case Parent => MissingWasLookedUp(fs, rest, Up(cur), hops);
      case Name(_) =>
        var next := cur + [queue[0]];
        match fs.lstat(next) {
          case Missing =>
            assert Visit(cur, false) in t.visits;
          case Other(_) =>
            MissingWasLookedUp(fs, rest, next, hops);
            Later(Visit(cur, false), Resolve(fs, rest, next, hops));
          case Link(target) =>
            var more := Resolve(fs, target.value + rest, From(cur, target.value), hops + 1);
            MissingWasLookedUp(fs, target.value + rest, From(cur, target.value), hops + 1);
            Later(Visit(cur, true), more);
        }
    }
  }

  lemma Later(v: Visit, t: Trail)
    ensures forall u :: u in t.visits ==> u in After(v, t).visits
  {
  }

  // ---------------------------------------------------------------------------------------------
  // The place a path leads to
  // ---------------------------------------------------------------------------------------------

  /** A path that exists is placed where it leads. */
  lemma PlaceOfExisting(fs: Fs, p: Path)
    requires Canonical(fs, p).Some?
    ensures PlaceOf(fs, p).spot == Canonical(fs, p).value
  {
    assert p[..|p|] == p && p[|p|..] == [];
    if p != [] && p[|p| - 1].Name? {
      LastName(fs, p);
      var parent := p[..|p| - 1];
      assert parent[..|parent|] == parent && parent[|parent|..] == [];
    }
  }

  /** What does not exist is not placed at something that does. */
  lemma {:induction false} MissingIsNotReal(fs: Fs, p: Path, n: nat)
    requires IsSpelled(p) && n <= |p| && Canonical(fs, p).None?
    requires n < |p| ==> p[n].Name? && Canonical(fs, p[..n + 1]).None?
    ensures !Real(fs, Existing(fs, p, n))
    decreases n
  {
    assert p[..|p|] == p;
    match Canonical(fs, p[..n]) {
      case Some(c) =>
        var next := p[..n + 1];
        assert next[..n] == p[..n] && p[..n] + [p[n]] == next;
        LastName(fs, next);
        assert !fs.lstat(c + [p[n]]).Other?;
        var placed := c + p[n..];
        assert placed[..|c| + 1] == c + [p[n]] && placed[|c|] == p[n];
      case None =>
        if n > 0 && p[n - 1].Name? {
          MissingIsNotReal(fs, p, n - 1);
        } else if Real(fs, p) {
          RealIsCanonical(fs, p);
        }
    }
  }

  /** The identities of the place are those of every folder above it. */
  lemma PlaceHas(fs: Fs, p: Path, f: Path)
    requires IsSpelled(p) && Real(fs, f) && f <= PlaceOf(fs, p).spot && IdAt(fs, f).Some?
    ensures IdAt(fs, f) in PlaceOf(fs, p).chain
  {
    RealStat(fs, f);
    var at := PlaceOf(fs, p);
    if p == [] || !p[|p| - 1].Name? || LstatThrough(fs, p).Link? {
      assert at.spot[..|f|] == f;
      ChainHas(fs, at.spot, |f|);
    } else {
      var parent := p[..|p| - 1];
      var d := ResolveExisting(fs, parent);
      if |f| <= |d| {
        assert d[..|f|] == f;
        ChainHas(fs, d, |f|);
      } else {
        assert f == at.spot && f[..|f| - 1] == d;
        LastPlaced(fs, p);
      }
    }
  }

  /** If a path that is no link is placed at something that exists, its own identity is in the chain. */
  lemma LastPlaced(fs: Fs, p: Path)
    requires IsSpelled(p) && p != [] && p[|p| - 1].Name? && !LstatThrough(fs, p).Link? && Real(fs, PlaceOf(fs, p).spot)
    ensures IdAt(fs, PlaceOf(fs, p).spot) in PlaceOf(fs, p).chain
  {
    var parent, spot := p[..|p| - 1], PlaceOf(fs, p).spot;
    assert parent[..|parent|] == parent && parent[|parent|..] == [];
    assert spot[..|spot| - 1] == ResolveExisting(fs, parent) && spot[..|spot|] == spot;
    RealPrefix(fs, spot, |spot| - 1);
    assert spot == ResolveExisting(fs, parent) + [p[|p| - 1]];
    assert spot[|spot| - 1].Name? && fs.lstat(spot[..|spot| - 1 + 1]).Other?;
    if Canonical(fs, parent).None? {
      MissingIsNotReal(fs, parent, |parent|);
    } else {
      assert ResolveExisting(fs, parent) == Canonical(fs, parent).value;
    }
  }

  // ---------------------------------------------------------------------------------------------
  // When the borrower waits for what touches its folder
  // ---------------------------------------------------------------------------------------------

  /** The folder is the area, by name or by identity. */
  predicate IsFolder(fs: Fs, a: Area, f: Path) {
    f == a.path || (IdAt(fs, f).Some? && Is(fs, a, IdAt(fs, f).value))
  }

  /** The resolution looks a name up below the area and does not stay below it: what is above the place the path
      leads to is not that folder. */
  predicate LeftBehind(fs: Fs, p: Path, a: Area) {
    exists v, k :: v in Resolve(fs, p, [], 0).visits && 0 <= k <= |v.dir| && LeftAt(fs, p, a, v.dir, k)
  }

  predicate LeftAt(fs: Fs, p: Path, a: Area, dir: Path, k: int) {
    0 <= k <= |dir| && IsFolder(fs, a, dir[..k]) && !(dir[..k] <= PlaceOf(fs, p).spot)
  }

  /** A folder that holds another is above it, by name or by identity. */
  lemma Holds(fs: Fs, a: Area, dir: Path) returns (k: nat)
    requires Contains(fs, a, dir)
    ensures k <= |dir| && IsFolder(fs, a, dir[..k])
  {
    hide Is;
    if a.path <= dir {
      k := |a.path|;
    } else {
      var j :| 0 <= j < |dir| && IdsOf(fs, dir)[j].Some? && Is(fs, a, IdsOf(fs, dir)[j].value);
      IdsAt(fs, dir, j);
      k := j + 1;
    }
  }

  lemma HoldsBelow(fs: Fs, a: Area, dir: Path, k: nat)
    requires k <= |dir| && IsFolder(fs, a, dir[..k])
    ensures Contains(fs, a, dir)
  {
    hide Is;
    if dir[..k] != a.path {
      var ids := IdsOf(fs, dir);
      IdsAt(fs, dir, k - 1);
      assert ids[k - 1].Some? && Is(fs, a, ids[k - 1].value);
    }
  }

  /** A folder above the place a path leads to is related to it. */
  lemma AboveIsRelated(fs: Fs, p: Path, a: Area, f: Path)
    requires IsSpelled(p) && Real(fs, f) && IsFolder(fs, a, f) && f <= PlaceOf(fs, p).spot
    ensures Related(fs, p, a)
  {
    hide Is, PlaceOf, AnyIs, Chain;
    if f != a.path {
      PlaceHas(fs, p, f);
      InChain(fs, a, PlaceOf(fs, p).chain, IdAt(fs, f).value);
    }
  }

  /** An operation on a folder above the lent one, literally or where the path leads, is seen by the borrower, and so is
      one on something in it by name. */
  lemma AboveOrInsideIsRelated(fs: Fs, p: Path, a: Area)
    requires p <= a.path || a.path <= p
      || (Canonical(fs, p).Some? && (Canonical(fs, p).value <= a.path || a.path <= Canonical(fs, p).value))
    ensures Related(fs, p, a)
  {
    hide PlaceOf, Is, Chain;
    if Canonical(fs, p).Some? {
      PlaceOfExisting(fs, p);
    }
  }

  /** What exists is placed with the identity of what it leads to. */
  lemma PlaceOfIdentity(fs: Fs, p: Path)
    requires IsSpelled(p) && Canonical(fs, p).Some?
    ensures PlaceOf(fs, p).here == Stat(fs, p)
  {
    hide Resolve;
    var c := Canonical(fs, p).value;
    PlaceOfExisting(fs, p);
    CanonicalIsReal(fs, p);
    RealIsCanonical(fs, c);
    assert p[..|p|] == p && p[|p|..] == [] && c + [] == c;
    if p != [] && p[|p| - 1].Name? {
      LastName(fs, p);
    }
  }

  /** So is one on a folder that, under another name, is a folder above the lent one. */
  lemma AboveByIdentityIsRelated(fs: Fs, p: Path, a: Area, k: nat)
    requires IsSpelled(p) && Canonical(fs, p).Some? && 0 < k <= |a.path|
    requires Stat(fs, p).Some? && Stat(fs, p) == Stat(fs, a.path[..k])
    ensures Related(fs, p, a)
  {
    hide PlaceOf, Is, Canonical, Stat;
    PlaceOfIdentity(fs, p);
    ChainHas(fs, a.path, k);
  }

  /** Ending in a folder, by a path that exists whole, is seen by the borrower. */
  lemma EndIsRelated(fs: Fs, p: Path, a: Area)
    requires IsSpelled(p) && EndsIn(fs, p, a) && Canonical(fs, p).Some?
    ensures Related(fs, p, a)
  {
    hide PlaceOf, Is, AnyIs, Chain;
    var end := Canonical(fs, p).value;
    PlaceOfExisting(fs, p);
    CanonicalIsReal(fs, p);
    assert Contains(fs, a, end);
    var k := Holds(fs, a, end);
    RealPrefix(fs, end, k);
    AboveIsRelated(fs, p, a, end[..k]);
  }

  /** Ending in a folder by a path that does not exist whole is passing through it. */
  lemma MissingEndPassesThrough(fs: Fs, p: Path, a: Area)
    requires IsSpelled(p) && Genuine(fs, a) && EndsIn(fs, p, a) && Canonical(fs, p).None?
    ensures PassesThrough(fs, p, a)
  {
    hide Is, AnyIs;
    var t := Resolve(fs, p, [], 0);
    if t.end.Unresolved? {
      UnresolvedIsNowhere(fs, p, [], 0);
      NoneIs(fs, a);
    } else {
      ArrivesSettled(fs, p, [], 0);
      MissingWasLookedUp(fs, p, [], 0);
      if a.path <= t.end.path {
        WithinWhatExists(fs, a.path, t.here, t.end.path);
      }
      assert Contains(fs, a, t.here);
    }
  }

  /** A real folder above the end of a resolution is above the part that exists. */
  lemma WithinWhatExists(fs: Fs, f: Path, here: Path, end: Path)
    requires Real(fs, f) && Settled(fs, here, end) && f <= end
    ensures f <= here
  {
    var n := if |f| > |here| then |here| + 1 else |f|;
    assert f[..n] == end[..n];
    assert n > 0 ==> f[n - 1] == end[n - 1] && f[..n - 1 + 1] == f[..n];
  }

  lemma {:induction false} UnresolvedIsNowhere(fs: Fs, queue: Path, cur: Path, hops: nat)
    requires Resolve(fs, queue, cur, hops).end.Unresolved?
    ensures Resolve(fs, queue, cur, hops).here == []
    decreases MAX_HOPS - hops, |queue|
  {
    if queue != [] {
      var rest := queue[1..];
      match queue[0] {
        case Root => UnresolvedIsNowhere(fs, rest, [Root], hops);
        case Here => UnresolvedIsNowhere(fs, rest, cur, hops);
        case Parent => UnresolvedIsNowhere(fs, rest, Up(cur), hops);
        case Name(_) =>
          var next := cur + [queue[0]];
          match fs.lstat(next) {
            case Missing =>
            case Other(_) => UnresolvedIsNowhere(fs, rest, next, hops);
            case Link(target) =>
              if target.Some? && hops < MAX_HOPS {
                UnresolvedIsNowhere(fs, target.value + rest, From(cur, target.value), hops + 1);
              }
          }
      }
    }
  }

  lemma NoneIs(fs: Fs, a: Area)
    ensures !AnyIs(fs, a, IdsOf(fs, []))
  {
  }

  /** The borrower waits for whatever touches its folder, exactly when it waits for what enters the folder and
      leaves it again. */
  lemma WaitsIff(fs: Fs, p: Path, a: Area)
    requires IsSpelled(p) && Genuine(fs, a)
    ensures (Touches(fs, p, a) ==> Related(fs, p, a)) <==> (LeftBehind(fs, p, a) ==> Related(fs, p, a))
  {
    hide PlaceOf, Related, EndsIn, Is, Contains, IsFolder;
    if Touches(fs, p, a) && !LeftBehind(fs, p, a) {
      if PassesThrough(fs, p, a) {
        StayingIsRelated(fs, p, a);
      } else if Canonical(fs, p).Some? {
        EndIsRelated(fs, p, a);
      } else {
        MissingEndPassesThrough(fs, p, a);
      }
    }
    if v, k :| v in Resolve(fs, p, [], 0).visits && LeftAt(fs, p, a, v.dir, k) {
      HoldsBelow(fs, a, v.dir, k);
    }
  }

  lemma StayingIsRelated(fs: Fs, p: Path, a: Area)
    requires IsSpelled(p) && PassesThrough(fs, p, a) && !LeftBehind(fs, p, a)
    ensures Related(fs, p, a)
  {
    hide PlaceOf, Related, Is, Contains, IsFolder;
    var v :| v in Resolve(fs, p, [], 0).visits && Contains(fs, a, v.dir);
    VisitsAreReal(fs, p, [], 0);
    var k := Holds(fs, a, v.dir);
    assert !LeftAt(fs, p, a, v.dir, k);
    RealPrefix(fs, v.dir, k);
    AboveIsRelated(fs, p, a, v.dir[..k]);
  }

  // ---------------------------------------------------------------------------------------------
  // Straight paths
  // ---------------------------------------------------------------------------------------------

  predicate LinkAt(fs: Fs, p: Path, k: int)
    requires 0 <= k < |p|
  {
    fs.lstat(p[..k + 1]).Link?
  }

  /** An absolute path of names only, no part of which is a link. */
  predicate Straight(fs: Fs, p: Path) {
    && p != [] && p[0].Root? && (forall k :: 0 < k < |p| ==> p[k].Name?)
    && forall k :: 0 < k < |p| ==> !LinkAt(fs, p, k)
  }

  lemma StraightPrefix(fs: Fs, p: Path, n: nat)
    requires Straight(fs, p) && 0 < n <= |p|
    ensures Straight(fs, p[..n])
  {
    forall k | 0 < k < n ensures !LinkAt(fs, p[..n], k) {
      assert p[..n][..k + 1] == p[..k + 1] && !LinkAt(fs, p, k);
    }
  }

  /** It leads to itself, by way of the folders above it. */
  lemma {:induction false} StraightResolves(fs: Fs, p: Path, n: nat)
    requires Straight(fs, p) && 0 < n <= |p|
    ensures var t := Resolve(fs, p[n..], p[..n], 0);
      t.end == Arrived(p) && t.here <= p && forall v :: v in t.visits ==> v.dir <= p
    decreases |p| - n
  {
    if n == |p| {
      assert p[n..] == [] && p[..n] == p;
    } else {
      var rest := p[n..];
      assert rest[0] == p[n] && rest[1..] == p[n + 1..] && p[..n] + [p[n]] == p[..n + 1];
      assert !LinkAt(fs, p, n) && p[..n + 1] + p[n + 1..] == p;
      StraightResolves(fs, p, n + 1);
    }
  }

  lemma StraightIsItself(fs: Fs, p: Path)
    requires Straight(fs, p)
    ensures Canonical(fs, p).None? || Canonical(fs, p) == Some(p)
    ensures forall v :: v in Resolve(fs, p, [], 0).visits ==> v.dir <= p
    ensures |p| == 1 ==> Canonical(fs, p) == Some(p)
  {
    StraightResolves(fs, p, 1);
    assert p[1..] == p[1..] && p[..1] == [Root] && p[0].Root?;
    assert Resolve(fs, p, [], 0) == Resolve(fs, p[1..], [Root], 0);
  }

  lemma {:induction false} StraightExisting(fs: Fs, p: Path, n: nat)
    requires Straight(fs, p) && 0 < n <= |p|
    ensures Existing(fs, p, n) == p
  {
    StraightPrefix(fs, p, n);
    StraightIsItself(fs, p[..n]);
    assert p[..n] + p[n..] == p;
    if Canonical(fs, p[..n]).None? {
      StraightExisting(fs, p, n - 1);
    }
  }

  lemma StraightPlace(fs: Fs, p: Path)
    requires Straight(fs, p)
    ensures PlaceOf(fs, p).spot == p
  {
    StraightExisting(fs, p, |p|);
    if |p| > 1 {
      var parent := p[..|p| - 1];
      StraightPrefix(fs, p, |p| - 1);
      StraightIsItself(fs, parent);
      StraightExisting(fs, parent, |parent|);
      assert !LinkAt(fs, p, |p| - 1);
      assert parent + [p[|p| - 1]] == p && p[..|p| - 1 + 1] == p;
    }
  }

  /** Whatever a straight path touches, the borrower waits for. */
  lemma StraightIsWaitedFor(fs: Fs, p: Path, a: Area)
    requires Straight(fs, p) && Genuine(fs, a) && Touches(fs, p, a)
    ensures Related(fs, p, a)
  {
    hide Resolve, Touches, Related, IsFolder;
    StraightIsItself(fs, p);
    StraightPlace(fs, p);
    forall v, k | v in Resolve(fs, p, [], 0).visits && 0 <= k <= |v.dir| ensures v.dir[..k] <= PlaceOf(fs, p).spot {
      assert v.dir[..k] == p[..k];
    }
    WaitsIff(fs, p, a);
  }

  // ---------------------------------------------------------------------------------------------
  // Paths the borrower misses
  // ---------------------------------------------------------------------------------------------

  /** `/d/a` with a folder `s` in it, `/d/y`, and a link `/x`. */
  function Disk(target: Spelled): Fs {
    Fs(p =>
      if p == [Root] then Other(Some(FileId(0, 1, None)))
      else if p == [Root, Name("d")] then Other(Some(FileId(0, 2, None)))
      else if p == [Root, Name("d"), Name("a")] then Other(Some(FileId(0, 3, None)))
      else if p == [Root, Name("d"), Name("a"), Name("s")] then Other(Some(FileId(0, 4, None)))
      else if p == [Root, Name("d"), Name("y")] then Other(Some(FileId(0, 5, None)))
      else if p == [Root, Name("x")] then Link(Some(target))
      else Missing)
  }

  function Lent(): Area {
    Area([Root, Name("d"), Name("a")], Some(FileId(0, 3, None)))
  }

  function ExampleLink(): Path {
    [Root, Name("x")]
  }

  /** The steps of a resolution, one name at a time. */
  lemma LookedUp(fs: Fs, c: Comp, rest: Path, cur: Path, hops: nat)
    requires c.Name? && fs.lstat(cur + [c]).Other?
    ensures Resolve(fs, [c] + rest, cur, hops) == After(Visit(cur, false), Resolve(fs, rest, cur + [c], hops))
  {
    assert ([c] + rest)[1..] == rest;
  }

  lemma WentUp(fs: Fs, rest: Path, cur: Path, hops: nat)
    ensures Resolve(fs, [Parent] + rest, cur, hops) == Resolve(fs, rest, Up(cur), hops)
  {
    assert ([Parent] + rest)[1..] == rest;
  }

  lemma FromRoot(fs: Fs, rest: Path, cur: Path, hops: nat)
    ensures Resolve(fs, [Root] + rest, cur, hops) == Resolve(fs, rest, [Root], hops)
  {
    assert ([Root] + rest)[1..] == rest;
  }

  /** The program's link `/x` leads where its target leads. */
  lemma Followed(fs: Fs, target: Spelled)
    requires target != [] && target[0].Root? && fs.lstat(ExampleLink()) == Link(Some(target))
    ensures Resolve(fs, ExampleLink(), [], 0) == After(Visit([Root], true), Resolve(fs, target, [], 1))
  {
    var none: Path := [];
    assert ExampleLink() == [Root] + [Name("x")] && [Name("x")] + none == [Name("x")] && [Name("x")][1..] == none;
    FromRoot(fs, [Name("x")], [], 0);
    assert target + none == target;
  }

  function Back(): Spelled {
    [Root, Name("d"), Name("a"), Name("s"), Parent, Parent, Name("y")]
  }

  /** `/x -> /d/a/s/../../y` goes through the lent folder and ends outside. */
  lemma BackResolves()
    ensures var t := Resolve(Disk(Back()), Back(), [], 1);
      && t.end == Arrived([Root, Name("d"), Name("y")]) && t.here == [Root, Name("d"), Name("y")]
      && Visit([Root, Name("d"), Name("a")], false) in t.visits
  {
    hide Resolve;
    var fs := Disk(Back());
    var d, a, s, y: Path := [Root, Name("d")], [Root, Name("d"), Name("a")], [Root, Name("d"), Name("a"), Name("s")],
      [Name("y")];
    var none: Path := [];
    assert Back() == [Root] + ([Name("d")] + ([Name("a")] + ([Name("s")] + ([Parent] + ([Parent] + y)))));
    FromRoot(fs, [Name("d")] + ([Name("a")] + ([Name("s")] + ([Parent] + ([Parent] + y)))), [], 1);
    assert [Root] + [Name("d")] == d && d + [Name("a")] == a && a + [Name("s")] == s;
    LookedUp(fs, Name("d"), [Name("a")] + ([Name("s")] + ([Parent] + ([Parent] + y))), [Root], 1);
    LookedUp(fs, Name("a"), [Name("s")] + ([Parent] + ([Parent] + y)), d, 1);
    LookedUp(fs, Name("s"), [Parent] + ([Parent] + y), a, 1);
    WentUp(fs, [Parent] + y, s, 1);
    assert Up(s) == a && Up(a) == d;
    WentUp(fs, y, a, 1);
    OneName(fs, Name("y"), d, 1);
    assert d + [Name("y")] == [Root, Name("d"), Name("y")];
  }

  function Dangling(): Spelled {
    [Root, Name("d"), Name("a"), Name("new")]
  }

  /** `/x -> /d/a/new` leads to a name to be created in the lent folder. */
  lemma DanglingResolves()
    ensures var t := Resolve(Disk(Dangling()), Dangling(), [], 1);
      && t.end == Arrived(Dangling()) && t.here == [Root, Name("d"), Name("a")]
  {
    hide Resolve;
    var fs := Disk(Dangling());
    var d, a: Path := [Root, Name("d")], [Root, Name("d"), Name("a")];
    assert Dangling() == [Root] + ([Name("d")] + ([Name("a")] + [Name("new")]));
    FromRoot(fs, [Name("d")] + ([Name("a")] + [Name("new")]), [], 1);
    assert [Root] + [Name("d")] == d && d + [Name("a")] == a && a + [Name("new")] == Dangling();
    LookedUp(fs, Name("d"), [Name("a")] + [Name("new")], [Root], 1);
    LookedUp(fs, Name("a"), [Name("new")], d, 1);
    OneName(fs, Name("new"), a, 1);
  }

  /** The folder of the examples exists by its physical name. */
  lemma LentIsGenuine(target: Spelled)
    ensures Genuine(Disk(target), Lent())
    ensures forall id :: id in Chain(Disk(target), Lent().path) ==>
      id in {Some(FileId(0, 1, None)), Some(FileId(0, 2, None)), Some(FileId(0, 3, None))}
  {
    hide Resolve;
    var fs, p := Disk(target), Lent().path;
    assert p[..3] == p && p[..2] == [Root, Name("d")] && p[..1] == [Root];
    RealIsCanonical(fs, p);
    RealPrefix(fs, p, 2);
    RealPrefix(fs, p, 1);
    RealIsCanonical(fs, p[..2]);
    RealIsCanonical(fs, p[..1]);
    var none: Path := [];
    assert p[..1][..0] == none && p[..2][..1] == p[..1];
    assert Chain(fs, p[..1]) == Chain(fs, none) + [Stat(fs, p[..1])];
    assert Chain(fs, p[..2]) == Chain(fs, p[..1]) + [Stat(fs, p[..2])];
  }

  predicate NoneOfThese(fs: Fs, a: Area, chain: seq<Option<FileId>>) {
    forall k :: 0 <= k < |chain| && chain[k].Some? ==> !Is(fs, a, chain[k].value)
  }

  lemma NotRelated(fs: Fs, p: Path, a: Area)
    requires var at := PlaceOf(fs, p);
      && !Comparable(p, a.path) && !Comparable(at.spot, a.path) && NoneOfThese(fs, a, at.chain)
      && (at.here.Some? ==> at.here !in Chain(fs, a.path))
    ensures !Related(fs, p, a)
  {
    hide PlaceOf, Chain, Is;
  }

  lemma ExampleIsLink(target: Spelled)
    ensures LstatThrough(Disk(target), ExampleLink()).Link?
    ensures Stat(Disk(target), [Root]) == Some(FileId(0, 1, None)) && Canonical(Disk(target), [Root]) == Some([Root])
  {
    hide Resolve;
    assert ExampleLink()[..1] == [Root] && [Root] + [Name("x")] == ExampleLink();
    RealIsCanonical(Disk(target), [Root]);
  }

  /** A path whose link passes through the lent folder and comes back out of it: it touches the folder, and the
      borrower does not relate it. */
  lemma PassingThroughIsMissed()
    ensures var fs := Disk(Back());
      Genuine(fs, Lent()) && Touches(fs, ExampleLink(), Lent()) && !Related(fs, ExampleLink(), Lent())
  {
    hide Resolve, Chain, Existing, Canonical, Stat;
    var fs, p, end := Disk(Back()), ExampleLink(), [Root, Name("d"), Name("y")];
    LentIsGenuine(Back());
    Followed(fs, Back());
    BackResolves();
    var t := Resolve(fs, p, [], 0);
    assert Visit([Root, Name("d"), Name("a")], false) in t.visits;
    assert Contains(fs, Lent(), [Root, Name("d"), Name("a")]);
    ExampleIsLink(Back());
    ExampleEnds(fs, p, end);
    assert PlaceOf(fs, p) == WholePlace(fs, p) && PlaceOf(fs, p).spot == end;
    EndChain();
    NotRelated(fs, p, Lent());
  }

  lemma ExampleEnds(fs: Fs, p: Path, end: Path)
    requires Resolve(fs, p, [], 0).end == Arrived(end) && Resolve(fs, p, [], 0).here == end
    ensures ResolveExisting(fs, p) == end
  {
    hide Resolve;
    assert p[..|p|] == p && p[|p|..] == [] && end + [] == end;
  }

  lemma EndChain()
    ensures var fs, end := Disk(Back()), [Root, Name("d"), Name("y")];
      Chain(fs, end) == [Some(FileId(0, 1, None)), Some(FileId(0, 2, None)), Some(FileId(0, 5, None))]
      && Stat(fs, end) == Some(FileId(0, 5, None))
  {
    hide Resolve;
    var fs, p, none: Path := Disk(Back()), [Root, Name("d"), Name("y")], [];
    assert p[..3] == p && p[..2] == [Root, Name("d")] && p[..1] == [Root] && p[..1][..0] == none
      && p[..2][..1] == p[..1];
    RealIsCanonical(fs, p);
    RealPrefix(fs, p, 2);
    RealPrefix(fs, p, 1);
    RealIsCanonical(fs, p[..2]);
    RealIsCanonical(fs, p[..1]);
    assert Chain(fs, p[..1]) == Chain(fs, none) + [Stat(fs, p[..1])];
    assert Chain(fs, p[..2]) == Chain(fs, p[..1]) + [Stat(fs, p[..2])];
  }

  /** A link to a name to be created in the lent folder: creating the file through the link touches the folder,
      and the borrower does not relate it. */
  lemma DanglingLinkIsMissed()
    ensures var fs := Disk(Dangling());
      Genuine(fs, Lent()) && Touches(fs, ExampleLink(), Lent()) && !Related(fs, ExampleLink(), Lent())
  {
    hide Resolve, Chain, Stat, Canonical;
    var fs, p := Disk(Dangling()), ExampleLink();
    LentIsGenuine(Dangling());
    Followed(fs, Dangling());
    DanglingResolves();
    assert EndsIn(fs, p, Lent());
    ExampleIsLink(Dangling());
    DanglingPlace(fs, p);
    NotRelated(fs, p, Lent());
  }

  lemma DanglingPlace(fs: Fs, p: Path)
    requires fs == Disk(Dangling()) && p == ExampleLink() && LstatThrough(fs, p).Link?
    requires !Whole(Resolve(fs, p, [], 0)) && Canonical(fs, [Root]) == Some([Root])
      && Stat(fs, [Root]) == Some(FileId(0, 1, None))
    ensures PlaceOf(fs, p) == Place(p, None, [Some(FileId(0, 1, None)), None])
  {
    hide Resolve;
    var none: Path := [];
    assert p[..2] == p && p[..1] == [Root] && [Root] + p[1..] == p && [Root][..0] == none;
    assert Canonical(fs, p).None? && Existing(fs, p, 1) == p;
    assert Chain(fs, [Root]) == Chain(fs, none) + [Stat(fs, [Root])];
    assert Chain(fs, p) == Chain(fs, [Root]) + [Stat(fs, p)];
  }
}
