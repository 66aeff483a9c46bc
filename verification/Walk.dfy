/**
 Paths by component, folder identities, and the resolution of a path by hand that follows no link lying in a
 delegated folder.
 */
module Paths {
  import opened Wrappers

  datatype Comp = Root | Here | Parent | Name(name: string)

  type Path = seq<Comp>

  /** The shape in which a spelled path is taken apart: the root or a leading `.` only in front. */
  predicate IsSpelled(p: Path) {
    forall i :: 0 < i < |p| ==> p[i].Name? || p[i].Parent?
  }

  type Spelled = p: Path | IsSpelled(p)

  datatype FileId = FileId(dev: nat, ino: nat, born: Option<nat>)

  /** A delegated folder: where it was and what it was on disk. */
  datatype Area = Area(path: Path, id: Option<FileId>)

  predicate OnePerName(areas: seq<Area>) {
    forall i, j :: 0 <= i < j < |areas| ==> areas[i].path != areas[j].path
  }
}

module Walk {
  import opened Wrappers
  import opened Paths

  const MAX_HOPS := 40

  /** What is at a path, the last component not followed. A link that cannot be read has no target. */
  datatype Node = Missing | Link(target: Option<Spelled>) | Other(id: Option<FileId>)

  /** What is on disk, one folder's names at a time. */
  datatype Fs = Fs(lstat: Path -> Node)

  predicate SameInode(a: FileId, b: FileId) {
    a.dev == b.dev && a.ino == b.ino
  }

  /** Is the identity seen now that folder? The same inode with another birth is another folder, unless the
      folder's name still leads to that inode. */
  predicate Is(fs: Fs, a: Area, id: FileId) {
    && a.id.Some? && SameInode(a.id.value, id)
    && (a.id.value.born == id.born || a.id.value.born.None? || id.born.None?
        || (Stat(fs, a.path).Some? && SameInode(Stat(fs, a.path).value, id)))
  }

  predicate Same(fs: Fs, a: Area, b: Area) {
    a.path == b.path || (b.id.Some? && Is(fs, a, b.id.value))
  }

  predicate AnyIs(fs: Fs, a: Area, ids: seq<Option<FileId>>) {
    exists k :: 0 <= k < |ids| && ids[k].Some? && Is(fs, a, ids[k].value)
  }

  predicate Inside(fs: Fs, cur: Path, ids: seq<Option<FileId>>, a: Area) {
    a.path <= cur || AnyIs(fs, a, ids)
  }

  function Up(cur: Path): Path {
    if cur == [] || cur[|cur| - 1].Root? then cur else cur[..|cur| - 1]
  }

  /** Appending a component to a path; the root replaces it. */
  function Push(cur: Path, c: Comp): Path {
    if c.Root? then [Root] else cur + [c]
  }

  // ---------------------------------------------------------------------------------------------
  // Resolution with no areas
  // ---------------------------------------------------------------------------------------------

  datatype End = Arrived(path: Path) | InArea(area: Path) | Unresolved

  /** A name looked up in `dir`, which was a link or was not. */
  datatype Visit = Visit(dir: Path, link: bool)

  /** The names looked up in order, the end, and the part of the end that exists. */
  datatype Trail = Trail(visits: seq<Visit>, end: End, here: Path)

  function After(v: Visit, rest: Trail): Trail {
    rest.(visits := [v] + rest.visits)
  }

  function Resolve(fs: Fs, queue: Path, cur: Path, hops: nat): (t: Trail)
    ensures !t.end.InArea?
    decreases MAX_HOPS - hops, |queue|
  {
    if queue == [] then Trail([], Arrived(cur), cur)
    else
      var rest := queue[1..];
      match queue[0]
      case Root => Resolve(fs, rest, [Root], hops)
      case Here => Resolve(fs, rest, cur, hops)
      case Parent => Resolve(fs, rest, Up(cur), hops)
      case Name(_) =>
        var next := cur + [queue[0]];
        match fs.lstat(next)
        case Missing => Trail([Visit(cur, false)], Arrived(next + rest), cur)
        case Other(_) => After(Visit(cur, false), Resolve(fs, rest, next, hops))
        case Link(target) =>
          if target.None? || hops >= MAX_HOPS then Trail([Visit(cur, true)], Unresolved, [])
          else After(Visit(cur, true), Resolve(fs, target.value + rest, From(cur, target.value), hops + 1))
  }

  /** Where the resolution of a path met in `cur` starts. */
  function From(cur: Path, p: Path): Path {
    if p != [] && p[0].Root? then [] else cur
  }

  /** `canonicalize`: where a path leads, links followed, if all of it exists. */
  function Canonical(fs: Fs, p: Path): Option<Path> {
    var t := Resolve(fs, p, [], 0);
    if t.end.Arrived? && t.here == t.end.path then Some(t.here) else None
  }

  /** `metadata`: the identity of what a path leads to. */
  function Stat(fs: Fs, p: Path): Option<FileId> {
    var c := Canonical(fs, p);
    if c.Some? && fs.lstat(c.value).Other? then fs.lstat(c.value).id else None
  }

  /** The identity of a name that is not a link. */
  function IdAt(fs: Fs, p: Path): Option<FileId> {
    if p != [] && p[|p| - 1].Name? && fs.lstat(p).Other? then fs.lstat(p).id else None
  }

  /** The identities of a path and the folders above it, one for each component. */
  function IdsOf(fs: Fs, p: Path): (ids: seq<Option<FileId>>)
    ensures |ids| == |p|
  {
    if p == [] then [] else IdsOf(fs, p[..|p| - 1]) + [IdAt(fs, p)]
  }

  predicate Contains(fs: Fs, a: Area, dir: Path) {
    Inside(fs, dir, IdsOf(fs, dir), a)
  }

  predicate InAny(fs: Fs, areas: seq<Area>, dir: Path) {
    exists a :: a in areas && Contains(fs, a, dir)
  }

  /** The first visit that met a link lying in an area; the number of visits if none did. */
  function FirstLinkInArea(fs: Fs, areas: seq<Area>, visits: seq<Visit>): (k: nat)
    ensures k <= |visits|
    ensures k < |visits| ==> visits[k].link && InAny(fs, areas, visits[k].dir)
    ensures forall j :: 0 <= j < k ==> !(visits[j].link && InAny(fs, areas, visits[j].dir))
  {
    if visits == [] || (visits[0].link && InAny(fs, areas, visits[0].dir)) then 0
    else FirstLinkInArea(fs, areas, visits[1..]) + 1
  }

  // ---------------------------------------------------------------------------------------------
  // The walk
  // ---------------------------------------------------------------------------------------------

  datatype Walked = Walked(end: End, touched: seq<Area>, endIds: seq<Option<FileId>>)

  predicate HasPath(areas: seq<Area>, p: Path) {
    exists a :: a in areas && a.path == p
  }

  /** Adds the areas that hold the folder, one for each name. */
  function Touch(fs: Fs, areas: seq<Area>, cur: Path, ids: seq<Option<FileId>>, touched: seq<Area>): seq<Area> {
    if areas == [] then touched
    else
      var before := Touch(fs, areas[..|areas| - 1], cur, ids, touched);
      var a := areas[|areas| - 1];
      if Inside(fs, cur, ids, a) && !HasPath(before, a.path) then before + [a] else before
  }

  /** The areas touched by a run of visits, on top of those touched before. */
  function TouchedBy(fs: Fs, areas: seq<Area>, visits: seq<Visit>, touched: seq<Area>): seq<Area> {
    if visits == [] then touched
    else
      var dir := visits[0].dir;
      TouchedBy(fs, areas, visits[1..], Touch(fs, areas, dir, IdsOf(fs, dir), touched))
  }

  /** A resolution cut at the first link that lies in an area. */
  function Cut(fs: Fs, areas: seq<Area>, t: Trail, touched: seq<Area>): Walked {
    var k := FirstLinkInArea(fs, areas, t.visits);
    if k == |t.visits| then Walked(t.end, TouchedBy(fs, areas, t.visits, touched), IdsOf(fs, t.here))
    else
      var dir := t.visits[k].dir;
      Walked(InArea(Holder(fs, areas, dir, IdsOf(fs, dir))), TouchedBy(fs, areas, t.visits[..k + 1], touched), [])
  }

  /** The name of the first area that holds the folder. */
  function Holder(fs: Fs, areas: seq<Area>, cur: Path, ids: seq<Option<FileId>>): Path {
    if areas == [] then []
    else if Inside(fs, cur, ids, areas[0]) then areas[0].path
    else Holder(fs, areas[1..], cur, ids)
  }

  /** What is left to resolve, in front of where the resolution stands: the root only comes first. */
  predicate Queued(queue: Path, cur: Path) {
    IsSpelled(queue) && (queue != [] && queue[0].Root? ==> cur == [])
  }

  predicate Named(queue: Path) {
    forall c :: c in queue ==> c.Name? || c.Parent?
  }

  /** A path of folders met one by one: the root or a name first, then names. */
  predicate Plain(cur: Path) {
    forall i :: 0 <= i < |cur| ==> cur[i].Name? || (i == 0 && cur[i].Root?)
  }

  lemma CutAfter(fs: Fs, areas: seq<Area>, v: Visit, t: Trail, touched: seq<Area>)
    requires !(v.link && InAny(fs, areas, v.dir))
    ensures Cut(fs, areas, After(v, t), touched)
      == Cut(fs, areas, t, Touch(fs, areas, v.dir, IdsOf(fs, v.dir), touched))
  {
    hide InAny, Touch, IdsOf, Holder;
    var u := After(v, t);
    assert u.visits[1..] == t.visits;
    var k := FirstLinkInArea(fs, areas, t.visits);
    if k < |t.visits| {
      assert u.visits[..k + 2][1..] == t.visits[..k + 1];
    }
  }

  lemma CutNothing(fs: Fs, areas: seq<Area>, end: End, here: Path, touched: seq<Area>)
    ensures Cut(fs, areas, Trail([], end, here), touched) == Walked(end, touched, IdsOf(fs, here))
  {
  }

  lemma CutLast(fs: Fs, areas: seq<Area>, v: Visit, end: End, here: Path, touched: seq<Area>)
    requires !(v.link && InAny(fs, areas, v.dir))
    ensures Cut(fs, areas, Trail([v], end, here), touched)
         == Walked(end, Touch(fs, areas, v.dir, IdsOf(fs, v.dir), touched), IdsOf(fs, here))
  {
    var none: seq<Visit> := [];
    assert [v][1..] == none;
    assert FirstLinkInArea(fs, areas, [v]) == FirstLinkInArea(fs, areas, none) + 1;
    assert TouchedBy(fs, areas, [v], touched)
        == TouchedBy(fs, areas, none, Touch(fs, areas, v.dir, IdsOf(fs, v.dir), touched));
  }

  lemma CutHere(fs: Fs, areas: seq<Area>, t: Trail, touched: seq<Area>)
    requires t.visits != [] && t.visits[0].link && InAny(fs, areas, t.visits[0].dir)
    ensures var dir := t.visits[0].dir; var ids := IdsOf(fs, dir);
      Cut(fs, areas, t, touched) == Walked(InArea(Holder(fs, areas, dir, ids)), Touch(fs, areas, dir, ids, touched), [])
  {
    var v, none: seq<Visit> := t.visits[0], [];
    assert t.visits[..1] == [v] && [v][1..] == none;
    assert TouchedBy(fs, areas, [v], touched)
        == TouchedBy(fs, areas, none, Touch(fs, areas, v.dir, IdsOf(fs, v.dir), touched));
  }

  /** The resolution of `path` by hand: the loop with its queue, its path and its stack of identities. */
  method WalkPath(fs: Fs, areas: seq<Area>, path: Spelled) returns (w: Walked)
    ensures w == Cut(fs, areas, Resolve(fs, path, [], 0), [])
  {
    hide Cut, TouchedBy, Touch, FirstLinkInArea, Holder, Inside, HasPath, Is, AnyIs;
    var queue: Path, cur: Path := path, [];
    var ids: seq<Option<FileId>>, touched: seq<Area>, hops := [], [], 0;
    while queue != []
      invariant Queued(queue, cur) && Plain(cur) && hops <= MAX_HOPS
      invariant ids == IdsOf(fs, cur)
      invariant Cut(fs, areas, Resolve(fs, queue, cur, hops), touched) == Cut(fs, areas, Resolve(fs, path, [], 0), [])
      decreases MAX_HOPS - hops, |queue|
    {
      var c := queue[0];
      queue := queue[1..];
      if c.Root? {
        cur := Push(cur, c);
        ids := ids + [None];
      } else if c.Parent? {
        if Up(cur) != cur {
          cur := Up(cur);
          ids := ids[..|ids| - 1];
        }
      } else if c.Name? {
        ghost var before := touched;
        touched := TouchAll(fs, areas, cur, ids, touched);
        var next := cur + [c];
        match fs.lstat(next) {
          case Link(target) =>
            var a := FindInside(fs, areas, cur, ids);
            if a.Some? {
              CutHere(fs, areas, Resolve(fs, [c] + queue, cur, hops), before);
              return Walked(InArea(a.value.path), touched, []);
            }
            hops := hops + 1;
            if target.None? || hops > MAX_HOPS {
              CutLast(fs, areas, Visit(cur, true), Unresolved, [], before);
              return Walked(Unresolved, touched, []);
            }
            CutAfter(fs, areas, Visit(cur, true), Resolve(fs, target.value + queue, From(cur, target.value), hops),
              before);
            if target.value != [] && target.value[0].Root? {
              cur, ids := [], [];
            }
            queue := target.value + queue;
          case Other(id) =>
            CutAfter(fs, areas, Visit(cur, false), Resolve(fs, queue, next, hops), before);
            cur := next;
            ids := ids + [id];
          case Missing =>
            CutLast(fs, areas, Visit(cur, false), Arrived(next + queue), cur, before);
            cur := PushAll(next, queue);
            return Walked(Arrived(cur), touched, ids);
        }
      }
    }
    CutNothing(fs, areas, Arrived(cur), cur, touched);
    w := Walked(Arrived(cur), touched, ids);
  }

  /** The names that do not exist, appended as they are. */
  method PushAll(base: Path, names: Path) returns (cur: Path)
    requires Named(names)
    ensures cur == base + names
  {
    var queue := names;
    cur := base;
    while queue != []
      invariant cur + queue == base + names && Named(queue)
    {
      assert queue == [queue[0]] + queue[1..] && queue[0] in queue;
      cur := Push(cur, queue[0]);
      queue := queue[1..];
    }
  }

  method TouchAll(fs: Fs, areas: seq<Area>, cur: Path, ids: seq<Option<FileId>>, was: seq<Area>)
    returns (touched: seq<Area>)
    ensures touched == Touch(fs, areas, cur, ids, was)
  {
    touched := was;
    for i := 0 to |areas|
      invariant touched == Touch(fs, areas[..i], cur, ids, was)
    {
      assert areas[..i + 1][..i] == areas[..i];
      if Inside(fs, cur, ids, areas[i]) && !HasPath(touched, areas[i].path) {
        touched := touched + [areas[i]];
      }
    }
    assert areas[..|areas|] == areas;
  }

  method FindInside(fs: Fs, areas: seq<Area>, cur: Path, ids: seq<Option<FileId>>) returns (a: Option<Area>)
    ensures a.None? <==> forall x :: x in areas ==> !Inside(fs, cur, ids, x)
    ensures a.Some? ==> a.value in areas && Inside(fs, cur, ids, a.value) && a.value.path == Holder(fs, areas, cur, ids)
  {
    for i := 0 to |areas|
      invariant forall j :: 0 <= j < i ==> !Inside(fs, cur, ids, areas[j])
      invariant Holder(fs, areas, cur, ids) == Holder(fs, areas[i..], cur, ids)
    {
      assert areas[i..][1..] == areas[i + 1..];
      if Inside(fs, cur, ids, areas[i]) {
        return Some(areas[i]);
      }
    }
    a := None;
  }

  // ---------------------------------------------------------------------------------------------
  // What the walk says
  // ---------------------------------------------------------------------------------------------

  function Walks(fs: Fs, areas: seq<Area>, path: Spelled): Walked {
    Cut(fs, areas, Resolve(fs, path, [], 0), [])
  }

  /** A visit at which the walk stops. */
  predicate Crosses(fs: Fs, areas: seq<Area>, v: Visit) {
    v.link && InAny(fs, areas, v.dir)
  }

  lemma {:induction false} HolderHolds(fs: Fs, areas: seq<Area>, cur: Path, ids: seq<Option<FileId>>)
    requires exists a :: a in areas && Inside(fs, cur, ids, a)
    ensures exists a :: a in areas && Inside(fs, cur, ids, a) && a.path == Holder(fs, areas, cur, ids)
  {
    if !Inside(fs, cur, ids, areas[0]) {
      var a :| a in areas && Inside(fs, cur, ids, a);
      assert a in areas[1..];
      HolderHolds(fs, areas[1..], cur, ids);
    }
  }

  predicate FirstCrossing(fs: Fs, areas: seq<Area>, visits: seq<Visit>, k: int) {
    && 0 <= k < |visits| && Crosses(fs, areas, visits[k])
    && forall j :: 0 <= j < k ==> !Crosses(fs, areas, visits[j])
  }

  predicate NoCrossing(fs: Fs, areas: seq<Area>, visits: seq<Visit>) {
    forall j :: 0 <= j < |visits| ==> !Crosses(fs, areas, visits[j])
  }

  /** The walk ends where plain resolution ends when that follows no link lying in an area; otherwise it stops
      at the first such link and names an area that holds it. */
  lemma EndsLikeResolution(fs: Fs, areas: seq<Area>, path: Spelled)
    ensures var t, w := Resolve(fs, path, [], 0), Walks(fs, areas, path);
      if NoCrossing(fs, areas, t.visits) then w.end == t.end && w.endIds == IdsOf(fs, t.here) else w.end.InArea?
    ensures var t, w := Resolve(fs, path, [], 0), Walks(fs, areas, path);
      forall k :: FirstCrossing(fs, areas, t.visits, k) ==>
        w.end.InArea? && exists a :: a in areas && Contains(fs, a, t.visits[k].dir) && w.end.area == a.path
  {
    hide Resolve, Contains, TouchedBy, Holder, IdsOf;
    var t := Resolve(fs, path, [], 0);
    var k := FirstLinkInArea(fs, areas, t.visits);
    if k < |t.visits| {
      assert Crosses(fs, areas, t.visits[k]);
      AreaNamed(fs, areas, t.visits[k].dir);
    }
  }

  lemma AreaNamed(fs: Fs, areas: seq<Area>, dir: Path)
    requires InAny(fs, areas, dir)
    ensures exists a :: a in areas && Contains(fs, a, dir) && Holder(fs, areas, dir, IdsOf(fs, dir)) == a.path
  {
    hide Inside, IdsOf, Holder;
    var a :| a in areas && Contains(fs, a, dir);
    HolderHolds(fs, areas, dir, IdsOf(fs, dir));
  }

  /** The areas a run of visits goes through, by name. */
  predicate GoesThrough(fs: Fs, areas: seq<Area>, visits: seq<Visit>, q: Path) {
    exists k, a :: 0 <= k < |visits| && a in areas && a.path == q && Contains(fs, a, visits[k].dir)
  }

  lemma {:induction false} TouchExact(fs: Fs, areas: seq<Area>, cur: Path, ids: seq<Option<FileId>>, was: seq<Area>)
    requires OnePerName(was)
    ensures var now := Touch(fs, areas, cur, ids, was);
      && was <= now && OnePerName(now)
      && (forall a :: a in now ==> a in was || a in areas)
      && forall q :: HasPath(now, q) <==>
           HasPath(was, q) || exists a :: a in areas && a.path == q && Inside(fs, cur, ids, a)
  {
    hide Inside;
    if areas != [] {
      var fewer, last := areas[..|areas| - 1], areas[|areas| - 1];
      TouchExact(fs, fewer, cur, ids, was);
      var before, now := Touch(fs, fewer, cur, ids, was), Touch(fs, areas, cur, ids, was);
      assert areas == fewer + [last];
      forall q ensures HasPath(now, q) <==> HasPath(before, q) || (last.path == q && Inside(fs, cur, ids, last)) {
        if now != before {
          assert now == before + [last] && last in now;
        }
      }
    }
  }

  lemma {:induction false} TouchedByExact(fs: Fs, areas: seq<Area>, visits: seq<Visit>, was: seq<Area>)
    requires OnePerName(was)
    ensures var now := TouchedBy(fs, areas, visits, was);
      && OnePerName(now)
      && (forall a :: a in now ==> a in was || a in areas)
      && forall q :: HasPath(now, q) <==> HasPath(was, q) || GoesThrough(fs, areas, visits, q)
  {
    hide Inside, Touch;
    if visits != [] {
      var dir, rest := visits[0].dir, visits[1..];
      var first := Touch(fs, areas, dir, IdsOf(fs, dir), was);
      TouchExact(fs, areas, dir, IdsOf(fs, dir), was);
      TouchedByExact(fs, areas, rest, first);
      forall q ensures GoesThrough(fs, areas, visits, q)
        <==> GoesThrough(fs, areas, rest, q) || exists a :: a in areas && a.path == q && Contains(fs, a, dir)
      {
        GoesThroughFirst(fs, areas, visits, q);
      }
    }
  }

  lemma GoesThroughFirst(fs: Fs, areas: seq<Area>, visits: seq<Visit>, q: Path)
    requires visits != []
    ensures GoesThrough(fs, areas, visits, q) <==>
      || GoesThrough(fs, areas, visits[1..], q)
      || exists a :: a in areas && a.path == q && Contains(fs, a, visits[0].dir)
  {
    hide Contains;
    var rest := visits[1..];
    if GoesThrough(fs, areas, visits, q) {
      var k, a :| 0 <= k < |visits| && a in areas && a.path == q && Contains(fs, a, visits[k].dir);
      assert k > 0 ==> rest[k - 1] == visits[k];
    }
    if GoesThrough(fs, areas, rest, q) {
      var k, a :| 0 <= k < |rest| && a in areas && a.path == q && Contains(fs, a, rest[k].dir);
      assert visits[k + 1] == rest[k];
    }
  }

  /** `touched` is one area for each area name that a folder on the way lies in, up to the end or the link the
      walk stopped at. */
  lemma TouchedIsExact(fs: Fs, areas: seq<Area>, path: Spelled)
    ensures var t := Resolve(fs, path, [], 0);
      var k := FirstLinkInArea(fs, areas, t.visits);
      var way := if k < |t.visits| then t.visits[..k + 1] else t.visits;
      var touched := Walks(fs, areas, path).touched;
      && OnePerName(touched) && (forall a :: a in touched ==> a in areas)
      && forall q :: HasPath(touched, q) <==> GoesThrough(fs, areas, way, q)
  {
    hide TouchedBy, Touch, Inside;
    var t := Resolve(fs, path, [], 0);
    var k := FirstLinkInArea(fs, areas, t.visits);
    TouchedByExact(fs, areas, if k < |t.visits| then t.visits[..k + 1] else t.visits, []);
  }

  function LinksMet(visits: seq<Visit>): nat {
    if visits == [] then 0 else (if visits[0].link then 1 else 0) + LinksMet(visits[1..])
  }

  /** At most forty links are followed, cycles included; a resolution that does not arrive met a link it could
      not follow last. */
  lemma {:induction false} LinksAreBounded(fs: Fs, queue: Path, cur: Path, hops: nat)
    requires hops <= 40
    ensures var t := Resolve(fs, queue, cur, hops);
      && (t.end.Arrived? ==> LinksMet(t.visits) + hops <= 40)
      && (!t.end.Arrived? ==> t.end == Unresolved && LinksMet(t.visits) + hops <= 41)
      && (!t.end.Arrived? ==> t.visits != [] && t.visits[|t.visits| - 1].link)
    decreases MAX_HOPS - hops, |queue|
  {
    hide LinksMet, Up, From;
    LinksOfNone();
    if queue != [] {
      var rest := queue[1..];
      match queue[0] {
        case Root => LinksAreBounded(fs, rest, [Root], hops);
        case Here => LinksAreBounded(fs, rest, cur, hops);
        case Parent => LinksAreBounded(fs, rest, Up(cur), hops);
        case Name(_) =>
          var next := cur + [queue[0]];
          match fs.lstat(next) {
            case Missing =>
              LinksOfOne(Visit(cur, false));
            case Other(_) =>
              LinksAreBounded(fs, rest, next, hops);
              LinksAfter(Visit(cur, false), Resolve(fs, rest, next, hops));
            case Link(target) =>
              if target.None? || hops >= MAX_HOPS {
                LinksOfOne(Visit(cur, true));
              } else {
                var more := Resolve(fs, target.value + rest, From(cur, target.value), hops + 1);
                LinksAreBounded(fs, target.value + rest, From(cur, target.value), hops + 1);
                LinksAfter(Visit(cur, true), more);
              }
          }
      }
    }
  }

  lemma LinksOfNone()
    ensures LinksMet([]) == 0
  {
  }

  lemma LinksOfOne(v: Visit)
    ensures LinksMet([v]) == if v.link then 1 else 0
  {
    assert [v][1..] == [];
  }

  lemma LinksAfter(v: Visit, t: Trail)
    ensures LinksMet(After(v, t).visits) == (if v.link then 1 else 0) + LinksMet(t.visits)
  {
    assert After(v, t).visits[1..] == t.visits;
  }

  // ----- resolving what was resolved -----

  /** Folders that exist and are no links, each in the one before. */
  predicate Real(fs: Fs, p: Path) {
    Plain(p) && forall k :: 0 <= k < |p| && p[k].Name? ==> fs.lstat(p[..k + 1]).Other?
  }

  /** Where a resolution arrives: folders that exist, and then nothing or a name that does not. */
  predicate Settled(fs: Fs, here: Path, end: Path) {
    && Real(fs, here) && here <= end
    && (end == here || (end[|here|].Name? && fs.lstat(end[..|here| + 1]).Missing? && Named(end[|here|..])))
  }

  lemma RealStep(fs: Fs, cur: Path, c: Comp)
    requires Real(fs, cur) && c.Name? && fs.lstat(cur + [c]).Other?
    ensures Real(fs, cur + [c])
  {
    var next := cur + [c];
    forall k | 0 <= k < |next| && next[k].Name? ensures fs.lstat(next[..k + 1]).Other? {
      if k < |cur| {
        assert next[..k + 1] == cur[..k + 1];
      } else {
        assert next[..k + 1] == next;
      }
    }
  }

  lemma RealUp(fs: Fs, cur: Path)
    requires Real(fs, cur)
    ensures Real(fs, Up(cur))
  {
    var up := Up(cur);
    forall k | 0 <= k < |up| && up[k].Name? ensures fs.lstat(up[..k + 1]).Other? {
      assert up[..k + 1] == cur[..k + 1];
    }
  }

  lemma {:induction false} ArrivesSettled(fs: Fs, queue: Path, cur: Path, hops: nat)
    requires Queued(queue, cur) && Real(fs, cur)
    ensures var t := Resolve(fs, queue, cur, hops); t.end.Arrived? ==> Settled(fs, t.here, t.end.path)
    decreases MAX_HOPS - hops, |queue|
  {
    if queue != [] {
      var rest := queue[1..];
      match queue[0] {
        case Root => ArrivesSettled(fs, rest, [Root], hops);
        case Here => ArrivesSettled(fs, rest, cur, hops);
        case Parent =>
          RealUp(fs, cur);
          ArrivesSettled(fs, rest, Up(cur), hops);
        case Name(_) =>
          var next := cur + [queue[0]];
          match fs.lstat(next) {
            case Missing =>
              var end := next + rest;
              assert end[..|cur| + 1] == next && end[|cur|..] == queue;
            case Other(_) =>
              RealStep(fs, cur, queue[0]);
              ArrivesSettled(fs, rest, next, hops);
            case Link(target) =>
              if target.Some? && hops < MAX_HOPS {
                ArrivesSettled(fs, target.value + rest, From(cur, target.value), hops + 1);
              }
          }
      }
    }
  }

  /** Folders that exist and are no links are walked through as they are. */
  lemma {:induction false} ThroughReal(fs: Fs, here: Path, n: nat, rest: Path)
    requires Real(fs, here) && n <= |here|
    ensures var t := Resolve(fs, here[n..] + rest, here[..n], 0);
      var u := Resolve(fs, rest, here, 0);
      t.end == u.end && t.here == u.here && LinksMet(t.visits) == LinksMet(u.visits)
    decreases |here| - n
  {
    hide LinksMet, Up, From;
    if n == |here| {
      assert here[n..] + rest == rest && here[..n] == here;
    } else {
      var queue := here[n..] + rest;
      assert queue[1..] == here[n + 1..] + rest && queue[0] == here[n];
      assert here[..n] + [here[n]] == here[..n + 1];
      ThroughReal(fs, here, n + 1, rest);
      if here[n].Name? {
        LinksAfter(Visit(here[..n], false), Resolve(fs, here[n + 1..] + rest, here[..n + 1], 0));
      } else {
        assert n == 0 && here[..1] == [Root];
      }
    }
  }

  /** Resolving what a resolution arrived at arrives there again, and meets no link. */
  lemma ResolveTwice(fs: Fs, path: Spelled)
    requires Resolve(fs, path, [], 0).end.Arrived?
    ensures var end := Resolve(fs, path, [], 0).end.path;
      Resolve(fs, end, [], 0).end == Arrived(end) && LinksMet(Resolve(fs, end, [], 0).visits) == 0
  {
    ArrivesSettled(fs, path, [], 0);
    var t := Resolve(fs, path, [], 0);
    var end, here := t.end.path, t.here;
    var rest := end[|here|..];
    assert end == here[0..] + rest && here[..0] == [];
    ThroughReal(fs, here, 0, rest);
    if rest != [] {
      var next := here + [rest[0]];
      assert next == end[..|here| + 1] && next + rest[1..] == end;
      assert [Visit(here, false)][1..] == [];
    }
  }

  // ---------------------------------------------------------------------------------------------
  // The decision
  // ---------------------------------------------------------------------------------------------

  datatype Crossing = Through(area: Path) | InUse(area: Path)

  /** `b` is passed through or ended in. */
  predicate Uses(fs: Fs, w: Walked, b: Area) {
    || (exists t :: t in w.touched && Same(fs, t, b))
    || (w.end.Arrived? && b.path <= w.end.path)
    || AnyIs(fs, b, w.endIds)
  }

  function FirstUsed(fs: Fs, w: Walked, busy: seq<Area>): Option<Path> {
    if busy == [] then None
    else if Uses(fs, w, busy[0]) then Some(busy[0].path)
    else FirstUsed(fs, w, busy[1..])
  }

  /** Why a path with no fixed place is not granted. */
  function PlainCrossing(fs: Fs, areas: seq<Area>, busy: seq<Area>, path: Spelled): Option<Crossing> {
    var w := Walks(fs, areas, path);
    var used := FirstUsed(fs, w, busy);
    if used.Some? then Some(InUse(used.value))
    else
      match w.end
      case InArea(a) => Some(Through(a))
      case Unresolved => if w.touched == [] then None else Some(Through(w.touched[0].path))
      case Arrived(_) => None
  }

  lemma {:induction false} NoneUsed(fs: Fs, w: Walked, busy: seq<Area>)
    ensures FirstUsed(fs, w, busy).None? <==> forall b :: b in busy ==> !Uses(fs, w, b)
  {
    hide Uses;
    if busy != [] {
      NoneUsed(fs, w, busy[1..]);
      assert busy == [busy[0]] + busy[1..];
    }
  }

  /** A path that is granted follows no link lying in an area, and neither ends in a busy area nor goes through
      an area that is the same folder as a busy one; and one that is not resolved goes through no area at all.
      (Areas known by identity only must be known once for each name, as `borrow` keeps them.) */
  lemma GrantedIsClear(fs: Fs, areas: seq<Area>, busy: seq<Area>, path: Spelled)
    requires PlainCrossing(fs, areas, busy, path).None?
    ensures var t := Resolve(fs, path, [], 0);
      && NoCrossing(fs, areas, t.visits)
      && (forall b :: b in busy && t.end.Arrived? ==> !(b.path <= t.end.path) && !AnyIs(fs, b, IdsOf(fs, t.here)))
      && (t.end.Unresolved? ==> forall q :: !GoesThrough(fs, areas, t.visits, q))
    ensures var t := Resolve(fs, path, [], 0);
      forall b, x, k :: b in busy && x in areas && Same(fs, x, b) && 0 <= k < |t.visits| ==>
        x.path == b.path || OnePerName(areas) ==> !Contains(fs, x, t.visits[k].dir)
  {
    hide Resolve, TouchedBy, Holder, Inside, Is, AnyIs, IdsOf, Cut;
    var t, w := Resolve(fs, path, [], 0), Walks(fs, areas, path);
    NoneUsed(fs, w, busy);
    EndsLikeResolution(fs, areas, path);
    TouchedIsExact(fs, areas, path);
    assert NoCrossing(fs, areas, t.visits);
    forall b, x | b in busy && x in areas && Same(fs, x, b) && (x.path == b.path || OnePerName(areas))
      ensures forall k :: 0 <= k < |t.visits| ==> !Contains(fs, x, t.visits[k].dir)
    {
      forall a | a in w.touched ensures a.path != x.path {
        assert !Same(fs, a, b) && a in areas;
      }
      assert !HasPath(w.touched, x.path) && !GoesThrough(fs, areas, t.visits, x.path);
    }
    if t.end.Unresolved? {
      forall q ensures !GoesThrough(fs, areas, t.visits, q) {
        assert !HasPath(w.touched, q);
      }
    }
  }

  // ----- exactly when a path is granted -----

  /** A resolution that follows no link in a known folder, goes through no known folder that is a busy one and ends
      in none; and, if it does not arrive, goes through no known folder at all. */
  predicate Unnoticed(fs: Fs, areas: seq<Area>, busy: seq<Area>, t: Trail) {
    && NoCrossing(fs, areas, t.visits)
    && (forall v, x, b :: v in t.visits && x in areas && b in busy && Same(fs, x, b) ==> !Contains(fs, x, v.dir))
    && (forall b :: b in busy ==> !AnyIs(fs, b, IdsOf(fs, t.here)) && !(t.end.Arrived? && b.path <= t.end.path))
    && (t.end.Unresolved? ==> forall v, x :: v in t.visits && x in areas ==> !Contains(fs, x, v.dir))
  }

  lemma UnnoticedIsGranted(fs: Fs, areas: seq<Area>, busy: seq<Area>, path: Spelled)
    requires OnePerName(areas) && Unnoticed(fs, areas, busy, Resolve(fs, path, [], 0))
    ensures PlainCrossing(fs, areas, busy, path).None?
  {
    hide Resolve, TouchedBy, Holder, Inside, Is, AnyIs, IdsOf, Cut;
    var t, w := Resolve(fs, path, [], 0), Walks(fs, areas, path);
    NoneUsed(fs, w, busy);
    EndsLikeResolution(fs, areas, path);
    TouchedIsExact(fs, areas, path);
    assert NoCrossing(fs, areas, t.visits);
    forall a | a in w.touched ensures exists v :: v in t.visits && Contains(fs, a, v.dir) {
      assert HasPath(w.touched, a.path) && GoesThrough(fs, areas, t.visits, a.path);
      var k, x :| 0 <= k < |t.visits| && x in areas && x.path == a.path && Contains(fs, x, t.visits[k].dir);
      assert t.visits[k] in t.visits;
    }
    assert w.touched == [] || w.touched[0] in w.touched;
  }

  /** With the folders known one for each name, a path is granted exactly when its plain resolution goes unnoticed. */
  lemma GrantedIff(fs: Fs, areas: seq<Area>, busy: seq<Area>, path: Spelled)
    requires OnePerName(areas)
    ensures PlainCrossing(fs, areas, busy, path).None? <==> Unnoticed(fs, areas, busy, Resolve(fs, path, [], 0))
  {
    hide PlainCrossing, Resolve, Contains, Is, AnyIs, IdsOf;
    var t := Resolve(fs, path, [], 0);
    if Unnoticed(fs, areas, busy, t) {
      UnnoticedIsGranted(fs, areas, busy, path);
    } else if PlainCrossing(fs, areas, busy, path).None? {
      GrantedIsClear(fs, areas, busy, path);
      GrantedEnds(fs, areas, busy, path);
      forall v, x | v in t.visits && x in areas && Contains(fs, x, v.dir)
        ensures !t.end.Unresolved? && forall b :: b in busy ==> !Same(fs, x, b)
      {
        var k :| 0 <= k < |t.visits| && t.visits[k] == v;
        assert GoesThrough(fs, areas, t.visits, x.path);
      }
    }
  }

  lemma GrantedEnds(fs: Fs, areas: seq<Area>, busy: seq<Area>, path: Spelled)
    requires PlainCrossing(fs, areas, busy, path).None?
    ensures forall b :: b in busy ==> !AnyIs(fs, b, IdsOf(fs, Resolve(fs, path, [], 0).here))
  {
    hide Resolve, TouchedBy, Holder, Inside, Is, AnyIs, IdsOf, Cut;
    var w := Walks(fs, areas, path);
    NoneUsed(fs, w, busy);
    EndsLikeResolution(fs, areas, path);
  }

  /** With fewer folders known and one busy fewer, nothing more is in the way. */
  lemma FewerInTheWay(fs: Fs, known: seq<Area>, more: seq<Area>, busy: seq<Area>, b: Area, path: Spelled)
    requires OnePerName(known) && OnePerName(more) && (forall x :: x in known ==> x in more) && b in busy
    requires PlainCrossing(fs, more, busy, path).None?
    ensures PlainCrossing(fs, known, [b], path).None?
  {
    hide PlainCrossing, Resolve, Contains, Is, AnyIs, IdsOf, Same;
    var t := Resolve(fs, path, [], 0);
    GrantedIff(fs, more, busy, path);
    GrantedIff(fs, known, [b], path);
    forall j | 0 <= j < |t.visits| ensures !Crosses(fs, known, t.visits[j]) {
      assert !Crosses(fs, more, t.visits[j]);
    }
  }

  lemma NothingKnown(fs: Fs, path: Spelled)
    ensures PlainCrossing(fs, [], [], path).None?
  {
    hide Resolve;
    GrantedIff(fs, [], [], path);
  }
}
