/**
 What a program that is run by another may do: the limits of the caller travel as layers of the child's
 delegated ceilings, and authority only narrows.
 */
module Narrowing {
  import opened Wrappers
  import opened Capability
  import opened Decision
  import Walk

  function CallerLayer(caps: seq<Capability>): Delegation {
    Delegation(caps, [], Caller, false)
  }

  /** The grants of a set and of its parents. */
  function GrantsOf(chain: seq<Limits>): seq<Capability> {
    if chain == [] then [] else chain[0].granted + GrantsOf(chain[1..])
  }

  /** A sandbox block becomes a limit of the caller. */
  function AsCaller(delegated: seq<Delegation>): seq<Delegation> {
    if delegated == [] then []
    else
      var d := delegated[0];
      [if d.source.Block? then d.(source := Caller) else d] + AsCaller(delegated[1..])
  }

  lemma {:induction false} AsCallerAppend(delegated: seq<Delegation>, d: Delegation)
    ensures AsCaller(delegated + [d]) == AsCaller(delegated) + [if d.source.Block? then d.(source := Caller) else d]
  {
    if delegated == [] {
      assert [d][1..] == [];
    } else {
      AsCallerAppend(delegated[1..], d);
      assert (delegated + [d])[1..] == delegated[1..] + [d];
    }
  }

  method CallerLayers(delegated: seq<Delegation>) returns (layers: seq<Delegation>)
    ensures layers == AsCaller(delegated)
  {
    layers := [];
    for i := 0 to |delegated|
      invariant layers == AsCaller(delegated[..i])
    {
      var d := delegated[i];
      AsCallerAppend(delegated[..i], d);
      assert delegated[..i + 1] == delegated[..i] + [d];
      layers := layers + [if d.source.Block? then d.(source := Caller) else d];
    }
    assert delegated[..|delegated|] == delegated;
  }

  function ChildLayers(chain: seq<Limits>): seq<Delegation>
    requires chain != []
  {
    [CallerLayer(GrantsOf(chain))]
    + (if chain[0].ceiling.Some? then [CallerLayer(chain[0].ceiling.value)] else [])
    + AsCaller(chain[0].delegated)
  }

  /** The child's own delegated ceilings hold every layer of the caller. */
  predicate RunsUnder(child: seq<Limits>, parent: seq<Limits>) {
    parent != [] && child != [] && forall d :: d in ChildLayers(parent) ==> d in child[0].delegated
  }

  /** The parents of a set have its host ceiling, and no delegated ceiling that it does not have. */
  predicate SharesLimits(chain: seq<Limits>) {
    forall k :: 0 <= k < |chain| ==>
      && chain[k].ceiling == chain[0].ceiling
      && forall d :: d in chain[k].delegated ==> d in chain[0].delegated
  }

  /** Requests whose scope is no path on disk. */
  predicate IsNoPath(w: World, r: Capability) {
    !IsPathType(r.ty) || IsDbUrl(w, r)
  }

  /** A set was granted it and no set up to there denies it. */
  predicate GrantedUndenied(w: World, chain: seq<Limits>, k: int, r: Capability) {
    && 0 <= k < |chain| && LayerCovers(w, chain[k].granted, r)
    && forall j :: 0 <= j <= k ==> NotDenied(w, chain[j], r)
  }

  lemma {:induction false} CallerCovers(w: World, delegated: seq<Delegation>, d: Delegation, r: Capability)
    requires d in delegated && forall e :: e in AsCaller(delegated) ==> DelegationCovers(w, e, r)
    ensures DelegationCovers(w, d, r)
  {
    var first := if delegated[0].source.Block? then delegated[0].(source := Caller) else delegated[0];
    assert first in AsCaller(delegated);
    if d == delegated[0] {
      assert Layers(first) == Layers(d);
    } else {
      assert delegated == [delegated[0]] + delegated[1..];
      CallerCovers(w, delegated[1..], d, r);
    }
  }

  lemma {:induction false} GrantOfSomeSet(chain: seq<Limits>, g: Capability) returns (k: nat)
    requires g in GrantsOf(chain)
    ensures k < |chain| && g in chain[k].granted
  {
    if g in chain[0].granted {
      k := 0;
    } else {
      var rest := GrantOfSomeSet(chain[1..], g);
      k := rest + 1;
    }
  }

  /** What the layers of the caller let through is within every limit of every set of the caller's chain. */
  lemma WithinEveryLimit(w: World, parent: seq<Limits>, r: Capability, k: nat)
    requires parent != [] && SharesLimits(parent) && k < |parent| && !IsProcessLocal(r.ty)
    requires forall d :: d in ChildLayers(parent) ==> DelegationCovers(w, d, r)
    ensures Admitted(w, parent[k], r)
  {
    hide LayerCovers;
    var top := parent[0];
    if top.ceiling.Some? {
      var layer := CallerLayer(top.ceiling.value);
      assert layer in ChildLayers(parent) && top.ceiling.value in Layers(layer);
    }
    forall d | d in parent[k].delegated ensures DelegationCovers(w, d, r) {
      assert forall e :: e in AsCaller(top.delegated) ==> e in ChildLayers(parent);
      CallerCovers(w, top.delegated, d, r);
    }
  }

  /** A transferable request that the child's check accepts is accepted by the caller's check exactly when one of
      the caller's sets was granted it with no denial, and no isolated folder in the way, up to there. */
  lemma NarrowsIff(w: World, child: seq<Limits>, parent: seq<Limits>, inChild: Answers, cross: Answers,
                   r: Capability)
    requires Ordered(w, child) && Ordered(w, parent) && RunsUnder(child, parent) && SharesLimits(parent)
    requires !IsProcessLocal(r.ty) && Decide(w, child, inChild, r).Allowed?
    ensures Decide(w, parent, cross, r).Allowed? <==> exists k :: GrantedUndenied(w, parent, k, r) && Clear(cross, k)
  {
    hide Decide, LayerCovers, DelegationCovers, Denies, IsCapSet, ChildLayers;
    AllowedIff(w, child, inChild, r);
    AllowedIff(w, parent, cross, r);
    assert Admitted(w, child[0], r) by {
      var k :| GrantedBy(w, child, inChild, k, r);
      assert Passes(w, child[0], r);
    }
    forall k: nat | k < |parent| ensures Admitted(w, parent[k], r) {
      WithinEveryLimit(w, parent, r, k);
    }
    forall k ensures GrantedBy(w, parent, cross, k, r) <==> GrantedUndenied(w, parent, k, r) && Clear(cross, k) {
    }
  }

  lemma NoSplit(w: World, layer: seq<Capability>, r: Capability)
    requires IsNoPath(w, r)
    ensures !SplitCovers(w, layer, r)
  {
  }

  /** The layer of the caller's grants covers a request that is no path only if one of the caller's sets does. */
  lemma SomeSetGranted(w: World, parent: seq<Limits>, r: Capability) returns (k: nat)
    requires parent != [] && !IsProcessLocal(r.ty) && IsNoPath(w, r)
    requires DelegationCovers(w, CallerLayer(GrantsOf(parent)), r)
    ensures k < |parent| && LayerCovers(w, parent[k].granted, r)
  {
    hide Covers, SplitCovers;
    var grants := GrantsOf(parent);
    assert grants in Layers(CallerLayer(grants));
    NoSplit(w, grants, r);
    var g :| g in grants && Covers(w, g, r);
    k := GrantOfSomeSet(parent, g);
  }

  predicate NothingDenied(chain: seq<Limits>) {
    forall k :: 0 <= k < |chain| ==> chain[k].denied == []
  }

  /** With no denials, every transferable request that is no path and that the child's check accepts is accepted
      by the caller's check. */
  lemma Narrows(w: World, child: seq<Limits>, parent: seq<Limits>, r: Capability)
    requires Ordered(w, child) && Ordered(w, parent) && RunsUnder(child, parent) && SharesLimits(parent)
    requires !IsProcessLocal(r.ty) && IsNoPath(w, r) && NothingDenied(parent)
    requires Decide(w, child, [], r).Allowed?
    ensures Decide(w, parent, [], r).Allowed?
  {
    hide Decide, LayerCovers, Denies, DelegationCovers, Ordered, SharesLimits;
    NarrowsIff(w, child, parent, [], [], r);
    AllowedIff(w, child, [], r);
    var k := CoveredByGrants(w, child, parent, r);
    assert GrantedUndenied(w, parent, k, r);
  }

  lemma CoveredByGrants(w: World, child: seq<Limits>, parent: seq<Limits>, r: Capability) returns (k: nat)
    requires RunsUnder(child, parent) && !IsProcessLocal(r.ty) && IsNoPath(w, r)
    requires exists j :: GrantedBy(w, child, [], j, r)
    ensures k < |parent| && LayerCovers(w, parent[k].granted, r)
  {
    hide LayerCovers, Denies, DelegationCovers;
    var j :| GrantedBy(w, child, [], j, r);
    assert Passes(w, child[0], r);
    assert CallerLayer(GrantsOf(parent)) in ChildLayers(parent);
    k := SomeSetGranted(w, parent, r);
  }

  /** Programs that run each other, the outermost first. */
  ghost predicate Nested(w: World, programs: seq<seq<Limits>>) {
    && (forall i :: 0 <= i < |programs| ==>
         Ordered(w, programs[i]) && SharesLimits(programs[i]) && NothingDenied(programs[i]))
    && (forall i :: 0 < i < |programs| ==> RunsUnder(programs[i], programs[i - 1]))
  }

  /** At any depth: what the innermost program may do, every program around it may do. */
  lemma {:induction false} NarrowsAtAnyDepth(w: World, programs: seq<seq<Limits>>, i: nat, r: Capability)
    requires Nested(w, programs) && i < |programs|
    requires !IsProcessLocal(r.ty) && IsNoPath(w, r)
    requires Decide(w, programs[|programs| - 1], [], r).Allowed?
    ensures Decide(w, programs[i], [], r).Allowed?
    decreases |programs| - i
  {
    hide Decide, Ordered, RunsUnder, SharesLimits, NothingDenied, IsNoPath;
    if i < |programs| - 1 {
      NarrowsAtAnyDepth(w, programs, i + 1, r);
      Narrows(w, programs[i + 1], programs[i], r);
    }
  }

  // ----- where it does not narrow -----

  /** A denial does not travel: the child may do what its caller was denied. */
  lemma DenialDoesNotTravel(w: World, c: Capability)
    requires Covers(w, c, c) && !IsProcessLocal(c.ty)
    ensures var parent := [Limits([c], [c], [], None, [])];
      var child := [Limits([c], [], [], None, ChildLayers(parent))];
      RunsUnder(child, parent) && Decide(w, child, [], c).Allowed? && Decide(w, parent, [], c).Denied?
  {
    var parent := [Limits([c], [c], [], None, [])];
    var child := [Limits([c], [], [], None, ChildLayers(parent))];
    assert GrantsOf(parent) == [c] by {
      assert parent[1..] == [];
    }
    assert ChildLayers(parent) == [CallerLayer([c])];
    assert Layers(CallerLayer([c])) == [[c]];
    NoDenial(w, [c], c);
    AllowedIff(w, child, [], c);
    assert c in [c];
    assert GrantedBy(w, child, [], 0, c);
  }

  /** Neither does the rule that one set must cover a path on its own: two sets of the caller are one layer for
      the child, and there one grant may cover the path by name and the other where it leads. */
  lemma PathsOfTwoSetsJoin(w: World, p: string, q: string, r: string)
    requires w.matches(File, p, r) && !w.within(p, r) && !w.matches(File, q, r) && w.within(q, r)
    ensures var named, led, request := Capability(File, Some(p)), Capability(File, Some(q)),
      Capability(FileRead, Some(r));
      var parent := [Limits([named], [], [], None, []), Limits([led], [], [], None, [])];
      var child := [Limits(InsertAll(w, [named, led]), [], [], None, [CallerLayer([named, led])])];
      && RunsUnder(child, parent) && SharesLimits(parent)
      && Decide(w, child, [], request).Allowed? && Decide(w, parent, [], request).Denied?
  {
    hide Cmp, Insert, InsertAll, Decide, SplitCovers, AnyCovers;
    var named, led, request := Capability(File, Some(p)), Capability(File, Some(q)), Capability(FileRead, Some(r));
    var parent := [Limits([named], [], [], None, []), Limits([led], [], [], None, [])];
    var grants := InsertAll(w, [named, led]);
    var child := [Limits(grants, [], [], None, [CallerLayer([named, led])])];
    assert GrantsOf(parent) == [named, led] by {
      var rest := parent[1..];
      assert rest == [Limits([led], [], [], None, [])] && rest[1..] == []
        && GrantsOf(rest) == [led] + GrantsOf(rest[1..]);
    }
    assert ChildLayers(parent) == [CallerLayer([named, led])];
    assert Layers(CallerLayer([named, led])) == [[named, led]];
    InsertAllHolds(w, [named, led]);
    Joined(w, [named, led], named, led, request);
    Joined(w, grants, named, led, request);
    Apart(w, named, led, request);
    AllowedIff(w, child, [], request);
    AllowedIff(w, parent, [], request);
    assert GrantedBy(w, child, [], 0, request);
  }

  lemma Joined(w: World, layer: seq<Capability>, named: Capability, led: Capability, r: Capability)
    requires named in layer && led in layer
    requires PhysicalPair(w, named, r) && CoversByName(w, named, r) && CoversPhysically(w, led, r)
    ensures LayerCovers(w, layer, r)
  {
  }

  lemma Apart(w: World, named: Capability, led: Capability, r: Capability)
    requires !CoversByName(w, led, r) && !CoversPhysically(w, named, r) && !Covers(w, named, r)
    ensures !LayerCovers(w, [named], r) && !LayerCovers(w, [led], r)
  {
  }

  // ---------------------------------------------------------------------------------------------
  // Private addresses
  // ---------------------------------------------------------------------------------------------

  type Address = nat

  /** Whether a scope names a destination that resolved to an address, and which addresses are public. */
  datatype Net = Net(names: (string, string, Address) -> bool, isPublic: Address -> bool)

  datatype NetLayers = NetLayers(
    denied: seq<Capability>, granted: seq<Capability>, ceiling: Option<seq<Capability>>, delegated: seq<Delegation>)

  function NetOnly(caps: seq<Capability>): (net: seq<Capability>)
    ensures forall c :: c in net <==> c in caps && c.ty.Net?
  {
    if caps == [] then [] else (if caps[0].ty.Net? then [caps[0]] else []) + NetOnly(caps[1..])
  }

  function NetOfLayers(layers: seq<seq<Capability>>): (net: seq<seq<Capability>>)
    ensures forall l :: l in layers ==> NetOnly(l) in net
  {
    if layers == [] then [] else [NetOnly(layers[0])] + NetOfLayers(layers[1..])
  }

  function NetOfDelegation(d: Delegation): Delegation {
    d.(caps := NetOnly(d.caps), earlier := NetOfLayers(d.earlier))
  }

  function NetOfDelegations(ds: seq<Delegation>): (net: seq<Delegation>)
    ensures forall d :: d in ds ==> NetOfDelegation(d) in net
    ensures forall n :: n in net ==> exists d :: d in ds && NetOfDelegation(d) == n
  {
    if ds == [] then [] else [NetOfDelegation(ds[0])] + NetOfDelegations(ds[1..])
  }

  function DenialsOf(chain: seq<Limits>): seq<Capability> {
    if chain == [] then [] else chain[0].denied + DenialsOf(chain[1..])
  }

  function NetLayersOf(chain: seq<Limits>): NetLayers
    requires chain != []
  {
    NetLayers(
      NetOnly(DenialsOf(chain)), NetOnly(GrantsOf(chain)),
      if chain[0].ceiling.Some? then Some(NetOnly(chain[0].ceiling.value)) else None,
      NetOfDelegations(chain[0].delegated))
  }

  predicate Names(n: Net, c: Capability, dest: string, ip: Address) {
    c.scope.Some? && n.names(c.scope.value, dest, ip)
  }

  predicate AnyNames(n: Net, caps: seq<Capability>, dest: string, ip: Address) {
    exists c :: c in caps && Names(n, c, dest, ip)
  }

  predicate EveryLayerNames(n: Net, d: Delegation, dest: string, ip: Address) {
    forall layer :: layer in Layers(d) ==> AnyNames(n, layer, dest, ip)
  }

  function FirstNaming(n: Net, caps: seq<Capability>, dest: string, ip: Address): (found: Option<Capability>)
    ensures found.Some? <==> AnyNames(n, caps, dest, ip)
  {
    if caps == [] then None
    else if Names(n, caps[0], dest, ip) then Some(caps[0])
    else FirstNaming(n, caps[1..], dest, ip)
  }

  function FirstSilent(n: Net, ds: seq<Delegation>, dest: string, ip: Address): (found: Option<Delegation>)
    ensures found.None? <==> forall d :: d in ds ==> EveryLayerNames(n, d, dest, ip)
  {
    if ds == [] then None
    else if !EveryLayerNames(n, ds[0], dest, ip) then Some(ds[0])
    else FirstSilent(n, ds[1..], dest, ip)
  }

  /** May one connect to `dest`, which resolved to `ip`? */
  function Admits(n: Net, layers: NetLayers, dest: string, ip: Address): Outcome {
    var denial, silent := FirstNaming(n, layers.denied, dest, ip), FirstSilent(n, layers.delegated, dest, ip);
    if denial.Some? then Denied(ExplicitlyDenied(denial.value))
    else if n.isPublic(ip) then Allowed
    else if layers.ceiling.Some? && !AnyNames(n, layers.ceiling.value, dest, ip) then Denied(AboveCeiling)
    else if silent.Some? then Denied(Delegated(silent.value))
    else if AnyNames(n, layers.granted, dest, ip) then Allowed
    else Denied(NoGrant)
  }

  /** A layer of the caller that reached the child names the address there and here. */
  lemma LayerNamed(n: Net, child: seq<Limits>, d: Delegation, layer: seq<Capability>, dest: string, ip: Address)
    requires child != [] && d in child[0].delegated && layer in Layers(d)
    requires forall e :: e in NetOfDelegations(child[0].delegated) ==> EveryLayerNames(n, e, dest, ip)
    ensures AnyNames(n, NetOnly(layer), dest, ip)
  {
    var e := NetOfDelegation(d);
    assert EveryLayerNames(n, e, dest, ip);
    assert NetOnly(layer) in Layers(e);
  }

  lemma {:induction false} CallerNamed(n: Net, child: seq<Limits>, delegated: seq<Delegation>, d: Delegation,
                                       dest: string, ip: Address)
    requires child != [] && d in delegated && forall e :: e in AsCaller(delegated) ==> e in child[0].delegated
    requires forall e :: e in NetOfDelegations(child[0].delegated) ==> EveryLayerNames(n, e, dest, ip)
    ensures EveryLayerNames(n, NetOfDelegation(d), dest, ip)
  {
    hide AnyNames, NetOnly;
    var first := if delegated[0].source.Block? then delegated[0].(source := Caller) else delegated[0];
    assert first in AsCaller(delegated);
    if d == delegated[0] {
      assert EveryLayerNames(n, NetOfDelegation(first), dest, ip);
      assert Layers(NetOfDelegation(first)) == Layers(NetOfDelegation(d));
    } else {
      assert delegated == [delegated[0]] + delegated[1..];
      CallerNamed(n, child, delegated[1..], d, dest, ip);
    }
  }

  /** An address that the child is admitted to, the caller is admitted to, exactly when no denial of the
      caller's chain names it. */
  lemma AdmissionNarrowsIff(n: Net, child: seq<Limits>, parent: seq<Limits>, dest: string, ip: Address)
    requires RunsUnder(child, parent) && Admits(n, NetLayersOf(child), dest, ip).Allowed?
    ensures Admits(n, NetLayersOf(parent), dest, ip).Allowed? <==> !AnyNames(n, NetOnly(DenialsOf(parent)), dest, ip)
  {
    hide AnyNames, NetOnly, NetOfDelegations, GrantsOf, DenialsOf;
    if !n.isPublic(ip) {
      var layers, top := ChildLayers(parent), parent[0];
      var grants := CallerLayer(GrantsOf(parent));
      assert grants in layers && GrantsOf(parent) in Layers(grants);
      LayerNamed(n, child, grants, GrantsOf(parent), dest, ip);
      if top.ceiling.Some? {
        var ceiling := CallerLayer(top.ceiling.value);
        assert ceiling in layers && top.ceiling.value in Layers(ceiling);
        LayerNamed(n, child, ceiling, top.ceiling.value, dest, ip);
      }
      forall e | e in NetOfDelegations(top.delegated) ensures EveryLayerNames(n, e, dest, ip) {
        var d :| d in top.delegated && NetOfDelegation(d) == e;
        assert forall x :: x in AsCaller(top.delegated) ==> x in layers;
        CallerNamed(n, child, top.delegated, d, dest, ip);
      }
    }
  }

  /** At any depth, with no denials: an address the innermost program is admitted to, every program around it is
      admitted to. */
  lemma {:induction false} AdmissionNarrowsAtAnyDepth(n: Net, programs: seq<seq<Limits>>, i: nat, dest: string,
                                                      ip: Address)
    requires i < |programs| && (forall k :: 0 <= k < |programs| ==> programs[k] != [] && NothingDenied(programs[k]))
    requires forall k :: 0 < k < |programs| ==> RunsUnder(programs[k], programs[k - 1])
    requires Admits(n, NetLayersOf(programs[|programs| - 1]), dest, ip).Allowed?
    ensures Admits(n, NetLayersOf(programs[i]), dest, ip).Allowed?
    decreases |programs| - i
  {
    hide Admits, NetLayersOf, RunsUnder;
    if i < |programs| - 1 {
      AdmissionNarrowsAtAnyDepth(n, programs, i + 1, dest, ip);
      AdmissionNarrowsIff(n, programs[i + 1], programs[i], dest, ip);
      NoDenials(programs[i]);
    }
  }

  lemma {:induction false} NoDenials(chain: seq<Limits>)
    requires NothingDenied(chain)
    ensures DenialsOf(chain) == []
  {
    if chain != [] {
      NoDenials(chain[1..]);
    }
  }
}
