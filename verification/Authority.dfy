/**
 What the decision means, as a reference: which grants give a request, by the types and scopes they have; when the
 whole chain of sets lets it through; and which private addresses a program may connect to.
 */
module Authority {
  import opened Wrappers
  import opened Capability
  import opened Decision
  import opened Narrowing
  import Walk

  // ---------------------------------------------------------------------------------------------
  // What a grant gives
  // ---------------------------------------------------------------------------------------------

  /** The types a grant answers for: its own; and `file`, both reading and writing. */
  predicate Answers(g: CapType, r: CapType) {
    match g
    case File => r.File? || r.FileRead? || r.FileWrite?
    case _ => r == g
  }

  /** By its text. A model or a judge with no scope takes public data only, and so is given by any grant for one;
      for every other type no scope is everything, and is given only by a grant with none. */
  predicate Names(w: World, g: Capability, r: Capability) {
    match (g.scope, r.scope)
    case (Some(s), Some(t)) => w.matches(g.ty, s, t)
    case (None, None) => true
    case (None, Some(_)) => !(g.ty.Llm? || g.ty.Judge?)
    case (Some(_), None) => g.ty.Llm? || g.ty.Judge?
  }

  /** It is about something on disk: a file, or a database that is no address. */
  predicate IsOnDisk(w: World, c: Capability) {
    match c.ty
    case FileRead => true
    case FileWrite => true
    case File => true
    case Db => c.scope.None? || !w.isUrl(c.scope.value)
    case _ => false
  }

  /** Where the request leads on disk is inside what the grant is for. */
  predicate HoldsOnDisk(w: World, g: Capability, r: Capability) {
    && Answers(g.ty, r.ty) && IsOnDisk(w, g)
    && (g.scope.None? || (r.scope.Some? && w.within(g.scope.value, r.scope.value)))
  }

  /** Some grant names the request; and if both are about the disk, some grant, that or another, holds where it
      leads. */
  predicate Gives(w: World, layer: seq<Capability>, r: Capability) {
    exists g :: g in layer && Answers(g.ty, r.ty) && Names(w, g, r)
      && (IsOnDisk(w, g) && IsOnDisk(w, r) ==> exists h :: h in layer && HoldsOnDisk(w, h, r))
  }

  lemma NamesIff(w: World, g: Capability, r: Capability)
    ensures CoversByName(w, g, r) <==> Answers(g.ty, r.ty) && Names(w, g, r)
    ensures PhysicalPair(w, g, r) <==> IsOnDisk(w, g) && IsOnDisk(w, r)
    ensures IsOnDisk(w, r) ==> (CoversPhysically(w, g, r) <==> HoldsOnDisk(w, g, r))
    ensures CoversPhysically(w, g, r) ==> IsOnDisk(w, r)
  {
  }

  /** Covering alone or together comes to this. */
  lemma LayerIff(w: World, layer: seq<Capability>, r: Capability)
    ensures LayerCovers(w, layer, r) <==> Gives(w, layer, r)
  {
    hide CoversByName, PhysicalPair, CoversPhysically, HoldsOnDisk, Answers, Names, IsOnDisk;
    forall g ensures CoversByName(w, g, r) <==> Answers(g.ty, r.ty) && Names(w, g, r)
      ensures PhysicalPair(w, g, r) <==> IsOnDisk(w, g) && IsOnDisk(w, r)
      ensures IsOnDisk(w, r) ==> (CoversPhysically(w, g, r) <==> HoldsOnDisk(w, g, r))
    {
      NamesIff(w, g, r);
    }
    if g :| g in layer && Covers(w, g, r) {
      if PhysicalPair(w, g, r) {
        AloneHolds(w, g, r);
      }
    }
  }

  /** A capability that covers a path on its own covers where it leads. */
  lemma AloneHolds(w: World, g: Capability, r: Capability)
    requires Covers(w, g, r) && PhysicalPair(w, g, r)
    ensures HoldsOnDisk(w, g, r)
  {
  }

  /** A denial that names the request, or names the place on disk it leads to. */
  predicate Forbids(w: World, d: Capability, r: Capability) {
    && Answers(d.ty, r.ty)
    && (Names(w, d, r) || ReachesOnDisk(w, d, r))
  }

  predicate ReachesOnDisk(w: World, d: Capability, r: Capability) {
    && IsOnDisk(w, d) && IsOnDisk(w, r)
    && d.scope.Some? && r.scope.Some? && w.reaches(d.scope.value, r.scope.value)
  }

  lemma DenialIff(w: World, d: Capability, r: Capability)
    ensures Denies(w, d, r) <==> Forbids(w, d, r)
  {
    NamesIff(w, d, r);
  }

  // ---------------------------------------------------------------------------------------------
  // What the whole chain lets through
  // ---------------------------------------------------------------------------------------------

  /** Standard output and input, the time and chance stay with the process, except that a deterministic block has
      neither time nor chance; all else every layer has to give. */
  predicate LetsThrough(w: World, d: Delegation, r: Capability) {
    match r.ty
    case Stdout => true
    case Stdin => true
    case Time => !d.deterministic
    case Random => !d.deterministic
    case _ => Gives(w, d.caps, r) && forall layer :: layer in d.earlier ==> Gives(w, layer, r)
  }

  lemma DelegationIff(w: World, d: Delegation, r: Capability)
    ensures DelegationCovers(w, d, r) <==> LetsThrough(w, d, r)
  {
    hide LayerCovers, Gives;
    forall layer ensures LayerCovers(w, layer, r) <==> Gives(w, layer, r) {
      LayerIff(w, layer, r);
    }
    assert d.caps in Layers(d);
  }

  /** Nothing in the set is in the way of the request. */
  predicate Open(w: World, s: Limits, r: Capability) {
    && (forall d :: d in s.denied ==> !Forbids(w, d, r))
    && (s.ceiling.Some? ==> Gives(w, s.ceiling.value, r))
    && forall d :: d in s.delegated ==> LetsThrough(w, d, r)
  }

  lemma OpenIff(w: World, s: Limits, r: Capability)
    ensures Passes(w, s, r) <==> Open(w, s, r)
  {
    hide LayerCovers, Gives, Denies, Forbids, DelegationCovers, LetsThrough;
    forall d ensures Denies(w, d, r) <==> Forbids(w, d, r) {
      DenialIff(w, d, r);
    }
    forall d ensures DelegationCovers(w, d, r) <==> LetsThrough(w, d, r) {
      DelegationIff(w, d, r);
    }
    if s.ceiling.Some? {
      LayerIff(w, s.ceiling.value, r);
    }
  }

  /** Set `k` of the chain was granted it, and from the first set to that one each is open to it and found no isolated
      folder in its way. */
  predicate Entitled(w: World, chain: seq<Limits>, cross: Decision.Answers, k: int, r: Capability) {
    && 0 <= k < |chain| && Gives(w, chain[k].granted, r)
    && forall j :: 0 <= j <= k ==> Open(w, chain[j], r) && (j < |cross| ==> cross[j].None?)
  }

  /** The decision, in these terms. */
  lemma AllowedExactly(w: World, chain: seq<Limits>, cross: Decision.Answers, r: Capability)
    requires Ordered(w, chain)
    ensures Decide(w, chain, cross, r).Allowed? <==> exists k :: Entitled(w, chain, cross, k, r)
  {
    hide Decide, LayerCovers, Gives, Passes, Open, Ordered;
    AllowedIff(w, chain, cross, r);
    forall k ensures GrantedBy(w, chain, cross, k, r) <==> Entitled(w, chain, cross, k, r) {
      if 0 <= k < |chain| {
        LayerIff(w, chain[k].granted, r);
        forall j | 0 <= j <= k ensures Passes(w, chain[j], r) <==> Open(w, chain[j], r) {
          OpenIff(w, chain[j], r);
        }
      }
    }
  }

  /** What is allowed was granted, to some set of the chain, under its own type; or as a file, when it is to read or
      to write one. */
  lemma GrantedUnderItsType(w: World, chain: seq<Limits>, cross: Decision.Answers, r: Capability)
    requires Ordered(w, chain) && Decide(w, chain, cross, r).Allowed?
    ensures exists k, g :: (0 <= k < |chain| && g in chain[k].granted
      && (g.ty == r.ty || (g.ty == File && (r.ty == FileRead || r.ty == FileWrite))))
  {
    hide Decide, Open, Ordered;
    AllowedExactly(w, chain, cross, r);
    var k :| Entitled(w, chain, cross, k, r);
    var g :| g in chain[k].granted && Answers(g.ty, r.ty) && Names(w, g, r);
  }

  /** A grant to read a folder lets nothing be written in it. */
  lemma ReadingIsNotWriting(w: World, folder: string, path: string)
    ensures var granted := Capability(FileRead, Some(folder));
      Decide(w, [Limits([granted], [], [], None, [])], [], Capability(FileWrite, Some(path))).Denied?
  {
    hide Decide;
    var chain := [Limits([Capability(FileRead, Some(folder))], [], [], None, [])];
    if Decide(w, chain, [], Capability(FileWrite, Some(path))).Allowed? {
      GrantedUnderItsType(w, chain, [], Capability(FileWrite, Some(path)));
    }
  }

  // ---------------------------------------------------------------------------------------------
  // What a refusal is blamed on
  // ---------------------------------------------------------------------------------------------

  /** Some set of the chain has it, or asked for it and was refused it by a limit. */
  predicate Declared(w: World, chain: seq<Limits>, r: Capability) {
    exists k :: 0 <= k < |chain| && (Gives(w, chain[k].granted, r) || Gives(w, chain[k].rejected, r))
  }

  lemma {:induction false} DeclaredIff(w: World, chain: seq<Limits>, r: Capability)
    ensures IsDeclared(w, chain, r) <==> Declared(w, chain, r)
  {
    hide LayerCovers, Gives;
    if chain != [] {
      DeclaredIff(w, chain[1..], r);
      LayerIff(w, chain[0].granted, r);
      LayerIff(w, chain[0].rejected, r);
      if k :| 0 <= k < |chain| && (Gives(w, chain[k].granted, r) || Gives(w, chain[k].rejected, r)) {
        assert k > 0 ==> chain[1..][k - 1] == chain[k];
      }
    }
  }

  predicate FirstToForbid(w: World, denied: seq<Capability>, r: Capability, i: int) {
    0 <= i < |denied| && Forbids(w, denied[i], r) && forall j :: 0 <= j < i ==> !Forbids(w, denied[j], r)
  }

  predicate FirstInTheWay(w: World, delegated: seq<Delegation>, r: Capability, i: int) {
    && 0 <= i < |delegated| && !LetsThrough(w, delegated[i], r)
    && forall j :: 0 <= j < i ==> LetsThrough(w, delegated[j], r)
  }

  /** What the requester's own set refuses it for: a denial before anything else, and the first one; for what was
      declared, its ceiling, and then the first delegated one in the way; an isolated folder last. */
  ghost predicate RefusedFor(w: World, chain: seq<Limits>, cross: Decision.Answers, r: Capability, cause: DenyCause)
    requires chain != []
  {
    var s := chain[0];
    var denied := exists d :: d in s.denied && Forbids(w, d, r);
    var above := Declared(w, chain, r) && s.ceiling.Some? && !Gives(w, s.ceiling.value, r);
    var over := Declared(w, chain, r) && exists d :: d in s.delegated && !LetsThrough(w, d, r);
    match cause
    case ExplicitlyDenied(d) => exists i :: FirstToForbid(w, s.denied, r, i) && s.denied[i] == d
    case AboveCeiling => above && !denied
    case Delegated(d) =>
      over && !denied && !above && exists i :: FirstInTheWay(w, s.delegated, r, i) && s.delegated[i] == d
    case Isolated(c) => 0 < |cross| && cross[0] == Some(c) && !denied && !above && !over
    case NoGrant => false
  }

  lemma {:induction false} ForbiddenFirst(w: World, denied: seq<Capability>, r: Capability) returns (i: int)
    ensures FirstDenial(w, denied, r).None? ==> forall d :: d in denied ==> !Forbids(w, d, r)
    ensures FirstDenial(w, denied, r).Some? ==>
      FirstToForbid(w, denied, r, i) && FirstDenial(w, denied, r) == Some(denied[i])
  {
    hide Denies, Forbids;
    i := 0;
    if denied != [] {
      DenialIff(w, denied[0], r);
      i := ForbiddenFirst(w, denied[1..], r);
      if !Denies(w, denied[0], r) {
        assert forall j :: 0 < j < |denied| ==> denied[1..][j - 1] == denied[j];
        i := i + 1;
      } else {
        i := 0;
      }
    }
  }

  lemma {:induction false} InTheWayFirst(w: World, delegated: seq<Delegation>, r: Capability) returns (i: int)
    ensures FirstRejecting(w, delegated, r).None? ==> forall d :: d in delegated ==> LetsThrough(w, d, r)
    ensures FirstRejecting(w, delegated, r).Some? ==>
      FirstInTheWay(w, delegated, r, i) && FirstRejecting(w, delegated, r) == Some(delegated[i])
  {
    hide DelegationCovers, LetsThrough;
    i := 0;
    if delegated != [] {
      DelegationIff(w, delegated[0], r);
      i := InTheWayFirst(w, delegated[1..], r);
      if DelegationCovers(w, delegated[0], r) {
        assert forall j :: 0 < j < |delegated| ==> delegated[1..][j - 1] == delegated[j];
        i := i + 1;
      } else {
        i := 0;
      }
    }
  }

  /** The first set refuses for that cause. When it has none and does not give the request either, the set above
      decides; but it can only allow, or blame a ceiling: for all else the requester hears that nobody granted it. */
  lemma BlamedInOrder(w: World, chain: seq<Limits>, cross: Decision.Answers, r: Capability)
    requires Ordered(w, chain) && chain != []
    ensures var outcome, above := Decide(w, chain, cross, r), Decide(w, chain[1..], Rest(cross), r);
      if exists cause :: RefusedFor(w, chain, cross, r, cause)
      then outcome.Denied? && RefusedFor(w, chain, cross, r, outcome.cause)
      else if Gives(w, chain[0].granted, r) then outcome == Allowed
      else outcome == if above.Denied? && !above.cause.AboveCeiling? && !above.cause.Delegated? then Denied(NoGrant)
                      else above
  {
    hide Denies, Forbids, DelegationCovers, LetsThrough, LayerCovers, Gives, SplitCovers, Covers, IsCapSet,
         IsDeclared, Declared;
    var s := chain[0];
    var i := ForbiddenFirst(w, s.denied, r);
    var j := InTheWayFirst(w, s.delegated, r);
    DeclaredIff(w, chain, r);
    if s.ceiling.Some? {
      LayerIff(w, s.ceiling.value, r);
    }
    FastLookupIsExact(w, s.granted, r);
    GivenHere(w, s.granted, r);
    var cause := if FirstDenial(w, s.denied, r).Some? then ExplicitlyDenied(s.denied[i])
                 else if s.ceiling.Some? && !WithinCeiling(w, s, r) && IsDeclared(w, chain, r) then AboveCeiling
                 else if FirstRejecting(w, s.delegated, r).Some? && IsDeclared(w, chain, r)
                 then Delegated(s.delegated[j])
                 else if First(cross).Some? then Isolated(First(cross).value)
                 else NoGrant;
    if cause != NoGrant {
      assert RefusedFor(w, chain, cross, r, cause);
    }
  }

  lemma GivenHere(w: World, granted: seq<Capability>, r: Capability)
    requires IsCapSet(w, granted)
    ensures FirstCovering(w, granted, r).Some? || SplitCovers(w, granted, r) <==> Gives(w, granted, r)
  {
    hide Covers, SplitCovers, IsCapSet, Gives;
    LayerIff(w, granted, r);
    FastLookupIsExact(w, granted, r);
  }

  // ---------------------------------------------------------------------------------------------
  // What travels to a child
  // ---------------------------------------------------------------------------------------------

  lemma {:induction false} AsCallerIff(w: World, delegated: seq<Delegation>, r: Capability)
    ensures (forall d :: d in AsCaller(delegated) ==> LetsThrough(w, d, r))
       <==> (forall d :: d in delegated ==> LetsThrough(w, d, r))
  {
    hide LetsThrough;
    if delegated != [] {
      var first := if delegated[0].source.Block? then delegated[0].(source := Caller) else delegated[0];
      AsCallerIff(w, delegated[1..], r);
      SourceIsNoLimit(w, delegated[0], r);
      assert delegated == [delegated[0]] + delegated[1..];
      assert AsCaller(delegated) == [first] + AsCaller(delegated[1..]);
    }
  }

  lemma SourceIsNoLimit(w: World, d: Delegation, r: Capability)
    ensures LetsThrough(w, d.(source := Caller), r) <==> LetsThrough(w, d, r)
  {
    hide Gives;
  }

  /** The layers of a caller ask of a transferable request what the caller asks, and no more: that its grants, taken
      together, its ceiling and its delegated ceilings give it. */
  lemma LayersAskTheSame(w: World, chain: seq<Limits>, r: Capability)
    requires chain != [] && !(r.ty.Stdout? || r.ty.Stdin? || r.ty.Time? || r.ty.Random?)
    ensures (forall d :: d in ChildLayers(chain) ==> LetsThrough(w, d, r)) <==>
      && Gives(w, GrantsOf(chain), r)
      && (chain[0].ceiling.Some? ==> Gives(w, chain[0].ceiling.value, r))
      && forall d :: d in chain[0].delegated ==> LetsThrough(w, d, r)
  {
    hide Gives, GrantsOf, LetsThrough, AsCaller;
    AsCallerIff(w, chain[0].delegated, r);
    CallerLayerIff(w, GrantsOf(chain), r);
    if chain[0].ceiling.Some? {
      CallerLayerIff(w, chain[0].ceiling.value, r);
    }
    assert CallerLayer(GrantsOf(chain)) in ChildLayers(chain);
    assert forall d :: d in AsCaller(chain[0].delegated) ==> d in ChildLayers(chain);
    assert chain[0].ceiling.Some? ==> CallerLayer(chain[0].ceiling.value) in ChildLayers(chain);
  }

  lemma CallerLayerIff(w: World, caps: seq<Capability>, r: Capability)
    requires !(r.ty.Stdout? || r.ty.Stdin? || r.ty.Time? || r.ty.Random?)
    ensures LetsThrough(w, CallerLayer(caps), r) <==> Gives(w, caps, r)
  {
    hide Gives;
  }

  // ---------------------------------------------------------------------------------------------
  // Private addresses
  // ---------------------------------------------------------------------------------------------

  /** Some `net` capability among them has a scope that names the address. */
  predicate NamesAddress(n: Net, caps: seq<Capability>, dest: string, ip: Address) {
    exists c :: c in caps && c.ty == CapType.Net && c.scope.Some? && n.names(c.scope.value, dest, ip)
  }

  lemma NetOnlyIff(n: Net, caps: seq<Capability>, dest: string, ip: Address)
    ensures AnyNames(n, NetOnly(caps), dest, ip) <==> NamesAddress(n, caps, dest, ip)
  {
  }

  /** Some set of the chain has such a grant; or such a denial. */
  predicate SomeGrantNames(n: Net, chain: seq<Limits>, dest: string, ip: Address) {
    exists k :: 0 <= k < |chain| && NamesAddress(n, chain[k].granted, dest, ip)
  }

  predicate SomeDenialNames(n: Net, chain: seq<Limits>, dest: string, ip: Address) {
    exists k :: 0 <= k < |chain| && NamesAddress(n, chain[k].denied, dest, ip)
  }

  lemma {:induction false} ChainNames(n: Net, chain: seq<Limits>, dest: string, ip: Address)
    ensures NamesAddress(n, GrantsOf(chain), dest, ip) <==> SomeGrantNames(n, chain, dest, ip)
    ensures NamesAddress(n, DenialsOf(chain), dest, ip) <==> SomeDenialNames(n, chain, dest, ip)
  {
    hide NamesAddress;
    if chain == [] {
      NoneNamed(n, dest, ip);
    } else {
      var rest := chain[1..];
      ChainNames(n, rest, dest, ip);
      NamesInEither(n, chain[0].granted, GrantsOf(rest), dest, ip);
      NamesInEither(n, chain[0].denied, DenialsOf(rest), dest, ip);
      assert forall k :: 0 <= k < |rest| ==> rest[k] == chain[k + 1];
      assert forall k :: 0 < k < |chain| ==> chain[k] == rest[k - 1];
    }
  }

  lemma NoneNamed(n: Net, dest: string, ip: Address)
    ensures !NamesAddress(n, [], dest, ip)
  {
  }

  lemma NamesInEither(n: Net, a: seq<Capability>, b: seq<Capability>, dest: string, ip: Address)
    ensures NamesAddress(n, a + b, dest, ip) <==> NamesAddress(n, a, dest, ip) || NamesAddress(n, b, dest, ip)
  {
  }

  predicate EveryLayerNamesAddress(n: Net, d: Delegation, dest: string, ip: Address) {
    NamesAddress(n, d.caps, dest, ip) && forall layer :: layer in d.earlier ==> NamesAddress(n, layer, dest, ip)
  }

  lemma {:induction false} NetLayersAre(layers: seq<seq<Capability>>)
    ensures forall l :: l in NetOfLayers(layers) ==> exists layer :: layer in layers && NetOnly(layer) == l
  {
    if layers != [] {
      NetLayersAre(layers[1..]);
      assert layers == [layers[0]] + layers[1..] && layers[0] in layers;
      forall l | l in NetOfLayers(layers) ensures exists layer :: layer in layers && NetOnly(layer) == l {
        if l != NetOnly(layers[0]) {
          assert l in NetOfLayers(layers[1..]);
          var layer :| layer in layers[1..] && NetOnly(layer) == l;
          assert layer in layers;
        }
      }
    }
  }

  lemma DelegatedNames(n: Net, d: Delegation, dest: string, ip: Address)
    ensures EveryLayerNames(n, NetOfDelegation(d), dest, ip) <==> EveryLayerNamesAddress(n, d, dest, ip)
  {
    hide AnyNames, NamesAddress, NetOnly;
    var e := NetOfDelegation(d);
    NetLayersAre(d.earlier);
    forall caps ensures AnyNames(n, NetOnly(caps), dest, ip) <==> NamesAddress(n, caps, dest, ip) {
      NetOnlyIff(n, caps, dest, ip);
    }
    assert NetOnly(d.caps) in Layers(e) && forall layer :: layer in d.earlier ==> NetOnly(layer) in Layers(e);
  }

  /** A program may connect to an address exactly when no denial of its chain names it and it is public, or some grant
      of the chain, its ceiling and every layer of every delegated ceiling name it. */
  lemma AdmittedExactly(n: Net, chain: seq<Limits>, dest: string, ip: Address)
    requires chain != []
    ensures Admits(n, NetLayersOf(chain), dest, ip).Allowed? <==>
      && !SomeDenialNames(n, chain, dest, ip)
      && (n.isPublic(ip)
          || (&& SomeGrantNames(n, chain, dest, ip)
              && (chain[0].ceiling.Some? ==> NamesAddress(n, chain[0].ceiling.value, dest, ip))
              && forall d :: d in chain[0].delegated ==> EveryLayerNamesAddress(n, d, dest, ip)))
  {
    hide AnyNames, NamesAddress, NetOnly, EveryLayerNames, EveryLayerNamesAddress, GrantsOf, DenialsOf;
    ChainNames(n, chain, dest, ip);
    NetOnlyIff(n, GrantsOf(chain), dest, ip);
    NetOnlyIff(n, DenialsOf(chain), dest, ip);
    if chain[0].ceiling.Some? {
      NetOnlyIff(n, chain[0].ceiling.value, dest, ip);
    }
    forall d ensures EveryLayerNames(n, NetOfDelegation(d), dest, ip) <==> EveryLayerNamesAddress(n, d, dest, ip) {
      DelegatedNames(n, d, dest, ip);
    }
  }

  /** What the refusal is blamed on: a denial before all else, the ceiling before the delegated ones, and the missing
      grant last. */
  lemma AdmissionBlamedInOrder(n: Net, chain: seq<Limits>, dest: string, ip: Address)
    requires chain != [] && Admits(n, NetLayersOf(chain), dest, ip).Denied?
    ensures var ceiling := chain[0].ceiling;
      match Admits(n, NetLayersOf(chain), dest, ip).cause
      case ExplicitlyDenied(d) =>
        && (exists k :: 0 <= k < |chain| && d in chain[k].denied)
        && d.ty == CapType.Net && d.scope.Some? && n.names(d.scope.value, dest, ip)
      case AboveCeiling =>
        && !SomeDenialNames(n, chain, dest, ip) && !n.isPublic(ip)
        && ceiling.Some? && !NamesAddress(n, ceiling.value, dest, ip)
      case Delegated(_) =>
        && !SomeDenialNames(n, chain, dest, ip) && !n.isPublic(ip)
        && (ceiling.Some? ==> NamesAddress(n, ceiling.value, dest, ip))
        && !(forall d :: d in chain[0].delegated ==> EveryLayerNamesAddress(n, d, dest, ip))
      case NoGrant => !n.isPublic(ip) && !SomeGrantNames(n, chain, dest, ip)
      case Isolated(_) => false
  {
    hide AnyNames, NamesAddress, NetOnly, EveryLayerNames, EveryLayerNamesAddress, GrantsOf, DenialsOf;
    ChainNames(n, chain, dest, ip);
    NetOnlyIff(n, GrantsOf(chain), dest, ip);
    NetOnlyIff(n, DenialsOf(chain), dest, ip);
    if chain[0].ceiling.Some? {
      NetOnlyIff(n, chain[0].ceiling.value, dest, ip);
    }
    forall d ensures EveryLayerNames(n, NetOfDelegation(d), dest, ip) <==> EveryLayerNamesAddress(n, d, dest, ip) {
      DelegatedNames(n, d, dest, ip);
    }
    FirstIsThere(n, NetOnly(DenialsOf(chain)), dest, ip);
    IsNet(DenialsOf(chain));
    DenialsAre(chain);
  }

  lemma {:induction false} DenialsAre(chain: seq<Limits>)
    ensures forall c :: c in DenialsOf(chain) ==> exists k :: 0 <= k < |chain| && c in chain[k].denied
  {
    if chain != [] {
      DenialsAre(chain[1..]);
      forall c | c in DenialsOf(chain) ensures exists k :: 0 <= k < |chain| && c in chain[k].denied {
        if c !in chain[0].denied {
          assert c in DenialsOf(chain[1..]);
          var k :| 0 <= k < |chain[1..]| && c in chain[1..][k].denied;
          assert c in chain[k + 1].denied;
        }
      }
    }
  }

  lemma {:induction false} FirstIsThere(n: Net, caps: seq<Capability>, dest: string, ip: Address)
    ensures var found := FirstNaming(n, caps, dest, ip);
      found.Some? ==> found.value in caps && Narrowing.Names(n, found.value, dest, ip)
  {
    hide Narrowing.Names;
    if caps != [] {
      FirstIsThere(n, caps[1..], dest, ip);
    }
  }

  lemma {:induction false} IsNet(caps: seq<Capability>)
    ensures forall c :: c in NetOnly(caps) ==> c in caps && c.ty.Net?
  {
    if caps != [] {
      IsNet(caps[1..]);
    }
  }

  /** A program with no grants connects to no private address. */
  lemma NoGrantNoPrivateAddress(n: Net, dest: string, ip: Address)
    requires !n.isPublic(ip)
    ensures Admits(n, NetLayersOf([Limits([], [], [], None, [])]), dest, ip).Denied?
  {
    hide Admits, NetLayersOf;
    AdmittedExactly(n, [Limits([], [], [], None, [])], dest, ip);
  }

  // ---------------------------------------------------------------------------------------------
  // Which grant is named
  // ---------------------------------------------------------------------------------------------

  /** The grant `g` stands for no more than `h`: for a model or a judge, public data only before private; for every
      other type a scope before none; a scope without wildcards before a pattern; a longer one before a shorter. */
  predicate NoWider(w: World, g: Capability, h: Capability) {
    match (g.scope, h.scope)
    case (None, None) => true
    case (None, Some(_)) => g.ty.Llm? || g.ty.Judge?
    case (Some(_), None) => !(h.ty.Llm? || h.ty.Judge?)
    case (Some(s), Some(t)) =>
      if w.plain(g.ty, s) == w.plain(h.ty, t) then w.literals(g.ty, s) >= w.literals(h.ty, t) else w.plain(g.ty, s)
  }

  /** Of all grants that give a request alone, the one that is named, and audited, is no wider than any other; and of
      those as narrow, one to read or to write comes before one for both. */
  lemma NarrowestIsNamed(w: World, s: seq<Capability>, r: Capability, h: Capability)
    requires IsCapSet(w, s) && h in s && Covers(w, h, r)
    ensures FirstCovering(w, s, r).Some? && NoWider(w, FirstCovering(w, s, r).value, h)
    ensures h.ty == r.ty && NoWider(w, h, FirstCovering(w, s, r).value) ==> FirstCovering(w, s, r).value.ty == r.ty
  {
    hide Covers, FirstCovering, IsCapSet, CmpText;
    FastLookupIsExact(w, s, r);
    FoundComesFirst(w, s, r, h);
    var g := FirstCovering(w, s, r).value;
    assert g == h || Cmp(w, g, h) == Less;
    FirstAnswers(w, s, r);
  }

  lemma {:induction false} FirstAnswers(w: World, s: seq<Capability>, r: Capability)
    ensures FirstThat(w, s, r).Some? ==> Answers(FirstThat(w, s, r).value.ty, r.ty)
  {
    if s != [] {
      FirstAnswers(w, s[1..], r);
    }
  }
}
