/**
 The decision of a capability set: its denials, the host's ceiling, the delegated ceilings, its grants, and
 then its parent.
 */
module Decision {
  import opened Wrappers
  import opened Capability
  import Walk

  datatype Source = Token(id: string) | Block | Caller

  /** A delegated ceiling: the last block, the blocks before it, where it comes from. */
  datatype Delegation = Delegation(caps: seq<Capability>, earlier: seq<seq<Capability>>, source: Source,
    deterministic: bool)

  /** What one set holds. Grants and denials are in canonical order. */
  datatype Limits = Limits(
    granted: seq<Capability>,
    denied: seq<Capability>,
    rejected: seq<Capability>,
    ceiling: Option<seq<Capability>>,
    delegated: seq<Delegation>)

  datatype DenyCause =
    | ExplicitlyDenied(denial: Capability)
    | AboveCeiling
    | Delegated(over: Delegation)
    | Isolated(crossing: Walk.Crossing)
    | NoGrant

  datatype Outcome = Allowed | Denied(cause: DenyCause)

  function Layers(d: Delegation): seq<seq<Capability>> {
    d.earlier + [d.caps]
  }

  predicate DelegationCovers(w: World, d: Delegation, r: Capability) {
    if IsProcessLocal(r.ty) then !(d.deterministic && (r.ty.Time? || r.ty.Random?))
    else forall layer :: layer in Layers(d) ==> LayerCovers(w, layer, r)
  }

  predicate Denies(w: World, d: Capability, r: Capability) {
    CoversByName(w, d, r) || ReachesPhysically(w, d, r)
  }

  function FirstDenial(w: World, denied: seq<Capability>, r: Capability): Option<Capability> {
    if denied == [] then None
    else if Denies(w, denied[0], r) then Some(denied[0])
    else FirstDenial(w, denied[1..], r)
  }

  predicate WithinCeiling(w: World, s: Limits, r: Capability) {
    s.ceiling.None? || LayerCovers(w, s.ceiling.value, r)
  }

  function FirstRejecting(w: World, delegated: seq<Delegation>, r: Capability): Option<Delegation> {
    if delegated == [] then None
    else if !DelegationCovers(w, delegated[0], r) then Some(delegated[0])
    else FirstRejecting(w, delegated[1..], r)
  }

  /** Some set of the chain was granted it, or asked for it and was refused by a limit. */
  predicate IsDeclared(w: World, chain: seq<Limits>, r: Capability) {
    chain != [] &&
    (LayerCovers(w, chain[0].granted, r) || LayerCovers(w, chain[0].rejected, r) || IsDeclared(w, chain[1..], r))
  }

  /** What the isolated folders say each time a set of the chain asks, the requester first; past the end, that
      nothing is in the way. */
  type Answers = seq<Option<Walk.Crossing>>

  function First(cross: Answers): Option<Walk.Crossing> {
    if cross == [] then None else cross[0]
  }

  function Rest(cross: Answers): Answers {
    if cross == [] then [] else cross[1..]
  }

  /** Nothing was in the way of the first sets, up to the `k`-th. */
  predicate Clear(cross: Answers, k: int) {
    forall j :: 0 <= j <= k && j < |cross| ==> cross[j].None?
  }

  /** The decision of the first set of a chain of parents; each set asks the isolated folders again. */
  function Decide(w: World, chain: seq<Limits>, cross: Answers, r: Capability): Outcome {
    if chain == [] then Denied(NoGrant)
    else
      var s := chain[0];
      var denial, rejecting := FirstDenial(w, s.denied, r), FirstRejecting(w, s.delegated, r);
      if denial.Some? then Denied(ExplicitlyDenied(denial.value))
      else if s.ceiling.Some? && !WithinCeiling(w, s, r) && IsDeclared(w, chain, r) then Denied(AboveCeiling)
      else if rejecting.Some? && IsDeclared(w, chain, r) then Denied(Delegated(rejecting.value))
      else if First(cross).Some? then Denied(Isolated(First(cross).value))
      else if FirstCovering(w, s.granted, r).Some? || SplitCovers(w, s.granted, r) then Allowed
      else
        var above := Decide(w, chain[1..], Rest(cross), r);
        if above.Allowed? || above.cause.AboveCeiling? || above.cause.Delegated? then above else Denied(NoGrant)
  }

  // ---------------------------------------------------------------------------------------------
  // Exactly when a request is allowed
  // ---------------------------------------------------------------------------------------------

  /** Every limit of the set covers it. */
  predicate Admitted(w: World, s: Limits, c: Capability) {
    WithinCeiling(w, s, c) && forall d :: d in s.delegated ==> DelegationCovers(w, d, c)
  }

  predicate NotDenied(w: World, s: Limits, r: Capability) {
    forall d :: d in s.denied ==> !Denies(w, d, r)
  }

  /** Nothing in the set stands against the request. */
  predicate Passes(w: World, s: Limits, r: Capability) {
    NotDenied(w, s, r) && Admitted(w, s, r)
  }

  /** The `k`-th set's own grants cover the request, and from the requester up to it no set stands against it and
      no isolated folder is in its way. */
  predicate GrantedBy(w: World, chain: seq<Limits>, cross: Answers, k: int, r: Capability) {
    && 0 <= k < |chain| && LayerCovers(w, chain[k].granted, r) && Clear(cross, k)
    && forall j :: 0 <= j <= k ==> Passes(w, chain[j], r)
  }

  ghost predicate Ordered(w: World, chain: seq<Limits>) {
    forall i :: 0 <= i < |chain| ==> IsCapSet(w, chain[i].granted)
  }

  lemma {:induction false} NoDenial(w: World, denied: seq<Capability>, r: Capability)
    ensures FirstDenial(w, denied, r).None? <==> forall d :: d in denied ==> !Denies(w, d, r)
    ensures FirstDenial(w, denied, r).Some? ==>
      FirstDenial(w, denied, r).value in denied && Denies(w, FirstDenial(w, denied, r).value, r)
  {
    hide Denies;
    if denied != [] {
      NoDenial(w, denied[1..], r);
      assert denied == [denied[0]] + denied[1..];
    }
  }

  lemma {:induction false} NoneRejecting(w: World, delegated: seq<Delegation>, r: Capability)
    ensures FirstRejecting(w, delegated, r).None? <==> forall d :: d in delegated ==> DelegationCovers(w, d, r)
    ensures FirstRejecting(w, delegated, r).Some? ==>
      FirstRejecting(w, delegated, r).value in delegated
        && !DelegationCovers(w, FirstRejecting(w, delegated, r).value, r)
  {
    hide DelegationCovers;
    if delegated != [] {
      NoneRejecting(w, delegated[1..], r);
      assert delegated == [delegated[0]] + delegated[1..];
    }
  }

  lemma {:induction false} GrantedIsDeclared(w: World, chain: seq<Limits>, k: nat, r: Capability)
    requires k < |chain| && LayerCovers(w, chain[k].granted, r)
    ensures IsDeclared(w, chain, r)
  {
    if k > 0 {
      GrantedIsDeclared(w, chain[1..], k - 1, r);
    }
  }

  /** A set passes what comes before its grants, or nothing above it was declared. */
  lemma FirstSet(w: World, chain: seq<Limits>, cross: Answers, r: Capability)
    requires Ordered(w, chain) && chain != [] && IsDeclared(w, chain, r)
    ensures Decide(w, chain, cross, r).Allowed? <==>
      && Passes(w, chain[0], r) && First(cross).None?
      && (LayerCovers(w, chain[0].granted, r) || Decide(w, chain[1..], Rest(cross), r).Allowed?)
  {
    hide Denies, DelegationCovers, Covers, SplitCovers, IsCapSet;
    NoDenial(w, chain[0].denied, r);
    NoneRejecting(w, chain[0].delegated, r);
    FastLookupIsExact(w, chain[0].granted, r);
  }

  lemma GrantedByFirst(w: World, chain: seq<Limits>, cross: Answers, r: Capability)
    requires chain != [] && Passes(w, chain[0], r) && First(cross).None?
    ensures (exists k :: GrantedBy(w, chain, cross, k, r)) <==>
      LayerCovers(w, chain[0].granted, r) || exists k :: GrantedBy(w, chain[1..], Rest(cross), k, r)
  {
    hide Passes, LayerCovers, Clear;
    var rest := chain[1..];
    if k :| GrantedBy(w, chain, cross, k, r) {
      if k > 0 {
        forall j | 0 <= j <= k - 1 ensures Passes(w, rest[j], r) {
          assert rest[j] == chain[j + 1];
        }
        ClearRest(cross, k - 1);
        assert GrantedBy(w, rest, Rest(cross), k - 1, r);
      }
    }
    if k :| GrantedBy(w, rest, Rest(cross), k, r) {
      forall j | 0 <= j <= k + 1 ensures Passes(w, chain[j], r) {
        assert j > 0 ==> rest[j - 1] == chain[j];
      }
      ClearRest(cross, k);
      assert GrantedBy(w, chain, cross, k + 1, r);
    }
    if LayerCovers(w, chain[0].granted, r) {
      ClearRest(cross, -1);
      assert GrantedBy(w, chain, cross, 0, r);
    }
  }

  lemma ClearRest(cross: Answers, k: int)
    requires First(cross).None? && k >= -1
    ensures Clear(cross, k + 1) <==> Clear(Rest(cross), k)
    ensures Clear(cross, 0)
  {
    if Clear(Rest(cross), k) {
      forall j | 0 <= j <= k + 1 && j < |cross| ensures cross[j].None? {
        assert j > 0 ==> Rest(cross)[j - 1] == cross[j];
      }
    }
  }

  lemma {:induction false} UndeclaredIsDenied(w: World, chain: seq<Limits>, cross: Answers, r: Capability)
    requires Ordered(w, chain) && !IsDeclared(w, chain, r)
    ensures Decide(w, chain, cross, r).Denied?
    ensures !Decide(w, chain, cross, r).cause.AboveCeiling? && !Decide(w, chain, cross, r).cause.Delegated?
  {
    hide IsCapSet, Covers, SplitCovers, Denies, DelegationCovers;
    if chain != [] {
      UndeclaredIsDenied(w, chain[1..], Rest(cross), r);
      FastLookupIsExact(w, chain[0].granted, r);
    }
  }

  /** A request is allowed exactly when some set of the parent chain was granted it, while no set from the
      requester up to that one denies it or found an isolated folder in its way, and each of them has it within
      its host ceiling and within every layer of every delegated ceiling, although the ceilings are only consulted
      for what is declared. */
  lemma {:induction false} AllowedIff(w: World, chain: seq<Limits>, cross: Answers, r: Capability)
    requires Ordered(w, chain)
    ensures Decide(w, chain, cross, r).Allowed? <==> exists k :: GrantedBy(w, chain, cross, k, r)
  {
    hide Decide, Passes, LayerCovers, IsDeclared, Ordered;
    if chain == [] {
      NothingAllowed(w, cross, r);
    } else if !IsDeclared(w, chain, r) {
      UndeclaredIsDenied(w, chain, cross, r);
      forall k ensures !GrantedBy(w, chain, cross, k, r) {
        if 0 <= k < |chain| && LayerCovers(w, chain[k].granted, r) {
          GrantedIsDeclared(w, chain, k, r);
        }
      }
    } else {
      FirstSet(w, chain, cross, r);
      OrderedRest(w, chain);
      AllowedIff(w, chain[1..], Rest(cross), r);
      if Passes(w, chain[0], r) && First(cross).None? {
        GrantedByFirst(w, chain, cross, r);
      } else {
        forall k ensures !GrantedBy(w, chain, cross, k, r) {
          FirstStands(w, chain, cross, k, r);
        }
      }
    }
  }

  /** What stands in the way of the first set stands in the way of every grant. */
  lemma FirstStands(w: World, chain: seq<Limits>, cross: Answers, k: int, r: Capability)
    requires chain != [] && !(Passes(w, chain[0], r) && First(cross).None?)
    ensures !GrantedBy(w, chain, cross, k, r)
  {
    hide Passes, LayerCovers;
  }

  lemma OrderedRest(w: World, chain: seq<Limits>)
    requires Ordered(w, chain) && chain != []
    ensures Ordered(w, chain[1..])
  {
  }

  lemma NothingAllowed(w: World, cross: Answers, r: Capability)
    ensures Decide(w, [], cross, r).Denied?
  {
  }

  /** A refusal is blamed on the host's ceiling or on a delegated one only when the program declared what it
      asks for and a set of the chain has it above that ceiling. */
  lemma {:induction false} BlameIsRight(w: World, chain: seq<Limits>, cross: Answers, r: Capability)
    requires Ordered(w, chain) && Decide(w, chain, cross, r).Denied?
    ensures var cause := Decide(w, chain, cross, r).cause;
      && (cause.AboveCeiling? ==> IsDeclared(w, chain, r))
      && (cause.AboveCeiling? ==> exists k :: 0 <= k < |chain| && !WithinCeiling(w, chain[k], r))
      && (cause.Delegated? ==> IsDeclared(w, chain, r) && !DelegationCovers(w, cause.over, r))
      && (cause.Delegated? ==> exists k :: 0 <= k < |chain| && cause.over in chain[k].delegated)
      && (cause.ExplicitlyDenied? ==> Denies(w, cause.denial, r))
      && (cause.ExplicitlyDenied? ==> exists k :: 0 <= k < |chain| && cause.denial in chain[k].denied)
  {
    hide IsCapSet, LayerCovers, SplitCovers, Covers, Denies, DelegationCovers, WithinCeiling;
    if chain != [] {
      NoDenial(w, chain[0].denied, r);
      NoneRejecting(w, chain[0].delegated, r);
      if Decide(w, chain[1..], Rest(cross), r).Denied? {
        var cause := Decide(w, chain[1..], Rest(cross), r).cause;
        BlameIsRight(w, chain[1..], Rest(cross), r);
        assert forall k :: 0 <= k < |chain[1..]| ==> chain[1..][k] == chain[k + 1];
      }
    }
  }

  // ---------------------------------------------------------------------------------------------
  // Granting
  // ---------------------------------------------------------------------------------------------

  function Granting(w: World, s: Limits, c: Capability, byProgram: bool): Limits {
    if WithinCeiling(w, s, c) && FirstRejecting(w, s.delegated, c).None? then s.(granted := Insert(w, s.granted, c))
    else if byProgram then s.(rejected := s.rejected + [c])
    else s
  }

  /** A grant enters exactly when every limit covers it; the grants stay in order and nothing else enters. */
  lemma GrantEnters(w: World, s: Limits, c: Capability, byProgram: bool)
    requires IsCapSet(w, s.granted)
    ensures var t := Granting(w, s, c, byProgram);
      && IsCapSet(w, t.granted)
      && (t.denied, t.ceiling, t.delegated) == (s.denied, s.ceiling, s.delegated)
      && forall x :: x in t.granted <==> x in s.granted || (x == c && Admitted(w, s, c))
  {
    hide IsCapSet, WithinCeiling, DelegationCovers;
    InsertKeepsOrder(w, s.granted, c);
    NoneRejecting(w, s.delegated, c);
  }

  /** What a program asked for and a limit refused is then refused for that limit, not as a missing grant. */
  lemma RefusedForTheLimit(w: World, s: Limits, above: seq<Limits>, cross: Answers, c: Capability)
    requires Covers(w, c, c) && NotDenied(w, s, c)
    requires !Admitted(w, s, c)
    ensures var outcome := Decide(w, [Granting(w, s, c, true)] + above, cross, c);
      outcome.Denied? && (outcome.cause.AboveCeiling? || outcome.cause.Delegated?)
  {
    hide Covers, Denies, DelegationCovers;
    var t := Granting(w, s, c, true);
    NoneRejecting(w, s.delegated, c);
    NoDenial(w, s.denied, c);
    assert c in t.rejected;
    assert IsDeclared(w, [t] + above, c);
  }
}

/** The set as the source keeps it: an object with its limits and a shared parent. */
module CapabilitySets {
  import opened Wrappers
  import opened Capability
  import opened Decision
  import opened Narrowing
  import Walk

  class CapabilitySet {
    var granted: seq<Capability>
    var denied: seq<Capability>
    var rejected: seq<Capability>
    var ceiling: Option<seq<Capability>>
    var delegated: seq<Delegation>
    var parent: CapabilitySet?
    ghost var ancestors: seq<CapabilitySet>

    ghost predicate Valid(w: World)
      reads this, ancestors
      decreases |ancestors|
    {
      && this !in ancestors
      && IsCapSet(w, granted) && IsCapSet(w, denied)
      && if parent == null then ancestors == []
         else ancestors != [] && ancestors[0] == parent && parent.ancestors == ancestors[1..] && parent.Valid(w)
    }

    function Own(): Limits
      reads this
    {
      Limits(granted, denied, rejected, ceiling, delegated)
    }

    /** The set and its parents, nearest first. */
    ghost function Chain(w: World): (c: seq<Limits>)
      requires Valid(w)
      reads this, ancestors
      ensures Ordered(w, c) && c != [] && c[0] == Own()
      decreases |ancestors|
    {
      [Own()] + if parent == null then [] else parent.Chain(w)
    }

    ghost function Above(w: World): seq<Limits>
      requires Valid(w)
      reads this, ancestors
    {
      if parent == null then [] else parent.Chain(w)
    }

    constructor (w: World, parent: CapabilitySet?, ceiling: Option<seq<Capability>>, delegated: seq<Delegation>)
      requires parent != null ==> parent.Valid(w)
      ensures Valid(w) && Own() == Limits([], [], [], ceiling, delegated)
      ensures Above(w) == if parent == null then [] else parent.Chain(w)
    {
      this.granted, this.denied, this.rejected := [], [], [];
      this.ceiling, this.delegated, this.parent := ceiling, delegated, parent;
      ancestors := if parent == null then [] else [parent] + parent.ancestors;
    }

    /** `grant_from`: a grant of the program, or one of the runtime. */
    method Grant(w: World, c: Capability, byProgram: bool)
      requires Valid(w)
      modifies this
      ensures Valid(w) && Above(w) == old(Above(w))
      ensures Own() == Granting(w, old(Own()), c, byProgram)
    {
      InsertKeepsOrder(w, granted, c);
      if !WithinCeiling(w, Own(), c) {
        if byProgram {
          rejected := rejected + [c];
        }
        return;
      }
      if FirstRejecting(w, delegated, c).Some? {
        if byProgram {
          rejected := rejected + [c];
        }
        return;
      }
      granted := Insert(w, granted, c);
    }

    method Deny(w: World, c: Capability)
      requires Valid(w)
      modifies this
      ensures Valid(w) && Above(w) == old(Above(w))
      ensures Own() == old(Own()).(denied := Insert(w, old(denied), c))
    {
      InsertKeepsOrder(w, denied, c);
      denied := Insert(w, denied, c);
    }

    method PushDelegation(w: World, d: Delegation)
      requires Valid(w)
      modifies this
      ensures Valid(w) && Above(w) == old(Above(w))
      ensures Own() == old(Own()).(delegated := old(delegated) + [d])
    {
      delegated := delegated + [d];
    }

    method PopDelegation(w: World) returns (d: Option<Delegation>)
      requires Valid(w)
      modifies this
      ensures Valid(w) && Above(w) == old(Above(w))
      ensures old(delegated) == [] ==> d.None? && Own() == old(Own())
      ensures old(delegated) != [] ==> d.Some? && old(delegated) == delegated + [d.value]
      ensures Own() == old(Own()).(delegated := delegated)
    {
      if delegated == [] {
        return None;
      }
      d := Some(delegated[|delegated| - 1]);
      delegated := delegated[..|delegated| - 1];
    }

    /** `is_declared`. */
    method Declared(w: World, r: Capability) returns (yes: bool)
      requires Valid(w)
      ensures yes == IsDeclared(w, Chain(w), r)
      decreases |ancestors|
    {
      if AnyCovers(w, granted, r) || AnyCovers(w, rejected, r) || SplitCovers(w, granted, r)
        || SplitCovers(w, rejected, r) {
        return true;
      }
      ghost var chain := Chain(w);
      if parent == null {
        assert chain[1..] == [];
        return false;
      }
      assert chain[1..] == parent.Chain(w);
      yes := parent.Declared(w, r);
    }

    /** The grants of the set and of each parent in turn. */
    method AllGrants(w: World) returns (grants: seq<Capability>)
      requires Valid(w)
      ensures grants == GrantsOf(Chain(w))
    {
      hide IsCapSet;
      grants := granted;
      var next := parent;
      ghost var k := 0;
      while next != null
        invariant next != null ==>
          k < |ancestors| && next == ancestors[k] && next.ancestors == ancestors[k + 1..] && next.Valid(w)
        invariant grants + (if next == null then [] else GrantsOf(next.Chain(w))) == GrantsOf(Chain(w))
        decreases if next == null then 0 else |next.ancestors| + 1
      {
        grants := grants + next.granted;
        next := next.parent;
        k := k + 1;
      }
    }

    /** `layers_for_child`. */
    method LayersForChild(w: World) returns (layers: seq<Delegation>)
      requires Valid(w)
      ensures layers == ChildLayers(Chain(w))
    {
      hide IsCapSet, GrantsOf;
      var grants := AllGrants(w);
      layers := [CallerLayer(grants)];
      if ceiling.Some? {
        layers := layers + [CallerLayer(ceiling.value)];
      }
      var inherited := CallerLayers(delegated);
      layers := layers + inherited;
    }

    /** `check_inner`: changes nothing, and decides what the specification says. */
    method Check(w: World, cross: Answers, r: Capability) returns (outcome: Outcome)
      requires Valid(w)
      ensures outcome == Decide(w, Chain(w), cross, r)
      ensures outcome.Allowed? <==> exists k :: GrantedBy(w, Chain(w), cross, k, r)
      decreases |ancestors|
    {
      hide LayerCovers, SplitCovers, DelegationCovers, Denies, GrantedBy, IsCapSet;
      AllowedIff(w, Chain(w), cross, r);
      ghost var chain := Chain(w);
      var denial := FirstDenial(w, denied, r);
      if denial.Some? {
        return Denied(ExplicitlyDenied(denial.value));
      }
      var declared := Declared(w, r);
      if ceiling.Some? && !WithinCeiling(w, Own(), r) && declared {
        return Denied(AboveCeiling);
      }
      var rejecting := FirstRejecting(w, delegated, r);
      if rejecting.Some? && declared {
        return Denied(Delegated(rejecting.value));
      }
      if First(cross).Some? {
        return Denied(Isolated(First(cross).value));
      }
      if FirstCovering(w, granted, r).Some? || SplitCovers(w, granted, r) {
        return Allowed;
      }
      if parent != null {
        assert chain[1..] == parent.Chain(w);
        var above := parent.Check(w, Rest(cross), r);
        if above.Allowed? || above.cause.AboveCeiling? || above.cause.Delegated? {
          return above;
        }
      } else {
        assert chain[1..] == [];
      }
      outcome := Denied(NoGrant);
    }
  }
}
