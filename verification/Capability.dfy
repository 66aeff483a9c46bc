/**
 Capabilities: what one covers, the canonical order of a set, and the fast lookup of the first capability that
 covers a request.
 */
module Capability {
  import opened Wrappers

  /** In the order of declaration, which breaks ties. */
  datatype CapType =
    | Net | FileRead | FileWrite | File | Exec | Env | Time | Random | Stdout | Stdin | Llm | Judge | Db | Serve
    | Secret | Reveal | Sign | Wallet | Spend | Memory | SandboxRun | Attest | Declassify

  datatype Capability = Capability(ty: CapType, scope: Option<string>)

  /** What is decided elsewhere: how two scopes of a type compare by name (globs, hosts, bindings), which scopes
      are database addresses, where paths lead on disk, and how a scope's text is weighed. */
  datatype World = World(
    matches: (CapType, string, string) -> bool,
    isUrl: string -> bool,
    within: (string, string) -> bool,
    reaches: (string, string) -> bool,
    plain: (CapType, string) -> bool,
    literals: (CapType, string) -> nat)

  function Index(t: CapType): nat {
    match t
    case Net => 0 case FileRead => 1 case FileWrite => 2 case File => 3 case Exec => 4 case Env => 5
    case Time => 6 case Random => 7 case Stdout => 8 case Stdin => 9 case Llm => 10 case Judge => 11
    case Db => 12 case Serve => 13 case Secret => 14 case Reveal => 15 case Sign => 16 case Wallet => 17
    case Spend => 18 case Memory => 19 case SandboxRun => 20 case Attest => 21 case Declassify => 22
  }

  predicate IsProcessLocal(t: CapType) {
    t in {Stdout, Stdin, Time, Random}
  }

  /** The types that can cover each other. */
  function Family(t: CapType): CapType {
    if t.FileRead? || t.FileWrite? then File else t
  }

  predicate ScopedCoversUnscoped(t: CapType) {
    t.Llm? || t.Judge?
  }

  // ---------------------------------------------------------------------------------------------
  // What a capability covers
  // ---------------------------------------------------------------------------------------------

  predicate TypeCovers(g: CapType, r: CapType) {
    g == r || (g.File? && (r.FileRead? || r.FileWrite?))
  }

  predicate CoversByName(w: World, g: Capability, r: Capability) {
    && TypeCovers(g.ty, r.ty)
    && if ScopedCoversUnscoped(g.ty) then
         r.scope.None? || (g.scope.Some? && w.matches(g.ty, g.scope.value, r.scope.value))
       else
         g.scope.None? || (r.scope.Some? && w.matches(g.ty, g.scope.value, r.scope.value))
  }

  predicate IsPathType(t: CapType) {
    t.File? || t.FileRead? || t.FileWrite? || t.Db?
  }

  predicate IsDbUrl(w: World, c: Capability) {
    c.ty.Db? && c.scope.Some? && w.isUrl(c.scope.value)
  }

  /** Both scopes are paths on disk. */
  predicate PhysicalPair(w: World, g: Capability, r: Capability) {
    IsPathType(g.ty) && IsPathType(r.ty) && !IsDbUrl(w, g) && !IsDbUrl(w, r)
  }

  predicate Covers(w: World, g: Capability, r: Capability) {
    && CoversByName(w, g, r)
    && (PhysicalPair(w, g, r) && g.scope.Some? && r.scope.Some? ==> w.within(g.scope.value, r.scope.value))
  }

  /** For a deny: the path leads on disk to what the scope names. */
  predicate ReachesPhysically(w: World, d: Capability, r: Capability) {
    && TypeCovers(d.ty, r.ty)
    && PhysicalPair(w, d, r) && d.scope.Some? && r.scope.Some? && w.reaches(d.scope.value, r.scope.value)
  }

  predicate CoversPhysically(w: World, g: Capability, r: Capability) {
    && TypeCovers(g.ty, r.ty) && PhysicalPair(w, g, r)
    && (g.scope.None? || (r.scope.Some? && w.within(g.scope.value, r.scope.value)))
  }

  predicate AnyCovers(w: World, layer: seq<Capability>, r: Capability) {
    exists g :: g in layer && Covers(w, g, r)
  }

  /** One capability covers the path by name and one, perhaps another, covers where it leads. */
  predicate SplitCovers(w: World, layer: seq<Capability>, r: Capability) {
    && (exists g :: g in layer && PhysicalPair(w, g, r) && CoversByName(w, g, r))
    && (exists g :: g in layer && CoversPhysically(w, g, r))
  }

  predicate LayerCovers(w: World, layer: seq<Capability>, r: Capability) {
    AnyCovers(w, layer, r) || SplitCovers(w, layer, r)
  }

  // ---------------------------------------------------------------------------------------------
  // The canonical order
  // ---------------------------------------------------------------------------------------------

  /** How little a capability covers, most specific first when sorted downwards. */
  datatype Key = Key(rank: nat, plain: bool, literals: nat)

  function Specificity(w: World, c: Capability): Key {
    match c.scope
    case None => Key(if ScopedCoversUnscoped(c.ty) then 2 else 0, true, 0)
    case Some(s) => Key(1, w.plain(c.ty, s), w.literals(c.ty, s))
  }

  datatype Ordering = Less | Equal | Greater {
    function Then(next: Ordering): Ordering {
      if Equal? then next else this
    }

    function Reverse(): Ordering {
      match this
      case Less => Greater
      case Equal => Equal
      case Greater => Less
    }
  }

  function CmpInt(a: int, b: int): Ordering {
    if a < b then Less else if a == b then Equal else Greater
  }

  function CmpBool(a: bool, b: bool): Ordering {
    if a == b then Equal else if b then Less else Greater
  }

  function CmpKey(a: Key, b: Key): Ordering {
    CmpInt(a.rank, b.rank).Then(CmpBool(a.plain, b.plain)).Then(CmpInt(a.literals, b.literals))
  }

  function CmpText(a: string, b: string): Ordering {
    if a == [] && b == [] then Equal
    else if a == [] then Less
    else if b == [] then Greater
    else CmpInt(a[0] as int, b[0] as int).Then(CmpText(a[1..], b[1..]))
  }

  function CmpScope(a: Option<string>, b: Option<string>): Ordering {
    match (a, b)
    case (None, None) => Equal
    case (None, Some(_)) => Less
    case (Some(_), None) => Greater
    case (Some(s), Some(t)) => CmpText(s, t)
  }

  /** The most specific first; then the type and the text. */
  function Cmp(w: World, a: Capability, b: Capability): Ordering {
    CmpKey(Specificity(w, b), Specificity(w, a)).Then(CmpInt(Index(a.ty), Index(b.ty))).Then(CmpScope(a.scope, b.scope))
  }

  lemma {:induction false} TextOrder(a: string, b: string)
    ensures CmpText(a, b) == Equal <==> a == b
    ensures CmpText(b, a) == CmpText(a, b).Reverse()
  {
    if a != [] && b != [] {
      TextOrder(a[1..], b[1..]);
      assert a == [a[0]] + a[1..] && b == [b[0]] + b[1..];
    }
  }

  lemma {:induction false} TextTransitive(a: string, b: string, c: string)
    requires CmpText(a, b) == Less && CmpText(b, c) == Less
    ensures CmpText(a, c) == Less
  {
    if a != [] && b != [] && c != [] && a[0] == b[0] == c[0] {
      TextTransitive(a[1..], b[1..], c[1..]);
    }
  }

  /** The order agrees with equality and with its reverse. */
  lemma OrderIsTotal(w: World, a: Capability, b: Capability)
    ensures Cmp(w, a, b) == Equal <==> a == b
    ensures Cmp(w, b, a) == Cmp(w, a, b).Reverse()
  {
    if a.scope.Some? && b.scope.Some? {
      TextOrder(a.scope.value, b.scope.value);
    }
  }

  lemma OrderIsTransitive(w: World, a: Capability, b: Capability, c: Capability)
    requires Cmp(w, a, b) == Less && Cmp(w, b, c) == Less
    ensures Cmp(w, a, c) == Less
  {
    if a.scope.Some? && b.scope.Some? && c.scope.Some? {
      TextOrder(a.scope.value, b.scope.value);
      TextOrder(b.scope.value, c.scope.value);
      if CmpText(a.scope.value, b.scope.value) == Less && CmpText(b.scope.value, c.scope.value) == Less {
        TextTransitive(a.scope.value, b.scope.value, c.scope.value);
      }
    }
  }

  // ---------------------------------------------------------------------------------------------
  // Sets in canonical order
  // ---------------------------------------------------------------------------------------------

  ghost predicate IsCapSet(w: World, s: seq<Capability>) {
    forall i, j :: 0 <= i < j < |s| ==> Cmp(w, s[i], s[j]) == Less
  }

  function Insert(w: World, s: seq<Capability>, c: Capability): seq<Capability> {
    if s == [] then [c]
    else
      match Cmp(w, c, s[0])
      case Less => [c] + s
      case Equal => s
      case Greater => [s[0]] + Insert(w, s[1..], c)
  }

  lemma {:induction false} InsertKeepsOrder(w: World, s: seq<Capability>, c: Capability)
    requires IsCapSet(w, s)
    ensures IsCapSet(w, Insert(w, s, c))
    ensures forall x :: x in Insert(w, s, c) <==> x in s || x == c
  {
    hide Specificity, CmpKey, CmpScope, Index;
    if s != [] {
      var t := Insert(w, s, c);
      OrderIsTotal(w, c, s[0]);
      match Cmp(w, c, s[0]) {
        case Less =>
          forall j | 0 <= j < |s| ensures Cmp(w, c, s[j]) == Less {
            if j > 0 {
              OrderIsTransitive(w, c, s[0], s[j]);
            }
          }
        case Equal =>
        case Greater =>
          InsertKeepsOrder(w, s[1..], c);
          assert s == [s[0]] + s[1..];
          forall x | x in Insert(w, s[1..], c) ensures Cmp(w, s[0], x) == Less {
            if x != c {
              var k :| 0 <= k < |s[1..]| && s[1..][k] == x;
              assert s[k + 1] == x;
            }
          }
      }
    }
  }

  /** Granting one after the other. */
  function InsertAll(w: World, grants: seq<Capability>): seq<Capability> {
    if grants == [] then [] else Insert(w, InsertAll(w, grants[..|grants| - 1]), grants[|grants| - 1])
  }

  lemma {:induction false} InsertAllHolds(w: World, grants: seq<Capability>)
    ensures IsCapSet(w, InsertAll(w, grants))
    ensures forall x :: x in InsertAll(w, grants) <==> x in grants
  {
    if grants != [] {
      var fewer := grants[..|grants| - 1];
      InsertAllHolds(w, fewer);
      InsertKeepsOrder(w, InsertAll(w, fewer), grants[|grants| - 1]);
      assert grants == fewer + [grants[|grants| - 1]];
    }
  }

  /** The elements of a set in canonical order determine it. */
  lemma {:induction false} SameElementsSameSet(w: World, s: seq<Capability>, t: seq<Capability>)
    requires IsCapSet(w, s) && IsCapSet(w, t) && forall x :: x in s <==> x in t
    ensures s == t
  {
    hide Cmp;
    assert (s == [] || s[0] in s) && (t == [] || t[0] in t);
    if s != [] && t != [] {
      assert s[0] in t && t[0] in s;
      var i :| 0 <= i < |t| && t[i] == s[0];
      var j :| 0 <= j < |s| && s[j] == t[0];
      OrderIsTotal(w, s[0], t[0]);
      assert s[0] == t[0];
      forall x ensures x in s[1..] <==> x in t[1..] {
        SplitFirst(w, s, x);
        SplitFirst(w, t, x);
      }
      SameElementsSameSet(w, s[1..], t[1..]);
      assert s == [s[0]] + s[1..] && t == [t[0]] + t[1..];
    }
  }

  lemma SplitFirst(w: World, s: seq<Capability>, x: Capability)
    requires IsCapSet(w, s) && s != []
    ensures x in s[1..] <==> x in s && x != s[0]
  {
    hide Cmp;
    assert s == [s[0]] + s[1..];
    OrderIsTotal(w, s[0], s[0]);
    if x in s[1..] {
      var k :| 0 <= k < |s[1..]| && s[1..][k] == x;
      assert s[k + 1] == x && Cmp(w, s[0], s[k + 1]) == Less;
    }
  }

  // ---------------------------------------------------------------------------------------------
  // The first capability that covers
  // ---------------------------------------------------------------------------------------------

  function FirstThat(w: World, s: seq<Capability>, r: Capability): Option<Capability> {
    if s == [] then None
    else if Covers(w, s[0], r) then Some(s[0])
    else FirstThat(w, s[1..], r)
  }

  function FirstOfFamily(w: World, s: seq<Capability>, r: Capability): Option<Capability> {
    if s == [] then None
    else if Family(s[0].ty) == Family(r.ty) && Covers(w, s[0], r) then Some(s[0])
    else FirstOfFamily(w, s[1..], r)
  }

  /** From the back, while the scope is missing: the last one found. */
  function LastFromTheBack(w: World, s: seq<Capability>, r: Capability, found: Option<Capability>): Option<Capability> {
    if s == [] || s[|s| - 1].scope.Some? then found
    else
      var c := s[|s| - 1];
      LastFromTheBack(w, s[..|s| - 1], r,
                      if Family(c.ty) == Family(r.ty) && Covers(w, c, r) then Some(c) else found)
  }

  function FirstCovering(w: World, s: seq<Capability>, r: Capability): Option<Capability> {
    if r.scope.None? && !ScopedCoversUnscoped(Family(r.ty)) then LastFromTheBack(w, s, r, None)
    else FirstOfFamily(w, s, r)
  }

  lemma {:induction false} FamilyIsFree(w: World, s: seq<Capability>, r: Capability)
    ensures FirstOfFamily(w, s, r) == FirstThat(w, s, r)
  {
    if s != [] {
      FamilyIsFree(w, s[1..], r);
    }
  }

  lemma {:induction false} FirstThatConcat(w: World, s: seq<Capability>, t: seq<Capability>, r: Capability)
    ensures FirstThat(w, s + t, r) == if FirstThat(w, s, r).Some? then FirstThat(w, s, r) else FirstThat(w, t, r)
  {
    if s == [] {
      assert s + t == t;
    } else {
      assert (s + t)[1..] == s[1..] + t;
      FirstThatConcat(w, s[1..], t, r);
    }
  }

  lemma {:induction false} NothingCovers(w: World, s: seq<Capability>, r: Capability)
    ensures FirstThat(w, s, r).None? <==> !AnyCovers(w, s, r)
    ensures FirstThat(w, s, r).Some? ==> FirstThat(w, s, r).value in s && Covers(w, FirstThat(w, s, r).value, r)
  {
    hide Covers;
    if s != [] {
      NothingCovers(w, s[1..], r);
      assert s == [s[0]] + s[1..];
    }
  }

  /** In canonical order whatever stands before a scoped capability is no wildcard: it has a scope, or its type
      takes no scope for the narrowest. */
  lemma BeforeScoped(w: World, s: seq<Capability>, i: nat)
    requires IsCapSet(w, s) && i < |s| && s[|s| - 1].scope.Some?
    ensures s[i].scope.Some? || ScopedCoversUnscoped(s[i].ty)
  {
    if i < |s| - 1 {
      assert Cmp(w, s[i], s[|s| - 1]) == Less;
    }
  }

  lemma {:induction false} BackwardsIsForwards(w: World, s: seq<Capability>, r: Capability, found: Option<Capability>)
    requires IsCapSet(w, s) && r.scope.None? && !ScopedCoversUnscoped(Family(r.ty))
    ensures LastFromTheBack(w, s, r, found) == if FirstThat(w, s, r).Some? then FirstThat(w, s, r) else found
  {
    if s != [] {
      if s[|s| - 1].scope.Some? {
        forall g | g in s ensures !Covers(w, g, r) {
          var i :| 0 <= i < |s| && s[i] == g;
          BeforeScoped(w, s, i);
        }
        NothingCovers(w, s, r);
      } else {
        var fewer, c := s[..|s| - 1], s[|s| - 1];
        BackwardsIsForwards(w, fewer, r, if Family(c.ty) == Family(r.ty) && Covers(w, c, r) then Some(c) else found);
        assert s == fewer + [c];
        FirstThatConcat(w, fewer, [c], r);
      }
    }
  }

  /** For every set and request, the fast lookup finds the first capability in canonical order that covers the
      request, and finds none only when none covers it. */
  lemma FastLookupIsExact(w: World, s: seq<Capability>, r: Capability)
    requires IsCapSet(w, s)
    ensures FirstCovering(w, s, r) == FirstThat(w, s, r)
    ensures FirstCovering(w, s, r).Some? <==> AnyCovers(w, s, r)
  {
    if r.scope.None? && !ScopedCoversUnscoped(Family(r.ty)) {
      BackwardsIsForwards(w, s, r, None);
    } else {
      FamilyIsFree(w, s, r);
    }
    NothingCovers(w, s, r);
  }

  /** The capability found comes before every other one of the set that covers the request. */
  lemma {:induction false} FoundComesFirst(w: World, s: seq<Capability>, r: Capability, g: Capability)
    requires IsCapSet(w, s) && g in s && Covers(w, g, r)
    ensures FirstThat(w, s, r).Some?
    ensures FirstThat(w, s, r) == Some(g) || Cmp(w, FirstThat(w, s, r).value, g) == Less
  {
    hide Cmp, Covers;
    assert s == [s[0]] + s[1..];
    if !Covers(w, s[0], r) {
      FoundComesFirst(w, s[1..], r, g);
    } else {
      var k :| 0 <= k < |s| && s[k] == g;
    }
  }

  /** Which capability is named does not depend on the order in which they were granted. */
  lemma GrantOrderDoesNotMatter(w: World, a: seq<Capability>, b: seq<Capability>, r: Capability)
    requires forall x :: x in a <==> x in b
    ensures InsertAll(w, a) == InsertAll(w, b)
    ensures FirstCovering(w, InsertAll(w, a), r) == FirstThat(w, InsertAll(w, b), r)
  {
    InsertAllHolds(w, a);
    InsertAllHolds(w, b);
    SameElementsSameSet(w, InsertAll(w, a), InsertAll(w, b));
    FastLookupIsExact(w, InsertAll(w, a), r);
  }
}
