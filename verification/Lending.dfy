/**
 Lending a folder to an isolated child. A builtin publishes the path it is judging and then reads which
 folders are lent; a run that lends a folder publishes that and then looks for builtins that hold a path
 touching it. Each locked section is one atomic step; any number of threads interleave them.
 */
module Lending {
  import opened Wrappers
  import opened Paths

  type Thread = nat

  /** What the file system decides: whether a path goes through a folder or ends in it, whether an operation on a
      path can touch a folder (the borrower's test), whether two areas are the same folder on disk, and whether
      nothing is in a path's way, given the folders known and those busy (the builtin's decision). */
  datatype World = World(
    touches: (Path, Area) -> bool,
    related: (Path, Area) -> bool,
    same: (Area, Area) -> bool,
    clear: (Path, seq<Area>, seq<Area>) -> bool)

  /** What one builtin in progress has judged, in order. */
  datatype HoldEntry = HoldEntry(thread: Thread, scopes: seq<Path>)

  datatype Shared = Shared(areas: seq<Area>, busy: seq<Area>, holds: map<nat, HoldEntry>, next: nat, starting: bool)

  // ---------------------------------------------------------------------------------------------
  // The locked sections
  // ---------------------------------------------------------------------------------------------

  function NewHold(s: Shared, t: Thread, p: Path): Shared {
    s.(next := s.next + 1, holds := s.holds[s.next + 1 := HoldEntry(t, [p])])
  }

  function MoreHeld(s: Shared, id: nat, p: Path): Shared {
    if id in s.holds then s.(holds := s.holds[id := s.holds[id].(scopes := s.holds[id].scopes + [p])]) else s
  }

  function Released(s: Shared, id: nat): Shared {
    s.(holds := s.holds - {id})
  }

  function Known(w: World, areas: seq<Area>, lent: seq<Area>): seq<Area> {
    if lent == [] then areas
    else
      var before := Known(w, areas, lent[..|lent| - 1]);
      if exists x :: x in before && w.same(x, lent[|lent| - 1]) then before else before + [lent[|lent| - 1]]
  }

  function Published(w: World, s: Shared, lent: seq<Area>): Shared {
    s.(areas := Known(w, s.areas, lent), busy := s.busy + lent)
  }

  /** Takes out the first entry with that path. */
  function RemoveFirst(busy: seq<Area>, path: Path): seq<Area> {
    if busy == [] then []
    else if busy[0].path == path then busy[1..]
    else [busy[0]] + RemoveFirst(busy[1..], path)
  }

  function RemoveEach(busy: seq<Area>, lent: seq<Area>): seq<Area> {
    if lent == [] then busy else RemoveFirst(RemoveEach(busy, lent[..|lent| - 1]), lent[|lent| - 1].path)
  }

  function Unlent(s: Shared, lent: seq<Area>): Shared {
    s.(busy := RemoveEach(s.busy, lent))
  }

  predicate TouchesAny(w: World, p: Path, lent: seq<Area>) {
    exists a :: a in lent && w.touches(p, a)
  }

  predicate RelatedToAny(w: World, p: Path, lent: seq<Area>) {
    exists a :: a in lent && w.related(p, a)
  }

  /** How many of a hold's paths a borrower has looked at, and whether one touched what it lends. */
  datatype Seen = Seen(done: nat, hit: bool)

  function Looked(w: World, lent: seq<Area>, scopes: seq<Path>, was: Seen): Seen {
    if was.hit || |scopes| <= was.done then was
    else Seen(|scopes|, exists p :: p in scopes[was.done..] && RelatedToAny(w, p, lent))
  }

  /** The holds of other threads with paths not looked at yet, and no hit so far. */
  function Unseen(s: Shared, me: Thread, seen: map<nat, Seen>): set<nat> {
    set id | id in s.holds && s.holds[id].thread != me
      && (id in seen ==> !seen[id].hit && seen[id].done < |s.holds[id].scopes|)
      && (id !in seen ==> s.holds[id].scopes != [])
  }

  /** The borrower's notes after one look at the holds of the other threads. */
  function Noted(w: World, s: Shared, me: Thread, lent: seq<Area>, seen: map<nat, Seen>): map<nat, Seen> {
    map id | id in seen.Keys + Unseen(s, me, seen) ::
      if id in Unseen(s, me, seen) then Looked(w, lent, s.holds[id].scopes,
        if id in seen then seen[id] else Seen(0, false))
      else seen[id]
  }

  function OthersHolding(s: Shared, me: Thread): set<nat> {
    set id | id in s.holds && s.holds[id].thread != me
  }

  // ---------------------------------------------------------------------------------------------
  // Threads
  // ---------------------------------------------------------------------------------------------

  /** A builtin in progress: its hold (once it judged a path), the path it published and has not decided
      yet, and the paths it was granted. */
  datatype Op = Op(thread: Thread, hold: Option<nat>, last: Option<Path>, pending: Option<Path>, granted: set<Path>)

  /** `Viewed` remembers the holds present at the last look. */
  datatype Phase = Waiting | Viewed(present: set<nat>) | Running

  /** A folder being lent, until it is given back. */
  datatype Loan = Loan(id: nat, thread: Thread, lent: seq<Area>, seen: map<nat, Seen>, phase: Phase)

  /** `turn` are the threads between asking for their isolated run's turn and launching the child. */
  datatype State = State(shared: Shared, ops: map<nat, Op>, loans: seq<Loan>, turn: set<Thread>)

  datatype Step =
    | TakeTurn(thread: Thread)
    | EndTurn(thread: Thread)
    | Enter(frame: nat, thread: Thread)
    | Publish(frame: nat, path: Path)
    | Decide(frame: nat, granted: bool)
    | LetGo(frame: nat)
    | Return(frame: nat)
    | Lend(id: nat, thread: Thread, lent: seq<Area>)
    | Look(i: nat)
    | Launch(i: nat)
    | GiveUp(i: nat)
    | GiveBack(i: nat)

  function Start(): State {
    State(Shared([], [], map[], 0, false), map[], [], {})
  }

  predicate Blocked(l: Loan) {
    l.phase.Viewed? && exists id :: id in l.phase.present && id in l.seen && l.seen[id].hit
  }

  /** A builtin may be refused a path for other reasons too. `LetGo` is a `run` whose child is launched: from there
      on it only waits, and acts on nothing it has judged. */
  predicate Enabled(w: World, s: State, e: Step) {
    match e
    case TakeTurn(t) => !s.shared.starting
    case EndTurn(t) => t in s.turn
    case Enter(f, _) => f !in s.ops
    case Publish(f, _) => f in s.ops && s.ops[f].pending.None?
    case Decide(f, granted) =>
      f in s.ops && s.ops[f].pending.Some?
      && (granted ==> w.clear(s.ops[f].pending.value, s.shared.areas, s.shared.busy))
    case LetGo(f) => f in s.ops && s.ops[f].pending.None?
    case Return(f) => f in s.ops && s.ops[f].pending.None?
    case Lend(id, _, _) => forall i :: 0 <= i < |s.loans| ==> s.loans[i].id != id
    case Look(i) => i < |s.loans| && !s.loans[i].phase.Running?
    case Launch(i) => i < |s.loans| && s.loans[i].phase.Viewed? && !Blocked(s.loans[i])
    case GiveUp(i) => i < |s.loans| && Blocked(s.loans[i])
    case GiveBack(i) => i < |s.loans| && s.loans[i].phase.Running?
  }

  function Next(w: World, s: State, e: Step): State
    requires Enabled(w, s, e)
  {
    match e
    case TakeTurn(t) => s.(shared := s.shared.(starting := true), turn := s.turn + {t})
    case EndTurn(t) => s.(shared := s.shared.(starting := false), turn := s.turn - {t})
    case Enter(f, t) => s.(ops := s.ops[f := Op(t, None, None, None, {})])
    case Publish(f, p) =>
      var op := s.ops[f];
      if op.hold.None? then
        s.(shared := NewHold(s.shared, op.thread, p),
           ops := s.ops[f := op.(hold := Some(s.shared.next + 1), last := Some(p), pending := Some(p))])
      else if op.last == Some(p) then s.(ops := s.ops[f := op.(pending := Some(p))])
      else
        s.(shared := MoreHeld(s.shared, op.hold.value, p), ops := s.ops[f := op.(last := Some(p), pending := Some(p))])
    case Decide(f, granted) =>
      var op := s.ops[f];
      s.(ops := s.ops[f := op.(pending := None,
        granted := if granted then op.granted + {op.pending.value} else op.granted)])
    case LetGo(f) =>
      s.(shared := Dropped(s.shared, s.ops[f]), ops := s.ops[f := Op(s.ops[f].thread, None, None, None, {})])
    case Return(f) => s.(shared := Dropped(s.shared, s.ops[f]), ops := s.ops - {f})
    case Lend(id, t, lent) =>
      s.(shared := Published(w, s.shared, lent), loans := s.loans + [Loan(id, t, lent, map[], Waiting)])
    case Look(i) =>
      var l := s.loans[i];
      s.(loans := s.loans[i := l.(seen := Noted(w, s.shared, l.thread, l.lent, l.seen),
                                  phase := Viewed(OthersHolding(s.shared, l.thread)))])
    case Launch(i) => s.(loans := s.loans[i := s.loans[i].(phase := Running)])
    case GiveUp(i) => Gone(s, i)
    case GiveBack(i) => Gone(s, i)
  }

  /** The builtin's hold is dropped. */
  function Dropped(s: Shared, op: Op): Shared {
    if op.hold.Some? then Released(s, op.hold.value) else s
  }

  /** The borrow is dropped: its folders are given back. */
  function Gone(s: State, i: nat): State
    requires i < |s.loans|
  {
    s.(shared := Unlent(s.shared, s.loans[i].lent), loans := s.loans[..i] + s.loans[i + 1..])
  }

  /** The state after a sequence of steps, if each of them could be taken. */
  function Run(w: World, steps: seq<Step>): Option<State> {
    if steps == [] then Some(Start())
    else
      var before, e := Run(w, steps[..|steps| - 1]), steps[|steps| - 1];
      if before.Some? && Enabled(w, before.value, e) then Some(Next(w, before.value, e)) else None
  }

  /** Builtin `f`, of another thread than the loan's, was granted path `p`, which touches what is lent. */
  predicate Danger(w: World, ops: map<nat, Op>, l: Loan, f: nat, p: Path) {
    f in ops && ops[f].thread != l.thread && p in ops[f].granted && TouchesAny(w, p, l.lent)
  }

  /** No child runs on a folder that another thread's builtin, still in progress, was granted a path into. */
  ghost predicate Safe(w: World, s: State) {
    forall i, f, p :: 0 <= i < |s.loans| && s.loans[i].phase.Running? ==> !Danger(w, s.ops, s.loans[i], f, p)
  }

  // ---------------------------------------------------------------------------------------------
  // What a run must respect
  // ---------------------------------------------------------------------------------------------

  /** Whatever decides of the paths in question, with those folders known and `b` busy, denies those that touch
      `a`. */
  ghost predicate Guards(w: World, paths: iset<Path>, known: seq<Area>, b: Area, a: Area) {
    forall p :: p in paths && w.touches(p, a) ==> !w.clear(p, known, [b])
  }

  predicate InPlay(s: State, a: Area) {
    a in s.shared.busy || exists i :: 0 <= i < |s.loans| && a in s.loans[i].lent
  }

  /** Giving back goes by name: any folder in play may be the one still busy under its name, and it has to guard
      the others of that name. */
  ghost predicate AllGuard(w: World, paths: iset<Path>, s: State) {
    forall a, b :: InPlay(s, a) && InPlay(s, b) && a.path == b.path ==> Guards(w, paths, s.shared.areas, b, a)
  }

  /** The borrower waits for every path in question that touches what it lends. */
  ghost predicate WaitsFor(w: World, paths: iset<Path>, lent: seq<Area>) {
    forall p, a :: p in paths && a in lent && w.touches(p, a) ==> w.related(p, a)
  }

  ghost predicate Fair(w: World, paths: iset<Path>, s: State, e: Step)
    requires Enabled(w, s, e)
  {
    match e
    case Publish(_, p) => p in paths
    case Lend(_, _, lent) => AllGuard(w, paths, Next(w, s, e)) && WaitsFor(w, paths, lent)
    case _ => true
  }

  /** The builtins publish only `paths`, and every folder is lent as above. */
  ghost predicate Sound(w: World, paths: iset<Path>, steps: seq<Step>) {
    steps == [] ||
    var before := steps[..|steps| - 1];
    && Sound(w, paths, before)
    && (Run(w, steps).Some? ==> Fair(w, paths, Run(w, before).value, steps[|steps| - 1]))
  }

  // ----- what such a run keeps -----

  ghost predicate OpIn(paths: iset<Path>, op: Op) {
    (op.pending.Some? ==> op.pending.value in paths) && forall p :: p in op.granted ==> p in paths
  }

  /** Folders of one name guard each other, the borrowers wait for what touches theirs, and the paths are those in
      question. */
  ghost predicate Fit(w: World, paths: iset<Path>, s: State) {
    && AllGuard(w, paths, s)
    && (forall i :: 0 <= i < |s.loans| ==> WaitsFor(w, paths, s.loans[i].lent))
    && (forall f :: f in s.ops ==> OpIn(paths, s.ops[f]))
  }

  // ---------------------------------------------------------------------------------------------
  // What every step keeps
  // ---------------------------------------------------------------------------------------------

  function Count(areas: seq<Area>, path: Path): nat {
    if areas == [] then 0
    else Count(areas[..|areas| - 1], path) + if areas[|areas| - 1].path == path then 1 else 0
  }

  /** How often a path is lent by loans not given back. */
  function Total(loans: seq<Loan>, path: Path): nat {
    if loans == [] then 0 else Total(loans[..|loans| - 1], path) + Count(loans[|loans| - 1].lent, path)
  }

  predicate OpOk(s: Shared, op: Op) {
    if op.hold.None? then op.last.None? && op.pending.None? && op.granted == {}
    else
      && op.hold.value in s.holds && s.holds[op.hold.value].thread == op.thread
      && (op.last.Some? ==> op.last.value in s.holds[op.hold.value].scopes)
      && (op.pending.Some? ==> op.pending.value in s.holds[op.hold.value].scopes)
      && forall p :: p in op.granted ==> p in s.holds[op.hold.value].scopes
  }

  ghost predicate OpsOk(s: Shared, ops: map<nat, Op>) {
    && (forall f :: f in ops ==> OpOk(s, ops[f]))
    && (forall f, g :: f in ops && g in ops && f != g && ops[f].hold.Some? ==> ops[f].hold != ops[g].hold)
    && (forall id :: id in s.holds ==> id <= s.next)
  }

  /** A hold noted as clear is clear as far as it was looked at; one noted as a hit has a path that is. */
  predicate NoteOk(w: World, lent: seq<Area>, scopes: seq<Path>, n: Seen) {
    && n.done <= |scopes|
    && (!n.hit ==> forall k :: 0 <= k < n.done ==> !RelatedToAny(w, scopes[k], lent))
    && (n.hit ==> exists p :: p in scopes && RelatedToAny(w, p, lent))
  }

  ghost predicate SeenOk(w: World, s: Shared, l: Loan) {
    && (forall id :: id in l.seen ==> id <= s.next)
    && (forall id :: id in l.seen && id in s.holds && s.holds[id].thread != l.thread ==>
          NoteOk(w, l.lent, s.holds[id].scopes, l.seen[id]))
  }

  /** A borrower that has looked knows of every danger; a child that runs meets none. */
  ghost predicate PhaseOk(w: World, ops: map<nat, Op>, l: Loan) {
    forall f, p :: Danger(w, ops, l, f, p) ==>
      match l.phase
      case Waiting => true
      case Viewed(present) =>
        && ops[f].hold.Some? && ops[f].hold.value in present
        && ops[f].hold.value in l.seen && l.seen[ops[f].hold.value].hit
      case Running => false
  }

  ghost predicate LoansOk(w: World, s: State) {
    forall i :: 0 <= i < |s.loans| ==> SeenOk(w, s.shared, s.loans[i]) && PhaseOk(w, s.ops, s.loans[i])
  }

  /** Every path is in `busy` once for each time it is lent and not given back. */
  ghost predicate Counted(s: State) {
    forall q :: Count(s.shared.busy, q) == Total(s.loans, q)
  }

  predicate TurnOk(s: State) {
    |s.turn| <= 1 && (s.shared.starting <==> s.turn != {})
  }

  ghost predicate Inv(w: World, s: State) {
    OpsOk(s.shared, s.ops) && LoansOk(w, s) && Counted(s) && TurnOk(s)
  }

  // ----- counting -----

  lemma {:induction false} CountConcat(a: seq<Area>, b: seq<Area>, path: Path)
    ensures Count(a + b, path) == Count(a, path) + Count(b, path)
  {
    if b == [] {
      assert a + b == a;
    } else {
      CountConcat(a, b[..|b| - 1], path);
      assert (a + b)[..|a + b| - 1] == a + b[..|b| - 1];
    }
  }

  lemma {:induction false} CountedSomewhere(areas: seq<Area>, path: Path)
    ensures Count(areas, path) > 0 <==> exists a :: a in areas && a.path == path
  {
    if areas != [] {
      var rest, last := areas[..|areas| - 1], areas[|areas| - 1];
      CountedSomewhere(rest, path);
      assert areas == rest + [last];
    }
  }

  lemma {:induction false} CountRemoved(busy: seq<Area>, path: Path, q: Path)
    ensures Count(RemoveFirst(busy, path), q)
         == if q == path && Count(busy, path) > 0 then Count(busy, q) - 1 else Count(busy, q)
  {
    if busy != [] {
      CountConcat([busy[0]], busy[1..], q);
      CountConcat([busy[0]], busy[1..], path);
      assert busy == [busy[0]] + busy[1..];
      assert Count([busy[0]], q) == if busy[0].path == q then 1 else 0;
      assert Count([busy[0]], path) == if busy[0].path == path then 1 else 0;
      if busy[0].path != path {
        CountRemoved(busy[1..], path, q);
        CountConcat([busy[0]], RemoveFirst(busy[1..], path), q);
      }
    }
  }

  /** Giving back takes out each lent path once, whoever else lends it too. */
  lemma {:induction false} CountUnlent(busy: seq<Area>, lent: seq<Area>, q: Path)
    requires forall p :: Count(lent, p) <= Count(busy, p)
    ensures Count(RemoveEach(busy, lent), q) == Count(busy, q) - Count(lent, q)
  {
    if lent != [] {
      var rest, last := lent[..|lent| - 1], lent[|lent| - 1];
      CountUnlent(busy, rest, q);
      CountUnlent(busy, rest, last.path);
      CountRemoved(RemoveEach(busy, rest), last.path, q);
    }
  }

  lemma {:induction false} TotalConcat(a: seq<Loan>, b: seq<Loan>, q: Path)
    ensures Total(a + b, q) == Total(a, q) + Total(b, q)
  {
    if b == [] {
      assert a + b == a;
    } else {
      TotalConcat(a, b[..|b| - 1], q);
      assert (a + b)[..|a + b| - 1] == a + b[..|b| - 1];
    }
  }

  lemma TotalWithout(loans: seq<Loan>, i: nat, q: Path)
    requires i < |loans|
    ensures Total(loans, q) == Total(loans[..i] + loans[i + 1..], q) + Count(loans[i].lent, q)
  {
    var a, b := loans[..i], loans[i + 1..];
    assert loans == (a + [loans[i]]) + b;
    TotalConcat(a + [loans[i]], b, q);
    TotalConcat(a, [loans[i]], q);
    TotalConcat(a, b, q);
    assert [loans[i]][..0] == [];
  }

  lemma TotalUpdate(loans: seq<Loan>, i: nat, l: Loan, q: Path)
    requires i < |loans| && l.lent == loans[i].lent
    ensures Total(loans[i := l], q) == Total(loans, q)
  {
    TotalWithout(loans, i, q);
    TotalWithout(loans[i := l], i, q);
    assert loans[i := l][..i] + loans[i := l][i + 1..] == loans[..i] + loans[i + 1..];
  }

  // ----- one step at a time -----

  lemma NoteGrows(w: World, lent: seq<Area>, scopes: seq<Path>, p: Path, n: Seen)
    requires NoteOk(w, lent, scopes, n)
    ensures NoteOk(w, lent, scopes + [p], n)
  {
  }

  /** The notes stay right when holds come, grow and go. */
  lemma SeenUnmoved(w: World, s: Shared, s': Shared, l: Loan)
    requires SeenOk(w, s, l) && s.next <= s'.next
    requires forall id :: id in l.seen && id in s'.holds ==>
      id in s.holds && s'.holds[id].thread == s.holds[id].thread
      && (s'.holds[id].scopes == s.holds[id].scopes
          || exists p :: s'.holds[id].scopes == s.holds[id].scopes + [p])
    ensures SeenOk(w, s', l)
  {
    forall id | id in l.seen && id in s'.holds && s'.holds[id].thread != l.thread
      ensures NoteOk(w, l.lent, s'.holds[id].scopes, l.seen[id])
    {
      if s'.holds[id].scopes != s.holds[id].scopes {
        var p :| s'.holds[id].scopes == s.holds[id].scopes + [p];
        NoteGrows(w, l.lent, s.holds[id].scopes, p, l.seen[id]);
      }
    }
  }

  /** The loans do not notice a change that keeps the holds they noted and the paths granted. */
  lemma LoanUnmoved(w: World, s: Shared, s': Shared, ops: map<nat, Op>, ops': map<nat, Op>, l: Loan)
    requires SeenOk(w, s, l) && PhaseOk(w, ops, l) && s.next <= s'.next
    requires forall id :: id in l.seen && id in s'.holds ==>
      id in s.holds && s'.holds[id].thread == s.holds[id].thread
      && (s'.holds[id].scopes == s.holds[id].scopes
          || exists p :: s'.holds[id].scopes == s.holds[id].scopes + [p])
    requires forall f, p :: Danger(w, ops', l, f, p) ==> Danger(w, ops, l, f, p) && ops'[f].hold == ops[f].hold
    ensures SeenOk(w, s', l) && PhaseOk(w, ops', l)
  {
    SeenUnmoved(w, s, s', l);
  }

  lemma PublishKeeps(w: World, s: State, f: nat, p: Path)
    requires Inv(w, s) && Enabled(w, s, Publish(f, p))
    ensures Inv(w, Next(w, s, Publish(f, p)))
  {
    var t, op := Next(w, s, Publish(f, p)), s.ops[f];
    assert OpOk(s.shared, op);
    PublishOps(w, s, f, p);
    forall i | 0 <= i < |t.loans| ensures SeenOk(w, t.shared, t.loans[i]) && PhaseOk(w, t.ops, t.loans[i]) {
      var l := s.loans[i];
      assert SeenOk(w, s.shared, l) && PhaseOk(w, s.ops, l);
      forall id | id in l.seen && id in t.shared.holds
        ensures id in s.shared.holds && t.shared.holds[id].thread == s.shared.holds[id].thread
        ensures t.shared.holds[id].scopes == s.shared.holds[id].scopes
                || exists q :: t.shared.holds[id].scopes == s.shared.holds[id].scopes + [q]
      {
        assert t.shared.holds[id].scopes == s.shared.holds[id].scopes
          || t.shared.holds[id].scopes == s.shared.holds[id].scopes + [p];
      }
      LoanUnmoved(w, s.shared, t.shared, s.ops, t.ops, l);
    }
  }

  lemma PublishOps(w: World, s: State, f: nat, p: Path)
    requires OpsOk(s.shared, s.ops) && Enabled(w, s, Publish(f, p))
    ensures OpsOk(Next(w, s, Publish(f, p)).shared, Next(w, s, Publish(f, p)).ops)
  {
    var t := Next(w, s, Publish(f, p));
    assert OpOk(s.shared, s.ops[f]);
    forall g | g in t.ops ensures OpOk(t.shared, t.ops[g]) {
      assert OpOk(s.shared, s.ops[g]);
    }
  }

  /** A folder lent by a loan not given back is busy, by name. */
  lemma LoanIsBusy(s: State, i: nat, a: Area) returns (b: Area)
    requires Counted(s) && i < |s.loans| && a in s.loans[i].lent
    ensures b in s.shared.busy && b.path == a.path
  {
    CountedSomewhere(s.loans[i].lent, a.path);
    TotalWithout(s.loans, i, a.path);
    CountedSomewhere(s.shared.busy, a.path);
    assert Count(s.shared.busy, a.path) == Total(s.loans, a.path);
    b :| b in s.shared.busy && b.path == a.path;
  }

  /** One busy folder fewer, and fewer known, is no more in the way. */
  ghost predicate Antitone(w: World) {
    forall p, known, more, busy, b ::
      Among(known, more) && b in busy && w.clear(p, more, busy) ==> w.clear(p, known, [b])
  }

  /** Folders known one for each name, all of them among others known so. */
  predicate Among(known: seq<Area>, more: seq<Area>) {
    OnePerName(known) && OnePerName(more) && forall x :: x in known ==> x in more
  }

  /** What is lent is busy under its name: a path that is granted touches nothing lent. */
  lemma LentIsGuarded(w: World, paths: iset<Path>, s: State, i: nat, p: Path)
    requires Antitone(w) && OnePerName(s.shared.areas) && Counted(s) && AllGuard(w, paths, s)
    requires p in paths && i < |s.loans| && w.clear(p, s.shared.areas, s.shared.busy)
    ensures !TouchesAny(w, p, s.loans[i].lent)
  {
    forall a | a in s.loans[i].lent ensures !w.touches(p, a) {
      var b := LoanIsBusy(s, i, a);
      assert InPlay(s, a) && InPlay(s, b);
      assert Guards(w, paths, s.shared.areas, b, a);
      assert Among(s.shared.areas, s.shared.areas);
      assert w.clear(p, s.shared.areas, [b]);
    }
  }

  lemma DecideKeeps(w: World, paths: iset<Path>, s: State, f: nat, granted: bool)
    requires Antitone(w) && OnePerName(s.shared.areas)
    requires Inv(w, s) && Fit(w, paths, s) && Enabled(w, s, Decide(f, granted))
    ensures Inv(w, Next(w, s, Decide(f, granted)))
  {
    var t := Next(w, s, Decide(f, granted));
    forall g | g in t.ops ensures OpOk(t.shared, t.ops[g]) {
      assert OpOk(s.shared, s.ops[g]);
    }
    assert OpIn(paths, s.ops[f]);
    forall i | 0 <= i < |t.loans| ensures SeenOk(w, t.shared, t.loans[i]) && PhaseOk(w, t.ops, t.loans[i]) {
      var l := s.loans[i];
      assert SeenOk(w, s.shared, l) && PhaseOk(w, s.ops, l);
      forall g, p | Danger(w, t.ops, l, g, p) ensures Danger(w, s.ops, l, g, p) && t.ops[g].hold == s.ops[g].hold {
        if p !in s.ops[g].granted {
          LentIsGuarded(w, paths, s, i, p);
        }
      }
      LoanUnmoved(w, s.shared, t.shared, s.ops, t.ops, l);
    }
  }

  lemma ReturnKeeps(w: World, s: State, f: nat)
    requires Inv(w, s) && Enabled(w, s, Return(f))
    ensures Inv(w, Next(w, s, Return(f)))
  {
    var t := Next(w, s, Return(f));
    assert OpOk(s.shared, s.ops[f]);
    forall g | g in t.ops ensures OpOk(t.shared, t.ops[g]) {
      assert OpOk(s.shared, s.ops[g]);
      assert s.ops[g].hold.Some? ==> s.ops[g].hold != s.ops[f].hold;
    }
    forall i | 0 <= i < |t.loans| ensures SeenOk(w, t.shared, t.loans[i]) && PhaseOk(w, t.ops, t.loans[i]) {
      assert SeenOk(w, s.shared, s.loans[i]) && PhaseOk(w, s.ops, s.loans[i]);
      LoanUnmoved(w, s.shared, t.shared, s.ops, t.ops, s.loans[i]);
    }
  }

  lemma LetGoKeeps(w: World, s: State, f: nat)
    requires Inv(w, s) && Enabled(w, s, LetGo(f))
    ensures Inv(w, Next(w, s, LetGo(f)))
  {
    var t := Next(w, s, LetGo(f));
    assert OpOk(s.shared, s.ops[f]);
    forall g | g in t.ops ensures OpOk(t.shared, t.ops[g]) {
      assert OpOk(s.shared, s.ops[g]);
      assert g != f && s.ops[g].hold.Some? ==> s.ops[g].hold != s.ops[f].hold;
    }
    forall i | 0 <= i < |t.loans| ensures SeenOk(w, t.shared, t.loans[i]) && PhaseOk(w, t.ops, t.loans[i]) {
      assert SeenOk(w, s.shared, s.loans[i]) && PhaseOk(w, s.ops, s.loans[i]);
      LoanUnmoved(w, s.shared, t.shared, s.ops, t.ops, s.loans[i]);
    }
  }

  lemma LendCounted(w: World, s: State, id: nat, thread: Thread, lent: seq<Area>)
    requires Counted(s) && Enabled(w, s, Lend(id, thread, lent))
    ensures Counted(Next(w, s, Lend(id, thread, lent)))
  {
    var t := Next(w, s, Lend(id, thread, lent));
    var l := Loan(id, thread, lent, map[], Waiting);
    forall q ensures Count(t.shared.busy, q) == Total(t.loans, q) {
      CountConcat(s.shared.busy, lent, q);
      TotalConcat(s.loans, [l], q);
      assert [l][..0] == [];
      assert Count(s.shared.busy, q) == Total(s.loans, q);
    }
  }

  lemma GoneCounted(s: State, i: nat)
    requires Counted(s) && i < |s.loans|
    ensures Counted(Gone(s, i))
  {
    var t := Gone(s, i);
    forall q ensures Count(s.loans[i].lent, q) <= Count(s.shared.busy, q) {
      TotalWithout(s.loans, i, q);
      assert Count(s.shared.busy, q) == Total(s.loans, q);
    }
    forall q ensures Count(t.shared.busy, q) == Total(t.loans, q) {
      TotalWithout(s.loans, i, q);
      CountUnlent(s.shared.busy, s.loans[i].lent, q);
      assert Count(s.shared.busy, q) == Total(s.loans, q);
    }
  }

  lemma ReplacedCounted(s: State, i: nat, l: Loan)
    requires Counted(s) && i < |s.loans| && l.lent == s.loans[i].lent
    ensures Counted(s.(loans := s.loans[i := l]))
  {
    forall q ensures Count(s.shared.busy, q) == Total(s.loans[i := l], q) {
      TotalUpdate(s.loans, i, l, q);
      assert Count(s.shared.busy, q) == Total(s.loans, q);
    }
  }

  lemma {:induction false} ReachableCounted(w: World, steps: seq<Step>)
    requires Run(w, steps).Some?
    ensures Counted(Run(w, steps).value)
  {
    if steps != [] {
      var s, e := Run(w, steps[..|steps| - 1]).value, steps[|steps| - 1];
      ReachableCounted(w, steps[..|steps| - 1]);
      CountedKept(w, s, e);
    }
  }

  lemma CountedKept(w: World, s: State, e: Step)
    requires Counted(s) && Enabled(w, s, e)
    ensures Counted(Next(w, s, e))
  {
    hide Counted;
    match e {
      case Lend(id, t, lent) => LendCounted(w, s, id, t, lent);
      case Look(i) => ReplacedCounted(s, i, Next(w, s, e).loans[i]);
      case Launch(i) => ReplacedCounted(s, i, Next(w, s, e).loans[i]);
      case GiveUp(i) => GoneCounted(s, i);
      case GiveBack(i) => GoneCounted(s, i);
      case _ => SameCounted(s, Next(w, s, e));
    }
  }

  lemma SameCounted(s: State, t: State)
    requires Counted(s) && s.loans == t.loans && s.shared.busy == t.shared.busy
    ensures Counted(t)
  {
    forall q ensures Count(t.shared.busy, q) == Total(t.loans, q) {
      assert Count(s.shared.busy, q) == Total(s.loans, q);
    }
  }

  lemma LendKeeps(w: World, s: State, id: nat, thread: Thread, lent: seq<Area>)
    requires Inv(w, s) && Enabled(w, s, Lend(id, thread, lent))
    ensures Inv(w, Next(w, s, Lend(id, thread, lent)))
  {
    var t := Next(w, s, Lend(id, thread, lent));
    LendCounted(w, s, id, thread, lent);
    forall i | 0 <= i < |t.loans| ensures SeenOk(w, t.shared, t.loans[i]) && PhaseOk(w, t.ops, t.loans[i]) {
      if i < |s.loans| {
        assert SeenOk(w, s.shared, s.loans[i]) && PhaseOk(w, s.ops, s.loans[i]);
        LoanUnmoved(w, s.shared, t.shared, s.ops, t.ops, s.loans[i]);
      }
    }
    forall g | g in t.ops ensures OpOk(t.shared, t.ops[g]) {
      assert OpOk(s.shared, s.ops[g]);
    }
  }

  /** A look finds every danger: whoever was granted a path into the folder held it before it was lent. */
  lemma LookFinds(w: World, paths: iset<Path>, s: Shared, ops: map<nat, Op>, l: Loan, f: nat, p: Path)
    requires WaitsFor(w, paths, l.lent) && p in paths && OpsOk(s, ops) && SeenOk(w, s, l) && Danger(w, ops, l, f, p)
    ensures var seen := Noted(w, s, l.thread, l.lent, l.seen);
      && ops[f].hold.Some? && ops[f].hold.value in OthersHolding(s, l.thread)
      && ops[f].hold.value in seen && seen[ops[f].hold.value].hit
  {
    assert OpOk(s, ops[f]);
    var id := ops[f].hold.value;
    var scopes := s.holds[id].scopes;
    var was := if id in l.seen then l.seen[id] else Seen(0, false);
    assert NoteOk(w, l.lent, scopes, was);
    var k :| 0 <= k < |scopes| && scopes[k] == p;
    assert RelatedToAny(w, p, l.lent);
    if !was.hit {
      assert was.done <= k && id in Unseen(s, l.thread, l.seen);
      assert scopes[was.done..][k - was.done] == p;
    }
  }

  lemma NotedOk(w: World, s: Shared, l: Loan)
    requires SeenOk(w, s, l) && forall id :: id in s.holds ==> id <= s.next
    ensures SeenOk(w, s, l.(seen := Noted(w, s, l.thread, l.lent, l.seen)))
  {
    var seen := Noted(w, s, l.thread, l.lent, l.seen);
    forall id | id in seen && id in s.holds && s.holds[id].thread != l.thread
      ensures NoteOk(w, l.lent, s.holds[id].scopes, seen[id])
    {
      var was := if id in l.seen then l.seen[id] else Seen(0, false);
      assert NoteOk(w, l.lent, s.holds[id].scopes, was);
      LookedOk(w, l.lent, s.holds[id].scopes, was);
    }
  }

  lemma LookedOk(w: World, lent: seq<Area>, scopes: seq<Path>, was: Seen)
    requires NoteOk(w, lent, scopes, was)
    ensures NoteOk(w, lent, scopes, Looked(w, lent, scopes, was))
  {
    if !was.hit && was.done < |scopes| {
      forall k | 0 <= k < |scopes| && RelatedToAny(w, scopes[k], lent)
        ensures exists p :: p in scopes[was.done..] && RelatedToAny(w, p, lent)
      {
        assert scopes[was.done..][k - was.done] == scopes[k];
      }
    }
  }

  lemma LookKeeps(w: World, paths: iset<Path>, s: State, i: nat)
    requires Inv(w, s) && Fit(w, paths, s) && Enabled(w, s, Look(i))
    ensures Inv(w, Next(w, s, Look(i)))
  {
    var t, l := Next(w, s, Look(i)), s.loans[i];
    assert SeenOk(w, s.shared, l) && PhaseOk(w, s.ops, l);
    NotedOk(w, s.shared, l);
    forall f, p | Danger(w, s.ops, l, f, p)
      ensures var seen := Noted(w, s.shared, l.thread, l.lent, l.seen);
        && s.ops[f].hold.Some? && s.ops[f].hold.value in OthersHolding(s.shared, l.thread)
        && s.ops[f].hold.value in seen && seen[s.ops[f].hold.value].hit
    {
      assert OpIn(paths, s.ops[f]);
      LookFinds(w, paths, s.shared, s.ops, l, f, p);
    }
    forall f, p | Danger(w, t.ops, t.loans[i], f, p) ensures Danger(w, s.ops, l, f, p) {
    }
    LoanReplaced(w, s, i, t.loans[i]);
  }

  lemma LoanReplaced(w: World, s: State, i: nat, l: Loan)
    requires Inv(w, s) && i < |s.loans| && l.lent == s.loans[i].lent
    requires SeenOk(w, s.shared, l) && PhaseOk(w, s.ops, l)
    ensures Inv(w, s.(loans := s.loans[i := l]))
  {
    ReplacedCounted(s, i, l);
  }

  lemma LaunchKeeps(w: World, s: State, i: nat)
    requires Inv(w, s) && Enabled(w, s, Launch(i))
    ensures Inv(w, Next(w, s, Launch(i)))
  {
    var l := s.loans[i];
    assert SeenOk(w, s.shared, l) && PhaseOk(w, s.ops, l);
    forall f, p ensures !Danger(w, s.ops, l, f, p) {
    }
    var l' := l.(phase := Running);
    forall f, p ensures !Danger(w, s.ops, l', f, p) {
      assert !Danger(w, s.ops, l, f, p);
    }
    LoanReplaced(w, s, i, l');
  }

  lemma GoneKeeps(w: World, s: State, i: nat)
    requires Inv(w, s) && i < |s.loans|
    ensures Inv(w, Gone(s, i))
  {
    var t := Gone(s, i);
    GoneCounted(s, i);
    forall g | g in t.ops ensures OpOk(t.shared, t.ops[g]) {
      assert OpOk(s.shared, s.ops[g]);
    }
    forall j | 0 <= j < |t.loans| ensures SeenOk(w, t.shared, t.loans[j]) && PhaseOk(w, t.ops, t.loans[j]) {
      var k := if j < i then j else j + 1;
      assert t.loans[j] == s.loans[k];
      assert SeenOk(w, s.shared, s.loans[k]) && PhaseOk(w, s.ops, s.loans[k]);
    }
  }

  lemma EnterKeeps(w: World, s: State, f: nat, thread: Thread)
    requires Inv(w, s) && Enabled(w, s, Enter(f, thread))
    ensures Inv(w, Next(w, s, Enter(f, thread)))
  {
    var t := Next(w, s, Enter(f, thread));
    forall i | 0 <= i < |t.loans| ensures SeenOk(w, t.shared, t.loans[i]) && PhaseOk(w, t.ops, t.loans[i]) {
      assert SeenOk(w, s.shared, s.loans[i]) && PhaseOk(w, s.ops, s.loans[i]);
      LoanUnmoved(w, s.shared, t.shared, s.ops, t.ops, s.loans[i]);
    }
    forall g | g in t.ops ensures OpOk(t.shared, t.ops[g]) {
      assert g != f ==> OpOk(s.shared, s.ops[g]);
    }
  }

  lemma TurnKeeps(w: World, s: State, e: Step)
    requires Inv(w, s) && Enabled(w, s, e) && (e.TakeTurn? || e.EndTurn?)
    ensures Inv(w, Next(w, s, e))
  {
    var t := Next(w, s, e);
    forall i | 0 <= i < |t.loans| ensures SeenOk(w, t.shared, t.loans[i]) && PhaseOk(w, t.ops, t.loans[i]) {
      assert SeenOk(w, s.shared, s.loans[i]) && PhaseOk(w, s.ops, s.loans[i]);
    }
    forall g | g in t.ops ensures OpOk(t.shared, t.ops[g]) {
      assert OpOk(s.shared, s.ops[g]);
    }
    assert s.turn == {} || exists x :: s.turn == {x} by {
      if s.turn != {} {
        var x :| x in s.turn;
        assert |s.turn - {x}| == 0;
        assert s.turn == {x};
      }
    }
  }

  /** Every step, of whichever thread, keeps the invariant. */
  lemma StepKeeps(w: World, paths: iset<Path>, s: State, e: Step)
    requires Antitone(w) && OnePerName(s.shared.areas)
    requires Inv(w, s) && Fit(w, paths, s) && Enabled(w, s, e)
    ensures Inv(w, Next(w, s, e))
  {
    hide Inv, Fit, Antitone;
    match e {
      case TakeTurn(_) => TurnKeeps(w, s, e);
      case EndTurn(_) => TurnKeeps(w, s, e);
      case Enter(f, t) => EnterKeeps(w, s, f, t);
      case Publish(f, p) => PublishKeeps(w, s, f, p);
      case Decide(f, granted) => DecideKeeps(w, paths, s, f, granted);
      case LetGo(f) => LetGoKeeps(w, s, f);
      case Return(f) => ReturnKeeps(w, s, f);
      case Lend(id, t, lent) => LendKeeps(w, s, id, t, lent);
      case Look(i) => LookKeeps(w, paths, s, i);
      case Launch(i) => LaunchKeeps(w, s, i);
      case GiveUp(i) => GoneKeeps(w, s, i);
      case GiveBack(i) => GoneKeeps(w, s, i);
    }
  }

  lemma LendFits(w: World, paths: iset<Path>, s: State, id: nat, thread: Thread, lent: seq<Area>)
    requires Fit(w, paths, s) && Enabled(w, s, Lend(id, thread, lent)) && WaitsFor(w, paths, lent)
    requires AllGuard(w, paths, Next(w, s, Lend(id, thread, lent)))
    ensures Fit(w, paths, Next(w, s, Lend(id, thread, lent)))
  {
    hide AllGuard, WaitsFor;
  }

  lemma {:induction false} RemovedIsPart(busy: seq<Area>, path: Path)
    ensures forall a :: a in RemoveFirst(busy, path) ==> a in busy
  {
    if busy != [] {
      RemovedIsPart(busy[1..], path);
    }
  }

  lemma {:induction false} UnlentIsPart(busy: seq<Area>, lent: seq<Area>)
    ensures forall a :: a in RemoveEach(busy, lent) ==> a in busy
  {
    if lent != [] {
      UnlentIsPart(busy, lent[..|lent| - 1]);
      RemovedIsPart(RemoveEach(busy, lent[..|lent| - 1]), lent[|lent| - 1].path);
    }
  }

  lemma GoneFits(w: World, paths: iset<Path>, s: State, i: nat)
    requires Fit(w, paths, s) && i < |s.loans|
    ensures Fit(w, paths, Gone(s, i))
  {
    hide Guards, WaitsFor;
    var t := Gone(s, i);
    UnlentIsPart(s.shared.busy, s.loans[i].lent);
    forall j | 0 <= j < |t.loans| ensures t.loans[j] in s.loans && WaitsFor(w, paths, t.loans[j].lent) {
      assert t.loans[j] == s.loans[if j < i then j else j + 1];
    }
    forall a | InPlay(t, a) ensures InPlay(s, a) {
      if a !in t.shared.busy {
        var j :| 0 <= j < |t.loans| && a in t.loans[j].lent;
        var k :| 0 <= k < |s.loans| && s.loans[k] == t.loans[j];
      }
    }
  }

  lemma SameFits(w: World, paths: iset<Path>, s: State, t: State)
    requires Fit(w, paths, s) && t.shared.busy == s.shared.busy && t.shared.areas == s.shared.areas
    requires |t.loans| == |s.loans| && forall i :: 0 <= i < |s.loans| ==> t.loans[i].lent == s.loans[i].lent
    requires forall f :: f in t.ops ==> OpIn(paths, t.ops[f])
    ensures Fit(w, paths, t)
  {
    hide Guards, WaitsFor;
    forall a | InPlay(t, a) ensures InPlay(s, a) {
      if a !in t.shared.busy {
        var j :| 0 <= j < |t.loans| && a in t.loans[j].lent;
        assert a in s.loans[j].lent;
      }
    }
  }

  lemma StepFits(w: World, paths: iset<Path>, s: State, e: Step)
    requires Enabled(w, s, e) && Fit(w, paths, s) && Fair(w, paths, s, e)
    ensures Fit(w, paths, Next(w, s, e))
  {
    hide AllGuard, WaitsFor;
    match e {
      case Lend(id, t, lent) => LendFits(w, paths, s, id, t, lent);
      case GiveUp(i) => GoneFits(w, paths, s, i);
      case GiveBack(i) => GoneFits(w, paths, s, i);
      case _ =>
        var t := Next(w, s, e);
        forall f | f in t.ops ensures OpIn(paths, t.ops[f]) {
          assert f in s.ops ==> OpIn(paths, s.ops[f]);
        }
        SameFits(w, paths, s, t);
    }
  }

  // ---------------------------------------------------------------------------------------------
  // The folders known
  // ---------------------------------------------------------------------------------------------

  /** Two areas of one name are the same folder for the test that keeps them apart. */
  ghost predicate NameIsSame(w: World) {
    forall a: Area, b: Area :: a.path == b.path ==> w.same(a, b)
  }

  /** None is the same folder as one known before it. */
  predicate Apart(w: World, known: seq<Area>) {
    forall i, j :: 0 <= i < j < |known| ==> !w.same(known[i], known[j])
  }

  /** The folder is known, as itself or as another that is the same. */
  predicate StandsIn(w: World, known: seq<Area>, a: Area) {
    exists x :: x in known && w.same(x, a)
  }

  ghost predicate Placed(w: World, s: State) {
    Apart(w, s.shared.areas) && forall a :: InPlay(s, a) ==> StandsIn(w, s.shared.areas, a)
  }

  lemma PlacedApart(w: World, s: State)
    requires Placed(w, s)
    ensures Apart(w, s.shared.areas)
  {
  }

  lemma ApartIsOnePerName(w: World, known: seq<Area>)
    requires NameIsSame(w) && Apart(w, known)
    ensures OnePerName(known)
  {
    forall i, j | 0 <= i < j < |known| ensures known[i].path != known[j].path {
      assert !w.same(known[i], known[j]);
    }
  }

  lemma ApartMore(w: World, known: seq<Area>, a: Area)
    requires Apart(w, known) && !exists x :: x in known && w.same(x, a)
    ensures Apart(w, known + [a])
  {
  }

  lemma {:induction false} KnownKeeps(w: World, areas: seq<Area>, lent: seq<Area>)
    requires NameIsSame(w) && Apart(w, areas)
    ensures areas <= Known(w, areas, lent) && Apart(w, Known(w, areas, lent))
    ensures forall a :: a in lent ==> StandsIn(w, Known(w, areas, lent), a)
    ensures forall x :: x in Known(w, areas, lent) ==> x in areas || x in lent
  {
    if lent != [] {
      var fewer, last := lent[..|lent| - 1], lent[|lent| - 1];
      KnownKeeps(w, areas, fewer);
      assert lent == fewer + [last];
      var before, now := Known(w, areas, fewer), Known(w, areas, lent);
      if now != before {
        ApartMore(w, before, last);
      }
      forall a | a in lent ensures StandsIn(w, now, a) {
        if a in fewer {
          assert StandsIn(w, before, a);
          var x :| x in before && w.same(x, a);
          assert x in now;
        } else if now != before {
          assert last in now && w.same(last, last);
        }
      }
    }
  }

  lemma InPlayAfterLend(w: World, s: State, e: Step, a: Area)
    requires e.Lend? && Enabled(w, s, e) && InPlay(Next(w, s, e), a)
    ensures InPlay(s, a) || a in e.lent
  {
    var t := Next(w, s, e);
    if a !in t.shared.busy {
      var i :| 0 <= i < |t.loans| && a in t.loans[i].lent;
      assert i < |s.loans| ==> t.loans[i] == s.loans[i];
    }
  }

  lemma InPlayAfter(w: World, s: State, e: Step, a: Area)
    requires !e.Lend? && Enabled(w, s, e) && InPlay(Next(w, s, e), a)
    ensures InPlay(s, a)
  {
    var t := Next(w, s, e);
    if e.GiveUp? || e.GiveBack? {
      UnlentIsPart(s.shared.busy, s.loans[e.i].lent);
      if a !in t.shared.busy {
        var j :| 0 <= j < |t.loans| && a in t.loans[j].lent;
        assert t.loans[j] == s.loans[if j < e.i then j else j + 1];
      }
    } else if a !in t.shared.busy {
      var j :| 0 <= j < |t.loans| && a in t.loans[j].lent;
      assert t.loans[j].lent == s.loans[j].lent;
    }
  }

  lemma PlacedStep(w: World, s: State, e: Step)
    requires NameIsSame(w) && Placed(w, s) && Enabled(w, s, e)
    ensures Placed(w, Next(w, s, e))
  {
    hide InPlay, NameIsSame, Apart;
    var t := Next(w, s, e);
    if e.Lend? {
      KnownKeeps(w, s.shared.areas, e.lent);
      forall a | InPlay(t, a) ensures StandsIn(w, t.shared.areas, a) {
        InPlayAfterLend(w, s, e, a);
        if a !in e.lent {
          var x :| x in s.shared.areas && w.same(x, a);
          assert x in t.shared.areas;
        }
      }
    } else {
      forall a | InPlay(t, a) ensures StandsIn(w, t.shared.areas, a) {
        InPlayAfter(w, s, e, a);
      }
    }
  }

  /** In every reachable state no folder is known twice, and every folder lent or busy is known, as itself or as
      another that is the same. */
  lemma {:induction false} InPlayIsKnown(w: World, steps: seq<Step>)
    requires NameIsSame(w) && Run(w, steps).Some?
    ensures Placed(w, Run(w, steps).value) && OnePerName(Run(w, steps).value.shared.areas)
  {
    if steps != [] {
      var before, e := steps[..|steps| - 1], steps[|steps| - 1];
      InPlayIsKnown(w, before);
      PlacedStep(w, Run(w, before).value, e);
    }
    ApartIsOnePerName(w, Run(w, steps).value.shared.areas);
  }

  // ---------------------------------------------------------------------------------------------
  // Whole runs
  // ---------------------------------------------------------------------------------------------

  /** A folder that is known as itself and busy guards itself. */
  ghost predicate SelfGuards(w: World) {
    forall p, known, a :: OnePerName(known) && a in known && w.touches(p, a) ==> !w.clear(p, known, [a])
  }

  /** What the source's tests obey in every file system. */
  ghost predicate Lawful(w: World) {
    NameIsSame(w) && Antitone(w) && SelfGuards(w) && forall p :: w.clear(p, [], [])
  }

  lemma {:induction false} ReachableInv(w: World, paths: iset<Path>, steps: seq<Step>)
    requires Lawful(w) && Sound(w, paths, steps) && Run(w, steps).Some?
    ensures Inv(w, Run(w, steps).value) && Fit(w, paths, Run(w, steps).value)
  {
    hide Fit, Fair, Antitone, Next;
    if steps == [] {
      StartFits(w, paths);
    } else {
      var before, e := steps[..|steps| - 1], steps[|steps| - 1];
      ReachableInv(w, paths, before);
      InPlayIsKnown(w, before);
      StepKeeps(w, paths, Run(w, before).value, e);
      StepFits(w, paths, Run(w, before).value, e);
    }
  }

  lemma StartFits(w: World, paths: iset<Path>)
    ensures Fit(w, paths, Start())
  {
  }

  /** In every state reached, whatever the interleaving, by a run in which the folders in play under one name guard
      each other and the borrowers wait for what touches theirs: no child runs on a folder into which another
      thread's builtin in progress was granted a path; and isolated runs start one at a time. */
  lemma LendingIsSafe(w: World, paths: iset<Path>, steps: seq<Step>)
    requires Lawful(w) && Sound(w, paths, steps) && Run(w, steps).Some?
    ensures Safe(w, Run(w, steps).value)
    ensures |Run(w, steps).value.turn| <= 1
  {
    hide Fit, Lawful;
    ReachableInv(w, paths, steps);
    var s := Run(w, steps).value;
    forall i, f, p | 0 <= i < |s.loans| && s.loans[i].phase.Running? ensures !Danger(w, s.ops, s.loans[i], f, p) {
      assert PhaseOk(w, s.ops, s.loans[i]);
    }
  }

  /** The folders are known as themselves, and those busy under their names are no others. */
  predicate AsKnown(w: World, s: Shared, lent: seq<Area>) {
    && (forall a :: a in lent ==> a in Known(w, s.areas, lent))
    && (forall a, b :: a in lent && b in s.busy + lent && a.path == b.path ==> a == b)
  }

  ghost predicate Unreplaced(w: World, paths: iset<Path>, steps: seq<Step>) {
    steps == [] ||
    var before, e := steps[..|steps| - 1], steps[|steps| - 1];
    && Unreplaced(w, paths, before)
    && (Run(w, steps).Some? && e.Publish? ==> e.path in paths)
    && (Run(w, steps).Some? && e.Lend? ==>
          AsKnown(w, Run(w, before).value.shared, e.lent) && WaitsFor(w, paths, e.lent))
  }

  /** Everything in play is known as itself, and is the only one of its name in play. */
  ghost predicate OneEach(s: State) {
    && (forall a :: InPlay(s, a) ==> a in s.shared.areas)
    && (forall a, b :: InPlay(s, a) && InPlay(s, b) && a.path == b.path ==> a == b)
  }

  lemma OneEachKept(w: World, s: State, e: Step)
    requires NameIsSame(w) && Placed(w, s) && Counted(s) && OneEach(s) && Enabled(w, s, e)
    requires e.Lend? ==> AsKnown(w, s.shared, e.lent)
    ensures OneEach(Next(w, s, e))
  {
    hide InPlay, NameIsSame, Known, Placed, Counted;
    var t := Next(w, s, e);
    if e.Lend? {
      PlacedApart(w, s);
      KnownKeeps(w, s.shared.areas, e.lent);
      forall a | InPlay(t, a) ensures a in t.shared.areas && (InPlay(s, a) || a in e.lent) {
        InPlayAfterLend(w, s, e, a);
      }
      forall a, b | InPlay(t, a) && b in e.lent && a.path == b.path ensures a == b {
        if a !in e.lent {
          var _ := InPlayIsBusy(s, a);
        }
      }
    } else {
      forall a | InPlay(t, a) ensures InPlay(s, a) {
        InPlayAfter(w, s, e, a);
      }
    }
  }

  /** A folder in play is busy, by name. */
  lemma InPlayIsBusy(s: State, a: Area) returns (b: Area)
    requires Counted(s) && InPlay(s, a)
    ensures b in s.shared.busy && InPlay(s, b) && b.path == a.path
  {
    hide Counted;
    if a in s.shared.busy {
      b := a;
    } else {
      var i :| 0 <= i < |s.loans| && a in s.loans[i].lent;
      b := LoanIsBusy(s, i, a);
    }
  }

  lemma OneEachGuard(w: World, paths: iset<Path>, s: State)
    requires SelfGuards(w) && OnePerName(s.shared.areas) && OneEach(s)
    ensures AllGuard(w, paths, s)
  {
    hide InPlay;
  }

  lemma {:induction false} UnreplacedIsSound(w: World, paths: iset<Path>, steps: seq<Step>)
    requires Lawful(w) && Unreplaced(w, paths, steps)
    ensures Sound(w, paths, steps) && (Run(w, steps).Some? ==> OneEach(Run(w, steps).value))
  {
    hide Next, Enabled, AllGuard, AsKnown, OneEach, WaitsFor, Placed, Counted;
    if steps != [] {
      var before, e := steps[..|steps| - 1], steps[|steps| - 1];
      UnreplacedIsSound(w, paths, before);
      if Run(w, steps).Some? {
        InPlayIsKnown(w, before);
        InPlayIsKnown(w, steps);
        ReachableCounted(w, before);
        OneEachKept(w, Run(w, before).value, e);
        OneEachGuard(w, paths, Run(w, steps).value);
      }
    } else {
      NoneInPlay();
    }
  }

  lemma NoneInPlay()
    ensures OneEach(Start())
  {
  }

  /** A run is safe in which every folder, when it is lent, is known as itself and no other of its name is busy, and
      whose borrowers wait for what touches theirs. */
  lemma UnreplacedIsSafe(w: World, paths: iset<Path>, steps: seq<Step>)
    requires Lawful(w) && Unreplaced(w, paths, steps) && Run(w, steps).Some?
    ensures Safe(w, Run(w, steps).value)
  {
    UnreplacedIsSound(w, paths, steps);
    LendingIsSafe(w, paths, steps);
  }

  /** In any world: a folder stays lent, by name, until every loan of it is given back; a borrow that gave up leaves
      nothing behind. */
  lemma LentUntilGivenBack(w: World, steps: seq<Step>, path: Path)
    requires Run(w, steps).Some?
    ensures var s := Run(w, steps).value;
      && Count(s.shared.busy, path) == Total(s.loans, path)
      && (s.loans == [] ==> s.shared.busy == [])
  {
    ReachableCounted(w, steps);
    var s := Run(w, steps).value;
    assert Count(s.shared.busy, path) == Total(s.loans, path);
    if s.shared.busy != [] {
      var first := s.shared.busy[0];
      CountedSomewhere(s.shared.busy, first.path);
      assert Count(s.shared.busy, first.path) == Total(s.loans, first.path);
      assert s.loans != [];
    }
  }

  // ----- when a child starts -----

  ghost predicate NotesOk(w: World, s: State) {
    && (forall id :: id in s.shared.holds ==> id <= s.shared.next)
    && forall i :: 0 <= i < |s.loans| ==> SeenOk(w, s.shared, s.loans[i])
  }

  lemma NotesKept(w: World, s: State, e: Step)
    requires NotesOk(w, s) && Enabled(w, s, e)
    ensures NotesOk(w, Next(w, s, e))
  {
    hide NoteOk, RelatedToAny, Known, RemoveEach, Noted;
    var t := Next(w, s, e);
    if e.Look? {
      NotedOk(w, s.shared, s.loans[e.i]);
    } else {
      forall k | 0 <= k < |t.loans| ensures SeenOk(w, t.shared, t.loans[k]) {
        if t.loans[k].seen != map[] {
          var l := SameNotes(w, s, e, k);
          SeenUnmoved(w, s.shared, t.shared, s.loans[l]);
        }
      }
    }
  }

  /** A loan that has notes had them before. */
  lemma SameNotes(w: World, s: State, e: Step, k: nat) returns (l: nat)
    requires Enabled(w, s, e) && !e.Look? && k < |Next(w, s, e).loans| && Next(w, s, e).loans[k].seen != map[]
    ensures l < |s.loans|
    ensures var now, was := Next(w, s, e).loans[k], s.loans[l];
      (now.seen, now.thread, now.lent) == (was.seen, was.thread, was.lent)
  {
    hide Known, RemoveEach;
    l := if (e.GiveUp? || e.GiveBack?) && k >= e.i then k + 1 else k;
  }

  lemma {:induction false} ReachableNotes(w: World, steps: seq<Step>)
    requires Run(w, steps).Some?
    ensures NotesOk(w, Run(w, steps).value)
  {
    hide NotesOk;
    if steps == [] {
      NoNotes(w);
    } else {
      ReachableNotes(w, steps[..|steps| - 1]);
      NotesKept(w, Run(w, steps[..|steps| - 1]).value, steps[|steps| - 1]);
    }
  }

  lemma NoNotes(w: World)
    ensures NotesOk(w, Start())
  {
  }

  /** Some other thread holds a path that the borrower's test relates to a folder it lends. */
  predicate OtherInTheWay(w: World, s: Shared, l: Loan) {
    exists id, p, a :: id in s.holds && s.holds[id].thread != l.thread && p in s.holds[id].scopes
      && a in l.lent && w.related(p, a)
  }

  /** In every reachable state: after a look the child may start if and only if no other thread holds such a path; what
      the borrower's own thread holds is no obstacle. Otherwise it may give up. */
  lemma StartsIff(w: World, steps: seq<Step>, i: nat)
    requires Run(w, steps).Some? && Enabled(w, Run(w, steps).value, Look(i))
    ensures var s := Run(w, steps).value; var t := Next(w, s, Look(i));
      && (Enabled(w, t, Launch(i)) <==> !OtherInTheWay(w, s.shared, s.loans[i]))
      && (Enabled(w, t, GiveUp(i)) <==> OtherInTheWay(w, s.shared, s.loans[i]))
  {
    hide Run, NoteOk;
    ReachableNotes(w, steps);
    var s := Run(w, steps).value;
    var l := s.loans[i];
    var seen := Noted(w, s.shared, l.thread, l.lent, l.seen);
    forall id | id in s.shared.holds && s.shared.holds[id].thread != l.thread
      ensures (id in seen && seen[id].hit) <==>
        exists p :: p in s.shared.holds[id].scopes && RelatedToAny(w, p, l.lent)
    {
      NotedHit(w, s.shared, l, id);
    }
  }

  /** After a look a hold is noted as a hit exactly when it has such a path. */
  lemma NotedHit(w: World, s: Shared, l: Loan, id: nat)
    requires SeenOk(w, s, l) && id in s.holds && s.holds[id].thread != l.thread
    ensures var seen := Noted(w, s, l.thread, l.lent, l.seen);
      (id in seen && seen[id].hit) <==> exists p :: p in s.holds[id].scopes && RelatedToAny(w, p, l.lent)
  {
    hide RelatedToAny;
    var scopes := s.holds[id].scopes;
    var was := if id in l.seen then l.seen[id] else Seen(0, false);
    if id in l.seen || scopes != [] {
      assert NoteOk(w, l.lent, scopes, was);
      LookedOk(w, l.lent, scopes, was);
      var now := Looked(w, l.lent, scopes, was);
      assert now.hit || now.done == |scopes|;
    }
  }

  // ---------------------------------------------------------------------------------------------
  // Exactly when it is safe
  // ---------------------------------------------------------------------------------------------

  lemma RunAppend(w: World, steps: seq<Step>, s: State, e: Step)
    requires Run(w, steps) == Some(s) && Enabled(w, s, e)
    ensures Run(w, steps + [e]) == Some(Next(w, s, e))
  {
    assert (steps + [e])[..|steps|] == steps;
  }

  /** From a state where nothing is held, a folder is lent, the holds are looked at and the child launched. */
  lemma LendAndLaunch(w: World, steps: seq<Step>, s: State, id: nat, lent: seq<Area>)
    returns (longer: seq<Step>, t: State)
    requires Run(w, steps) == Some(s) && s.shared.holds == map[]
    requires forall i :: 0 <= i < |s.loans| ==> s.loans[i].id != id
    ensures Run(w, longer) == Some(t) && longer == steps + [Lend(id, id, lent), Look(|s.loans|), Launch(|s.loans|)]
    ensures t.shared.holds == map[] && t.ops == s.ops && t.shared.busy == s.shared.busy + lent
    ensures t.shared.areas == Known(w, s.shared.areas, lent)
    ensures |t.loans| == |s.loans| + 1 && t.loans[..|s.loans|] == s.loans
    ensures var l := t.loans[|s.loans|]; l.id == id && l.thread == id && l.lent == lent && l.phase.Running?
  {
    hide Run;
    var n := |s.loans|;
    var s1 := Next(w, s, Lend(id, id, lent));
    RunAppend(w, steps, s, Lend(id, id, lent));
    var s2 := Next(w, s1, Look(n));
    RunAppend(w, steps + [Lend(id, id, lent)], s1, Look(n));
    t := Next(w, s2, Launch(n));
    RunAppend(w, steps + [Lend(id, id, lent)] + [Look(n)], s2, Launch(n));
    longer := steps + [Lend(id, id, lent)] + [Look(n)] + [Launch(n)];
  }

  /** From a state where nothing is held and nothing is in the way of `p`, a builtin is granted it. */
  lemma GrantPath(w: World, steps: seq<Step>, s: State, thread: Thread, p: Path) returns (longer: seq<Step>, t: State)
    requires Run(w, steps) == Some(s) && s.ops == map[] && w.clear(p, s.shared.areas, s.shared.busy)
    ensures Run(w, longer) == Some(t) && longer == steps + [Enter(0, thread), Publish(0, p), Decide(0, true)]
    ensures t.loans == s.loans && 0 in t.ops && t.ops[0].thread == thread && p in t.ops[0].granted
    ensures t.shared.holds == s.shared.holds[s.shared.next + 1 := HoldEntry(thread, [p])]
  {
    hide Run;
    var s1 := Next(w, s, Enter(0, thread));
    RunAppend(w, steps, s, Enter(0, thread));
    var s2 := Next(w, s1, Publish(0, p));
    RunAppend(w, steps + [Enter(0, thread)], s1, Publish(0, p));
    t := Next(w, s2, Decide(0, true));
    RunAppend(w, steps + [Enter(0, thread)] + [Publish(0, p)], s2, Decide(0, true));
    longer := steps + [Enter(0, thread)] + [Publish(0, p)] + [Decide(0, true)];
  }

  lemma RunNothing(w: World)
    ensures Run(w, []) == Some(Start())
  {
  }

  /** Folders `x` and `y` were lent once and are known. Two children then lend `a` and `b`, of one name and known
      already; the second is given back and takes the first's entry out of `busy`. If nothing is then in the way of
      a path that touches `a`, the path is granted while `a`'s child runs. */
  lemma GrantedWhileLent(w: World, x: Area, y: Area, a: Area, b: Area, p: Path) returns (steps: seq<Step>)
    requires var known := Known(w, [], [x, y]);
      a.path == b.path && StandsIn(w, known, a) && StandsIn(w, known, b) && w.clear(p, known, [b])
    requires w.touches(p, a)
    ensures Run(w, steps).Some? && !Safe(w, Run(w, steps).value) && Within(steps, iset{x, y, a, b}, iset{p})
  {
    hide Run, Known;
    RunNothing(w);
    var zero, s0 := LendAndLaunch(w, [], Start(), 0, [x, y]);
    var first := Next(w, s0, GiveBack(0));
    RunAppend(w, zero, s0, GiveBack(0));
    GivenBackAll(w, zero + [GiveBack(0)], first);
    AlreadyKnown(w, first.shared.areas, a);
    AlreadyKnown(w, first.shared.areas, b);
    var one, s1 := LendAndLaunch(w, zero + [GiveBack(0)], first, 1, [a]);
    var two, s2 := LendAndLaunch(w, one, s1, 2, [b]);
    assert s2.shared.busy == [a, b];
    var s3 := Next(w, s2, GiveBack(1));
    RunAppend(w, two, s2, GiveBack(1));
    RemovesTheOther(a, b);
    assert s3.loans == [s2.loans[0]];
    var last, s4 := GrantPath(w, two + [GiveBack(1)], s3, 3, p);
    assert a in s4.loans[0].lent;
    assert Danger(w, s4.ops, s4.loans[0], 0, p);
    steps := last;
  }

  lemma GivenBackAll(w: World, steps: seq<Step>, s: State)
    requires Run(w, steps) == Some(s) && s.loans == []
    ensures s.shared.busy == []
  {
    LentUntilGivenBack(w, steps, []);
  }

  lemma AlreadyKnown(w: World, known: seq<Area>, a: Area)
    requires StandsIn(w, known, a)
    ensures Known(w, known, [a]) == known
  {
    assert [a][..0] == [];
  }

  lemma RemovesTheOther(a: Area, b: Area)
    requires a.path == b.path
    ensures RemoveEach([a, b], [b]) == [b]
  {
    assert [b][..0] == [];
    assert RemoveEach([a, b], []) == [a, b];
  }

  /** A builtin is granted a path that the borrower's test does not relate to the folder lent next. */
  lemma NotWaitedFor(w: World, p: Path, a: Area) returns (steps: seq<Step>)
    requires w.touches(p, a) && !w.related(p, a) && w.clear(p, [], [])
    ensures Run(w, steps).Some? && !Safe(w, Run(w, steps).value) && Within(steps, iset{a}, iset{p})
  {
    hide Run;
    RunNothing(w);
    var one, s1 := GrantPath(w, [], Start(), 1, p);
    var s2 := Next(w, s1, Lend(0, 0, [a]));
    RunAppend(w, one, s1, Lend(0, 0, [a]));
    var s3 := Next(w, s2, Look(0));
    RunAppend(w, one + [Lend(0, 0, [a])], s2, Look(0));
    assert forall q :: q in [p] ==> !RelatedToAny(w, q, [a]);
    var s4 := Next(w, s3, Launch(0));
    RunAppend(w, one + [Lend(0, 0, [a])] + [Look(0)], s3, Launch(0));
    steps := one + [Lend(0, 0, [a])] + [Look(0)] + [Launch(0)];
    assert a in s4.loans[0].lent;
    assert Danger(w, s4.ops, s4.loans[0], 0, p);
  }

  /** Among those folders: whichever two of them are known from lending them before, a folder that is known guards
      every other of its name that is. */
  ghost predicate GuardedAll(w: World, areas: iset<Area>, paths: iset<Path>) {
    forall x, y, a, b :: x in areas && y in areas && a in areas && b in areas && a.path == b.path ==>
      var known := Known(w, [], [x, y]);
      StandsIn(w, known, a) && StandsIn(w, known, b) ==> Guards(w, paths, known, b, a)
  }

  /** A borrower of one of those folders waits for each of those paths that touches it. */
  ghost predicate WaitsForAll(w: World, areas: iset<Area>, paths: iset<Path>) {
    forall p, a :: p in paths && a in areas && w.touches(p, a) ==> w.related(p, a)
  }

  ghost predicate StepWithin(e: Step, areas: iset<Area>, paths: iset<Path>) {
    (e.Publish? ==> e.path in paths) && (e.Lend? ==> forall a :: a in e.lent ==> a in areas)
  }

  /** The run lends only those folders and judges only those paths. */
  ghost predicate Within(steps: seq<Step>, areas: iset<Area>, paths: iset<Path>) {
    forall e :: e in steps ==> StepWithin(e, areas, paths)
  }

  ghost predicate PlacedWithin(w: World, s: State, areas: iset<Area>) {
    Placed(w, s) && (forall a :: a in s.shared.areas ==> a in areas) && forall a :: InPlay(s, a) ==> a in areas
  }

  lemma StepWithinKeeps(w: World, s: State, e: Step, areas: iset<Area>, paths: iset<Path>)
    requires NameIsSame(w) && PlacedWithin(w, s, areas) && Enabled(w, s, e) && StepWithin(e, areas, paths)
    ensures PlacedWithin(w, Next(w, s, e), areas)
  {
    hide InPlay, NameIsSame, Placed;
    var t := Next(w, s, e);
    PlacedStep(w, s, e);
    if e.Lend? {
      assert Apart(w, s.shared.areas) by {
        PlacedApart(w, s);
      }
      KnownKeeps(w, s.shared.areas, e.lent);
    }
    forall a | InPlay(t, a) ensures a in areas {
      if e.Lend? {
        InPlayAfterLend(w, s, e, a);
      } else {
        InPlayAfter(w, s, e, a);
      }
    }
  }

  /** Two folders known, as lending just the two would have left them. */
  lemma TwoKnown(w: World, known: seq<Area>, a: Area, b: Area) returns (x: Area, y: Area)
    requires NameIsSame(w) && Apart(w, known) && StandsIn(w, known, a) && StandsIn(w, known, b)
    ensures x in known && y in known && Among(Known(w, [], [x, y]), known)
    ensures StandsIn(w, Known(w, [], [x, y]), a) && StandsIn(w, Known(w, [], [x, y]), b)
  {
    hide Known;
    ApartIsOnePerName(w, known);
    var i :| 0 <= i < |known| && w.same(known[i], a);
    var j :| 0 <= j < |known| && w.same(known[j], b);
    if i <= j {
      x, y := known[i], known[j];
    } else {
      x, y := known[j], known[i];
    }
    TwoLent(w, x, y);
    var two := Known(w, [], [x, y]);
    assert w.same(x, y) ==> i == j;
    assert known[i] in two && known[j] in two;
  }

  lemma TwoLent(w: World, x: Area, y: Area)
    ensures Known(w, [], [x, y]) == if w.same(x, y) then [x] else [x, y]
  {
    var none: seq<Area> := [];
    assert [x, y][..1] == [x] && [x][..0] == none && x in [x];
    assert Known(w, none, none) == none && Known(w, none, [x]) == none + [x] == [x];
  }

  /** Where all guard all, the folders in play do. */
  lemma PlacedGuard(w: World, s: State, areas: iset<Area>, paths: iset<Path>)
    requires Lawful(w) && PlacedWithin(w, s, areas) && GuardedAll(w, areas, paths)
    ensures AllGuard(w, paths, s)
  {
    hide InPlay, Known, StandsIn;
    forall a, b | InPlay(s, a) && InPlay(s, b) && a.path == b.path
      ensures Guards(w, paths, s.shared.areas, b, a)
    {
      var x, y := TwoKnown(w, s.shared.areas, a, b);
      assert Guards(w, paths, Known(w, [], [x, y]), b, a);
    }
  }

  lemma {:induction false} WithinIsSound(w: World, areas: iset<Area>, paths: iset<Path>, steps: seq<Step>)
    requires Lawful(w) && GuardedAll(w, areas, paths) && WaitsForAll(w, areas, paths) && Within(steps, areas, paths)
    ensures Sound(w, paths, steps)
    ensures Run(w, steps).Some? ==> PlacedWithin(w, Run(w, steps).value, areas)
  {
    hide Next, Enabled, GuardedAll, AllGuard, Lawful, PlacedWithin;
    if steps != [] {
      var before, e := steps[..|steps| - 1], steps[|steps| - 1];
      assert steps == before + [e];
      WithinIsSound(w, areas, paths, before);
      assert StepWithin(e, areas, paths);
      if Run(w, steps).Some? {
        assert NameIsSame(w) by {
          LawfulNames(w);
        }
        StepWithinKeeps(w, Run(w, before).value, e, areas, paths);
        PlacedGuard(w, Run(w, steps).value, areas, paths);
      }
    } else {
      NothingPlaced(w, areas);
    }
  }

  lemma LawfulNames(w: World)
    requires Lawful(w)
    ensures NameIsSame(w) && Antitone(w)
  {
  }

  lemma NothingPlaced(w: World, areas: iset<Area>)
    ensures PlacedWithin(w, Start(), areas)
  {
  }

  /** For any folders and any paths: all runs that lend only those folders and judge only those paths are safe
      in every state, exactly when a borrower waits for every path that touches its folder, and the decision, with
      any two of the folders known and any of a name busy, denies what touches another of the name that is known. */
  lemma SafeIff(w: World, areas: iset<Area>, paths: iset<Path>)
    requires Lawful(w)
    ensures GuardedAll(w, areas, paths) && WaitsForAll(w, areas, paths) <==>
      forall steps :: Within(steps, areas, paths) && Run(w, steps).Some? ==> Safe(w, Run(w, steps).value)
  {
    hide Run, Sound, Known, StandsIn, Antitone, NameIsSame;
    if GuardedAll(w, areas, paths) && WaitsForAll(w, areas, paths) {
      forall steps | Within(steps, areas, paths) && Run(w, steps).Some? ensures Safe(w, Run(w, steps).value) {
        WithinIsSound(w, areas, paths, steps);
        LendingIsSafe(w, paths, steps);
      }
    } else if !GuardedAll(w, areas, paths) {
      var x, y, a, b :| x in areas && y in areas && a in areas && b in areas && a.path == b.path
        && StandsIn(w, Known(w, [], [x, y]), a) && StandsIn(w, Known(w, [], [x, y]), b)
        && !Guards(w, paths, Known(w, [], [x, y]), b, a);
      var p :| p in paths && w.touches(p, a) && w.clear(p, Known(w, [], [x, y]), [b]);
      var steps := GrantedWhileLent(w, x, y, a, b, p);
      WithinMore(steps, iset{x, y, a, b}, iset{p}, areas, paths);
    } else {
      var p, a :| p in paths && a in areas && w.touches(p, a) && !w.related(p, a);
      var steps := NotWaitedFor(w, p, a);
      WithinMore(steps, iset{a}, iset{p}, areas, paths);
    }
  }

  lemma WithinMore(steps: seq<Step>, areas: iset<Area>, paths: iset<Path>, more: iset<Area>, others: iset<Path>)
    requires Within(steps, areas, paths) && areas <= more && paths <= others
    ensures Within(steps, more, others)
  {
    forall e | e in steps ensures StepWithin(e, more, others) {
      assert StepWithin(e, areas, paths);
    }
  }
}

/** The shared state of the lending protocol as the source keeps it: one object behind one lock, each
    locked section a method that does what the protocol's step says. */
module LendingState {
  import opened Wrappers
  import opened Paths
  import opened Lending

  lemma {:induction false} RemovedAfter(others: seq<Area>, busy: seq<Area>, path: Path)
    requires forall a :: a in others ==> a.path != path
    ensures RemoveFirst(others + busy, path) == others + RemoveFirst(busy, path)
  {
    if others == [] {
      assert others + busy == busy;
    } else {
      var rest := others[1..];
      RemovedAfter(rest, busy, path);
      assert (others + busy)[1..] == rest + busy;
      assert [others[0]] + (rest + RemoveFirst(busy, path)) == others + RemoveFirst(busy, path);
    }
  }

  lemma RemovedAt(busy: seq<Area>, path: Path, k: nat)
    requires k <= |busy| && forall j :: 0 <= j < k ==> busy[j].path != path
    requires k < |busy| ==> busy[k].path == path
    ensures RemoveFirst(busy, path) == if k < |busy| then busy[..k] + busy[k + 1..] else busy
  {
    RemovedAfter(busy[..k], busy[k..], path);
    assert busy == busy[..k] + busy[k..];
    if k < |busy| {
      assert busy[k..][1..] == busy[k + 1..];
    }
  }

  /** Does one of the paths touch one of the folders? */
  method FirstHit(w: World, lent: seq<Area>, scopes: seq<Path>) returns (hit: bool)
    ensures hit <==> exists p :: p in scopes && RelatedToAny(w, p, lent)
  {
    for i := 0 to |scopes|
      invariant forall k :: 0 <= k < i ==> !RelatedToAny(w, scopes[k], lent)
    {
      for j := 0 to |lent|
        invariant forall k :: 0 <= k < j ==> !w.related(scopes[i], lent[k])
      {
        if w.related(scopes[i], lent[j]) {
          assert lent[j] in lent && scopes[i] in scopes;
          return true;
        }
      }
    }
    hit := false;
  }

  /** A hold after its new paths were judged. */
  function NoteAfter(w: World, lent: seq<Area>, scopes: seq<Path>, seen: map<nat, Seen>, id: nat): Seen {
    Looked(w, lent, scopes, if id in seen then seen[id] else Seen(0, false))
  }

  function Judged(w: World, lent: seq<Area>, holds: map<nat, HoldEntry>, done: set<nat>, seen: map<nat,
                  Seen>): map<nat, Seen>
    requires done <= holds.Keys
  {
    map id | id in seen.Keys + done :: if id in done then NoteAfter(w, lent, holds[id].scopes, seen, id) else seen[id]
  }

  lemma JudgedMore(w: World, lent: seq<Area>, holds: map<nat, HoldEntry>, done: set<nat>, seen: map<nat, Seen>, id: nat)
    requires done <= holds.Keys && id in holds
    ensures Judged(w, lent, holds, done + {id}, seen)
         == Judged(w, lent, holds, done, seen)[id := NoteAfter(w, lent, holds[id].scopes, seen, id)]
  {
    hide NoteAfter;
  }

  predicate HasNews(scopes: seq<Path>, seen: map<nat, Seen>, id: nat) {
    if id in seen then !seen[id].hit && seen[id].done < |scopes| else scopes != []
  }

  method JudgeOne(w: World, lent: seq<Area>, scopes: seq<Path>, seen: map<nat, Seen>, id: nat) returns (note: Seen)
    requires HasNews(scopes, seen, id)
    ensures note == NoteAfter(w, lent, scopes, seen, id)
  {
    hide RelatedToAny;
    var done := if id in seen then seen[id].done else 0;
    var hit := FirstHit(w, lent, scopes[done..]);
    note := Seen(|scopes|, hit);
  }

  method Judge(w: World, lent: seq<Area>, holds: map<nat, HoldEntry>, todo: set<nat>, seen: map<nat, Seen>)
    returns (notes: map<nat, Seen>)
    requires todo <= holds.Keys && forall id :: id in todo ==> HasNews(holds[id].scopes, seen, id)
    ensures notes == Judged(w, lent, holds, todo, seen)
  {
    hide NoteAfter, Judged, HasNews;
    JudgedNone(w, lent, holds, seen);
    notes := seen;
    var left, done := todo, {};
    while left != {}
      invariant left <= todo && done == todo - left
      invariant notes == Judged(w, lent, holds, done, seen)
      decreases |left|
    {
      var id :| id in left;
      left := left - {id};
      var note := JudgeOne(w, lent, holds[id].scopes, seen, id);
      JudgedMore(w, lent, holds, done, seen, id);
      notes := notes[id := note];
      done := done + {id};
    }
    assert done == todo;
  }

  lemma JudgedNone(w: World, lent: seq<Area>, holds: map<nat, HoldEntry>, seen: map<nat, Seen>)
    ensures Judged(w, lent, holds, {}, seen) == seen
  {
  }

  method FindHit(present: set<nat>, notes: map<nat, Seen>) returns (pending: Option<nat>)
    ensures pending.None? <==> forall id :: id in present && id in notes ==> !notes[id].hit
    ensures pending.Some? ==> pending.value in present && pending.value in notes && notes[pending.value].hit
  {
    var left := present;
    while left != {}
      invariant left <= present
      invariant forall id :: id in present - left && id in notes ==> !notes[id].hit
      decreases |left|
    {
      var id :| id in left;
      left := left - {id};
      if id in notes && notes[id].hit {
        return Some(id);
      }
    }
    pending := None;
  }

  class Areas {
    var areas: seq<Area>
    var busy: seq<Area>
    var holds: map<nat, HoldEntry>
    var next: nat
    var starting: bool

    function View(): Shared
      reads this
    {
      Shared(areas, busy, holds, next, starting)
    }

    constructor ()
      ensures View() == Start().shared
    {
      areas, busy, holds, next, starting := [], [], map[], 0, false;
    }

    /** The first locked section of `borrow`. */
    method PublishLent(w: World, lent: seq<Area>)
      modifies this
      ensures View() == Published(w, old(View()), lent)
    {
      for i := 0 to |lent|
        invariant areas == Known(w, old(areas), lent[..i]) && busy == old(busy) + lent[..i]
        invariant View() == old(View()).(areas := areas, busy := busy)
      {
        assert lent[..i + 1][..i] == lent[..i];
        if !(exists x :: x in areas && w.same(x, lent[i])) {
          areas := areas + [lent[i]];
        }
        busy := busy + [lent[i]];
      }
      assert lent[..|lent|] == lent;
    }

    /** One turn of the loop of `borrow`: the other threads' holds and the paths not looked at yet are taken
        under the lock and then judged; the notes say what each hold has come to, and a hold present with a hit
        is waited for. */
    method Look(w: World, me: Thread, lent: seq<Area>, seen: map<nat, Seen>)
      returns (notes: map<nat, Seen>, pending: Option<nat>)
      ensures notes == Noted(w, View(), me, lent, seen)
      ensures pending.None? <==> forall id :: id in OthersHolding(View(), me) && id in notes ==> !notes[id].hit
      ensures pending.Some? ==>
        pending.value in OthersHolding(View(), me) && pending.value in notes && notes[pending.value].hit
    {
      var present, todo := OthersHolding(View(), me), Unseen(View(), me, seen);
      notes := Judge(w, lent, holds, todo, seen);
      assert notes == Noted(w, View(), me, lent, seen);
      pending := FindHit(present, notes);
    }

    /** `Borrow::drop`: gives each folder back by name, one entry each. */
    method GiveBackAll(lent: seq<Area>)
      modifies this
      ensures View() == Unlent(old(View()), lent)
    {
      for i := 0 to |lent|
        invariant busy == RemoveEach(old(busy), lent[..i])
        invariant View() == old(View()).(busy := busy)
      {
        assert lent[..i + 1][..i] == lent[..i];
        var k := 0;
        while k < |busy| && busy[k].path != lent[i].path
          invariant 0 <= k <= |busy|
          invariant forall j :: 0 <= j < k ==> busy[j].path != lent[i].path
        {
          k := k + 1;
        }
        RemovedAt(busy, lent[i].path, k);
        if k < |busy| {
          busy := busy[..k] + busy[k + 1..];
        }
      }
      assert lent[..|lent|] == lent;
    }
  }
}
