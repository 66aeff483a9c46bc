/**
 The swarm's part of a run: signals, which are queued per name and consumed once, and agent ids.
 A run that is undone also loses the signals nobody took yet; what was taken stays taken.
 */
module Swarm {
  import opened Wrappers
  import opened Values
  import opened Journal
  import opened AllOrNothing
  import opened Blackboard

  datatype Signal = Signal(name: string, sender: string, data: Option<SendValue>)

  datatype Queued = Queued(signal: Signal, scope: Option<Run>)

  /** Everything that was ever signalled under one name, in order; the positions withdrawn by an undo;
      and how far receivers have got. */
  datatype Record = Record(sent: seq<Queued>, withdrawn: set<nat>, taken: nat)

  const NO_RECORD := Record([], {}, 0)

  /** The entries from `lo` up to `hi` that were not withdrawn. */
  function Survivors(sent: seq<Queued>, withdrawn: set<nat>, lo: nat, hi: nat): seq<Queued>
    requires hi <= |sent|
  {
    if hi <= lo then []
    else Survivors(sent, withdrawn, lo, hi - 1) + (if hi - 1 in withdrawn then [] else [sent[hi - 1]])
  }

  function Signals(queue: seq<Queued>): seq<Signal> {
    seq(|queue|, i requires 0 <= i < |queue| => queue[i].signal)
  }

  /** `Vec::retain` of the entries of the other runs. */
  function WithoutRun(queue: seq<Queued>, run: Run): seq<Queued> {
    if queue == [] then []
    else
      var last := queue[|queue| - 1];
      WithoutRun(queue[..|queue| - 1], run) + (if Of(last.scope, run) then [] else [last])
  }

  /** The record after the pending entries of `run` are withdrawn. */
  function Withdraw(r: Record, run: Run): Record {
    r.(withdrawn := r.withdrawn + set i | r.taken <= i < |r.sent| && Of(r.sent[i].scope, run))
  }

  function Named(history: seq<Signal>, name: string): seq<Signal> {
    if history == [] then []
    else
      var last := history[|history| - 1];
      Named(history[..|history| - 1], name) + (if last.name == name then [last] else [])
  }

  lemma {:induction false} SurvivorsSplit(sent: seq<Queued>, withdrawn: set<nat>, lo: nat, mid: nat, hi: nat)
    requires lo <= mid <= hi <= |sent|
    ensures Survivors(sent, withdrawn, lo, hi)
      == Survivors(sent, withdrawn, lo, mid) + Survivors(sent, withdrawn, mid, hi)
  {
    if mid < hi {
      SurvivorsSplit(sent, withdrawn, lo, mid, hi - 1);
    }
  }

  lemma {:induction false} SurvivorsSame(sent: seq<Queued>, withdrawn: set<nat>, sent': seq<Queued>,
                                         withdrawn': set<nat>, lo: nat, hi: nat)
    requires hi <= |sent| && hi <= |sent'|
    requires forall i :: lo <= i < hi ==> sent[i] == sent'[i] && (i in withdrawn <==> i in withdrawn')
    ensures Survivors(sent, withdrawn, lo, hi) == Survivors(sent', withdrawn', lo, hi)
  {
    if lo < hi {
      SurvivorsSame(sent, withdrawn, sent', withdrawn', lo, hi - 1);
    }
  }

  lemma {:induction false} SurvivorsFromFront(sent: seq<Queued>, withdrawn: set<nat>, lo: nat, hi: nat)
    requires lo < hi <= |sent|
    ensures Survivors(sent, withdrawn, lo, hi)
         == (if lo in withdrawn then [] else [sent[lo]]) + Survivors(sent, withdrawn, lo + 1, hi)
  {
    if lo + 1 < hi {
      SurvivorsFromFront(sent, withdrawn, lo, hi - 1);
    }
  }

  /** The position of the entry at the front of the queue. */
  lemma {:induction false} Front(sent: seq<Queued>, withdrawn: set<nat>, lo: nat) returns (j: nat)
    requires lo < |sent| && Survivors(sent, withdrawn, lo, |sent|) != []
    ensures lo <= j < |sent| && j !in withdrawn
    ensures Survivors(sent, withdrawn, lo, j + 1) == [sent[j]]
    ensures Survivors(sent, withdrawn, lo, |sent|) == [sent[j]] + Survivors(sent, withdrawn, j + 1, |sent|)
    decreases |sent| - lo
  {
    hide Survivors;
    SurvivorsFromFront(sent, withdrawn, lo, |sent|);
    NoSurvivors(sent, withdrawn, |sent|);
    if lo in withdrawn {
      j := Front(sent, withdrawn, lo + 1);
      SurvivorsFromFront(sent, withdrawn, lo, j + 1);
    } else {
      j := lo;
      OneSurvivor(sent, withdrawn, lo);
    }
  }

  lemma NoSurvivors(sent: seq<Queued>, withdrawn: set<nat>, hi: nat)
    requires hi <= |sent|
    ensures Survivors(sent, withdrawn, hi, hi) == []
  {
  }

  lemma OneSurvivor(sent: seq<Queued>, withdrawn: set<nat>, lo: nat)
    requires lo < |sent|
    ensures Survivors(sent, withdrawn, lo, lo + 1) == if lo in withdrawn then [] else [sent[lo]]
  {
  }

  lemma {:induction false} WithdrawPending(r: Record, run: Run, hi: nat)
    requires r.taken <= hi <= |r.sent|
    ensures Survivors(r.sent, Withdraw(r, run).withdrawn, r.taken, hi)
         == WithoutRun(Survivors(r.sent, r.withdrawn, r.taken, hi), run)
  {
    if r.taken < hi {
      WithdrawPending(r, run, hi - 1);
      var rest, last := Survivors(r.sent, r.withdrawn, r.taken, hi - 1), r.sent[hi - 1];
      var w := Withdraw(r, run).withdrawn;
      assert hi - 1 in w <==> hi - 1 in r.withdrawn || Of(last.scope, run);
      if hi - 1 in r.withdrawn {
        assert Survivors(r.sent, r.withdrawn, r.taken, hi) == rest;
        assert Survivors(r.sent, w, r.taken, hi) == Survivors(r.sent, w, r.taken, hi - 1);
      } else {
        assert (rest + [last])[..|rest|] == rest;
        assert Survivors(r.sent, r.withdrawn, r.taken, hi) == rest + [last];
      }
    }
  }

  lemma {:induction false} WithoutRunHasNone(queue: seq<Queued>, run: Run)
    ensures forall q :: q in WithoutRun(queue, run) ==> !Of(q.scope, run)
  {
    if queue != [] {
      WithoutRunHasNone(queue[..|queue| - 1], run);
    }
  }

  /** Consumed signals, then pending ones, are what was sent under the name, in order, minus what an
      undone run lost while it was pending. */
  ghost predicate InOrder(r: Record, taken: seq<Signal>, pending: seq<Queued>, undone: set<Run>) {
    && r.taken <= |r.sent|
    && taken == Signals(Survivors(r.sent, r.withdrawn, 0, r.taken))
    && pending == Survivors(r.sent, r.withdrawn, r.taken, |r.sent|)
    && forall i :: i in r.withdrawn ==> i < |r.sent| && r.sent[i].scope.Some? && r.sent[i].scope.value in undone
  }

  ghost predicate NameInOrder(name: string, r: Record, history: seq<Signal>, pending: seq<Queued>, undone: set<Run>) {
    InOrder(r, Named(history, name), pending, undone) && forall q :: q in r.sent ==> q.signal.name == name
  }

  lemma InOrderWhole(r: Record, taken: seq<Signal>, pending: seq<Queued>, undone: set<Run>)
    requires InOrder(r, taken, pending, undone)
    ensures taken + Signals(pending) == Signals(Survivors(r.sent, r.withdrawn, 0, |r.sent|))
  {
    SurvivorsSplit(r.sent, r.withdrawn, 0, r.taken, |r.sent|);
  }

  lemma InOrderSent(r: Record, taken: seq<Signal>, pending: seq<Queued>, undone: set<Run>, q: Queued)
    requires InOrder(r, taken, pending, undone)
    ensures InOrder(r.(sent := r.sent + [q]), taken, pending + [q], undone)
  {
    var more := r.sent + [q];
    SurvivorsSame(r.sent, r.withdrawn, more, r.withdrawn, 0, r.taken);
    SurvivorsSame(r.sent, r.withdrawn, more, r.withdrawn, r.taken, |r.sent|);
    assert Survivors(more, r.withdrawn, r.taken, |more|) == pending + [q];
  }

  lemma InOrderTaken(r: Record, taken: seq<Signal>, pending: seq<Queued>, undone: set<Run>) returns (r': Record)
    requires InOrder(r, taken, pending, undone) && pending != []
    ensures pending[0] in r.sent
    ensures InOrder(r', taken + [pending[0].signal], pending[1..], undone)
    ensures r'.sent == r.sent && r'.withdrawn == r.withdrawn
  {
    var j := Front(r.sent, r.withdrawn, r.taken);
    SurvivorsSplit(r.sent, r.withdrawn, 0, r.taken, j + 1);
    r' := r.(taken := j + 1);
    var before := Survivors(r.sent, r.withdrawn, 0, r.taken);
    assert Signals(before + [r.sent[j]]) == Signals(before) + [r.sent[j].signal];
    assert pending[0] == r.sent[j] && pending[1..] == Survivors(r.sent, r.withdrawn, j + 1, |r.sent|);
  }

  lemma InOrderWithdrawn(r: Record, taken: seq<Signal>, pending: seq<Queued>, undone: set<Run>, run: Run)
    requires InOrder(r, taken, pending, undone)
    ensures InOrder(Withdraw(r, run), taken, WithoutRun(pending, run), undone + {run})
  {
    SurvivorsSame(r.sent, r.withdrawn, r.sent, Withdraw(r, run).withdrawn, 0, r.taken);
    WithdrawPending(r, run, |r.sent|);
  }

  lemma NamedAppend(history: seq<Signal>, s: Signal)
    ensures forall name :: Named(history + [s], name) == Named(history, name) + (if s.name == name then [s] else [])
  {
    assert (history + [s])[..|history|] == history;
  }

  // ---------------------------------------------------------------------------------------------
  // Agent ids
  // ---------------------------------------------------------------------------------------------

  function Digit(n: nat): char
    requires n < 10
  {
    "0123456789"[n]
  }

  function Decimal(n: nat): string {
    if n < 10 then [Digit(n)] else Decimal(n / 10) + [Digit(n % 10)]
  }

  function AgentId(name: string, n: nat): string {
    name + "_" + Decimal(n)
  }

  /** What a run of digits says, in base ten. */
  function Value(digits: string): int {
    if digits == [] then 0 else Value(digits[..|digits| - 1]) * 10 + (digits[|digits| - 1] as int - '0' as int)
  }

  /** It is the number in decimal: digits that say it, and no zero in front of another digit. */
  lemma {:induction false} DecimalSaysTheNumber(n: nat)
    ensures Value(Decimal(n)) == n && forall i :: 0 <= i < |Decimal(n)| ==> '0' <= Decimal(n)[i] <= '9'
    ensures Decimal(n) != [] && (|Decimal(n)| > 1 ==> Decimal(n)[0] != '0')
  {
    if n >= 10 {
      DecimalSaysTheNumber(n / 10);
      var d := Decimal(n);
      assert d[..|d| - 1] == Decimal(n / 10);
      assert n / 10 == 0 || Value(Decimal(n / 10)) != 0;
      if |Decimal(n / 10)| == 1 {
        assert Decimal(n / 10)[..0] == [];
      }
    } else {
      assert Decimal(n)[..0] == [];
    }
  }

  lemma {:induction false} DecimalHasNoUnderscore(n: nat)
    ensures '_' !in Decimal(n) && Decimal(n) != []
  {
    if n >= 10 {
      DecimalHasNoUnderscore(n / 10);
    }
  }

  lemma {:induction false} DecimalIsInjective(m: nat, n: nat)
    requires Decimal(m) == Decimal(n)
    ensures m == n
  {
    DecimalHasNoUnderscore(m / 10);
    DecimalHasNoUnderscore(n / 10);
    if m >= 10 && n >= 10 {
      var a, b := Decimal(m / 10), Decimal(n / 10);
      assert |a| == |b| && a == Decimal(m)[..|a|] && b == Decimal(n)[..|b|];
      DecimalIsInjective(m / 10, n / 10);
      assert Decimal(m)[|a|] == Decimal(n)[|b|];
    }
  }

  lemma LastUnderscore(a: string, m: nat, b: string, n: nat)
    requires AgentId(a, m) == AgentId(b, n)
    ensures |b| <= |a|
  {
    var x := AgentId(a, m);
    DecimalHasNoUnderscore(m);
    forall i | |a| < i < |x| ensures x[i] != '_' {
      assert x[i] == Decimal(m)[i - |a| - 1];
    }
    assert AgentId(b, n)[|b|] == '_';
  }

  /** Ids never collide, whatever the names hold: digits, underscores or other ids. */
  lemma AgentIdIsInjective(a: string, m: nat, b: string, n: nat)
    requires AgentId(a, m) == AgentId(b, n)
    ensures a == b && m == n
  {
    var x, y := AgentId(a, m), AgentId(b, n);
    LastUnderscore(a, m, b, n);
    LastUnderscore(b, n, a, m);
    assert a == x[..|a|] && b == y[..|b|];
    assert Decimal(m) == x[|a| + 1..] && Decimal(n) == y[|b| + 1..];
    DecimalIsInjective(m, n);
  }

  // ---------------------------------------------------------------------------------------------
  // All the names together
  // ---------------------------------------------------------------------------------------------

  function QueueOf(pending: map<string, seq<Queued>>, name: string): seq<Queued> {
    if name in pending then pending[name] else []
  }

  function RecordOf(records: map<string, Record>, name: string): Record {
    if name in records then records[name] else NO_RECORD
  }

  ghost predicate AllInOrder(records: map<string, Record>, history: seq<Signal>, pending: map<string, seq<Queued>>,
                             undone: set<Run>) {
    forall name :: NameInOrder(name, RecordOf(records, name), history, QueueOf(pending, name), undone)
  }

  lemma EmitKeeps(records: map<string, Record>, history: seq<Signal>, pending: map<string, seq<Queued>>,
                  undone: set<Run>, q: Queued)
    requires AllInOrder(records, history, pending, undone)
    ensures var name := q.signal.name;
      AllInOrder(records[name := RecordOf(records, name).(sent := RecordOf(records, name).sent + [q])], history,
                 pending[name := QueueOf(pending, name) + [q]], undone)
  {
    hide InOrder, Named, Signals, Survivors;
    var name := q.signal.name;
    var r := RecordOf(records, name);
    assert NameInOrder(name, r, history, QueueOf(pending, name), undone);
    InOrderSent(r, Named(history, name), QueueOf(pending, name), undone, q);
    var records', pending' := records[name := r.(sent := r.sent + [q])], pending[name := QueueOf(pending, name) + [q]];
    forall n ensures NameInOrder(n, RecordOf(records', n), history, QueueOf(pending', n), undone) {
      assert NameInOrder(n, RecordOf(records, n), history, QueueOf(pending, n), undone);
    }
  }

  lemma TakeKeeps(records: map<string, Record>, history: seq<Signal>, pending: map<string, seq<Queued>>,
                  undone: set<Run>, name: string)
    returns (r: Record)
    requires AllInOrder(records, history, pending, undone) && QueueOf(pending, name) != []
    ensures var queue := QueueOf(pending, name);
      AllInOrder(records[name := r], history + [queue[0].signal], pending[name := queue[1..]], undone)
    ensures r.sent == RecordOf(records, name).sent && r.withdrawn == RecordOf(records, name).withdrawn
  {
    var queue := QueueOf(pending, name);
    assert NameInOrder(name, RecordOf(records, name), history, queue, undone);
    r := InOrderTaken(RecordOf(records, name), Named(history, name), queue, undone);
    NamedAppend(history, queue[0].signal);
    var records', pending' := records[name := r], pending[name := queue[1..]];
    forall n ensures NameInOrder(n, RecordOf(records', n), history + [queue[0].signal], QueueOf(pending', n), undone) {
      assert NameInOrder(n, RecordOf(records, n), history, QueueOf(pending, n), undone);
    }
  }

  lemma DropKeeps(records: map<string, Record>, history: seq<Signal>, pending: map<string, seq<Queued>>,
                  undone: set<Run>, run: Run)
    requires AllInOrder(records, history, pending, undone)
    ensures AllInOrder(map n | n in records :: Withdraw(records[n], run), history,
                       map n | n in pending :: WithoutRun(pending[n], run), undone + {run})
  {
    var records' := map n | n in records :: Withdraw(records[n], run);
    var pending' := map n | n in pending :: WithoutRun(pending[n], run);
    forall n ensures NameInOrder(n, RecordOf(records', n), history, QueueOf(pending', n), undone + {run}) {
      assert NameInOrder(n, RecordOf(records, n), history, QueueOf(pending, n), undone);
      InOrderWithdrawn(RecordOf(records, n), Named(history, n), QueueOf(pending, n), undone, run);
      assert Withdraw(NO_RECORD, run) == NO_RECORD;
    }
  }

  lemma DropLeavesNone(pending: map<string, seq<Queued>>, run: Run)
    ensures NoneOf(map n | n in pending :: WithoutRun(pending[n], run), run)
  {
    forall n | n in pending ensures forall q :: q in WithoutRun(pending[n], run) ==> !Of(q.scope, run) {
      WithoutRunHasNone(pending[n], run);
    }
  }

  /** No queue holds a signal of the run. */
  predicate NoneOf(pending: map<string, seq<Queued>>, run: Run) {
    forall n, q :: n in pending && q in pending[n] ==> !Of(q.scope, run)
  }

  // ---------------------------------------------------------------------------------------------
  // Signals against the history of the runs
  // ---------------------------------------------------------------------------------------------

  /** What was done in the swarm: a signal sent on behalf of a run, or an event of the blackboard. */
  datatype Act = Sent(scope: Option<Run>) | Part(event: Event)

  /** The events of the blackboard among them. */
  function Parts(acts: seq<Act>): seq<Event> {
    if acts == [] then []
    else
      var last := acts[|acts| - 1];
      Parts(acts[..|acts| - 1]) + (if last.Part? then [last.event] else [])
  }

  predicate EndsPartOf(e: Event, run: Run) {
    EndsPart(e) && e.run == run
  }

  /** A part of the run ended (its owner or an agent), and the run has sent nothing since. */
  predicate SilentSinceEnd(acts: seq<Act>, run: Run) {
    acts != [] &&
    match acts[|acts| - 1]
    case Sent(scope) => !Of(scope, run) && SilentSinceEnd(acts[..|acts| - 1], run)
    case Part(e) => EndsPartOf(e, run) || SilentSinceEnd(acts[..|acts| - 1], run)
  }

  /** The last part of the run to end left it cut, and the run has sent nothing since. */
  predicate DroppedSince(acts: seq<Act>, run: Run) {
    acts != [] &&
    var before := acts[..|acts| - 1];
    match acts[|acts| - 1]
    case Sent(scope) => !Of(scope, run) && DroppedSince(before, run)
    case Part(e) =>
      if EndsPartOf(e, run) then InfoAfter(InfoOf(Exec(EMPTY, Parts(before)), run), e).cut
      else DroppedSince(before, run)
  }

  lemma ActAppended(acts: seq<Act>, act: Act)
    ensures (acts + [act])[..|acts + [act]| - 1] == acts && (acts + [act])[|acts + [act]| - 1] == act
    ensures Parts(acts + [act]) == if act.Part? then Parts(acts) + [act.event] else Parts(acts)
  {
  }

  /** A run is marked as cut only because one of its parts reported a cut. */
  lemma {:induction false} CutFlagMeansCut(trace: seq<Event>, run: Run)
    requires InfoOf(Exec(EMPTY, trace), run).cut
    ensures CutIn(trace, run)
  {
    if trace != [] {
      var before := trace[..|trace| - 1];
      if !ReportsCut(trace[|trace| - 1], run) {
        CutFlagMeansCut(before, run);
      }
    }
  }

  /** A run that was cut is still marked so when a later part of it ends. */
  lemma {:induction false} CutIsDropped(acts: seq<Act>, run: Run)
    requires NotReused(EMPTY, Parts(acts), run) && CutIn(Parts(acts), run) && SilentSinceEnd(acts, run)
    ensures DroppedSince(acts, run)
  {
    var before, last := acts[..|acts| - 1], acts[|acts| - 1];
    if last.Part? {
      var trace := Parts(before);
      assert Parts(acts)[..|Parts(acts)| - 1] == trace;
      if !ReportsCut(last.event, run) && EndsPartOf(last.event, run) {
        CutWasTouched(trace, run);
        CutRunTracks(EMPTY, trace, run);
      } else if !EndsPartOf(last.event, run) {
        CutIsDropped(before, run);
      }
    } else {
      assert Parts(acts) == Parts(before);
      CutIsDropped(before, run);
    }
  }

  lemma {:induction false} CutWasTouched(trace: seq<Event>, run: Run)
    requires CutIn(trace, run)
    ensures Touched(trace, run)
  {
    if !ReportsCut(trace[|trace| - 1], run) {
      CutWasTouched(trace[..|trace| - 1], run);
    }
  }

  /** The runs whose last end left them cut, and that have been silent since, have nothing pending; all of them
      but those in `owed`, undone on the blackboard a moment ago. */
  ghost predicate Dropped(acts: seq<Act>, pending: map<string, seq<Queued>>, owed: set<Run>) {
    forall run :: run !in owed && DroppedSince(acts, run) ==> NoneOf(pending, run)
  }

  ghost predicate UndoneWereCut(undone: set<Run>, trace: seq<Event>) {
    forall run :: run in undone ==> CutIn(trace, run)
  }

  lemma MoreTrace(undone: set<Run>, trace: seq<Event>, e: Event)
    requires UndoneWereCut(undone, trace)
    ensures UndoneWereCut(undone, trace + [e])
  {
    assert (trace + [e])[..|trace|] == trace;
  }

  /** An event of the blackboard leaves the queues in order with the history; if it undid its run, that run's
      signals are still to be dropped. */
  lemma PartKeeps(acts: seq<Act>, pending: map<string, seq<Queued>>, owed: set<Run>, e: Event)
    requires Dropped(acts, pending, owed)
    ensures !EndsPart(e) ==> Dropped(acts + [Part(e)], pending, owed)
    ensures EndsPart(e) ==> Dropped(acts + [Part(e)], pending, owed + {e.run})
    ensures EndsPart(e) && !InfoAfter(InfoOf(Exec(EMPTY, Parts(acts)), e.run), e).cut ==>
      Dropped(acts + [Part(e)], pending, owed)
  {
    ActAppended(acts, Part(e));
  }

  lemma SentKeeps(acts: seq<Act>, pending: map<string, seq<Queued>>, owed: set<Run>, q: Queued)
    requires Dropped(acts, pending, owed)
    ensures Dropped(acts + [Sent(q.scope)], pending[q.signal.name := QueueOf(pending, q.signal.name) + [q]], owed)
  {
    ActAppended(acts, Sent(q.scope));
  }

  lemma DropKeepsDropped(acts: seq<Act>, pending: map<string, seq<Queued>>, owed: set<Run>, run: Run)
    requires Dropped(acts, pending, owed)
    ensures Dropped(acts, map n | n in pending :: WithoutRun(pending[n], run), owed - {run})
  {
    DropLeavesNone(pending, run);
    forall n, q | n in pending && q in WithoutRun(pending[n], run) ensures q in pending[n] {
      WithoutRunIsPart(pending[n], run);
    }
  }

  lemma {:induction false} WithoutRunIsPart(queue: seq<Queued>, run: Run)
    ensures forall q :: q in WithoutRun(queue, run) ==> q in queue
  {
    if queue != [] {
      WithoutRunIsPart(queue[..|queue| - 1], run);
    }
  }

  class Swarm {
    const board: Blackboard
    var pending: map<string, seq<Queued>>
    var history: seq<Signal>
    /** The registered ids, in order (`IndexMap` keys). */
    var agents: seq<string>
    ghost var records: map<string, Record>
    ghost var undone: set<Run>
    ghost var names: seq<string>
    ghost var acts: seq<Act>
    /** The runs undone on the blackboard whose signals are still to be dropped, under the other lock. */
    ghost var owed: set<Run>

    ghost predicate AgentsNumbered()
      reads this
    {
      |agents| == |names| && forall i :: 0 <= i < |agents| ==> agents[i] == AgentId(names[i], i)
    }

    /** What holds whenever no thread has the lock, between the two locks of `close_run` too. */
    ghost predicate Valid()
      reads this, board
    {
      && board.Valid() && AllInOrder(records, history, pending, undone) && AgentsNumbered()
      && board.trace == Parts(acts) && UndoneWereCut(undone, board.trace) && Dropped(acts, pending, owed)
    }

    constructor ()
      ensures Valid() && fresh(board) && agents == [] && undone == {} && acts == [] && owed == {}
    {
      board := new Blackboard();
      pending, history, agents, records, undone, names, acts, owed := map[], [], [], map[], {}, [], [], {};
    }

    /** `signal`: queues a signal on behalf of the thread's run. */
    method Emit(s: Signal, scope: Option<Run>)
      requires Valid()
      modifies this
      ensures Valid() && acts == old(acts) + [Sent(scope)]
      ensures pending == old(pending)[s.name := QueueOf(old(pending), s.name) + [Queued(s, scope)]]
      ensures history == old(history) && undone == old(undone) && agents == old(agents) && owed == old(owed)
      ensures var r := RecordOf(old(records), s.name);
        records == old(records)[s.name := r.(sent := r.sent + [Queued(s, scope)])]
    {
      hide AllInOrder, NoneOf;
      EmitKeeps(records, history, pending, undone, Queued(s, scope));
      SentKeeps(acts, pending, owed, Queued(s, scope));
      ghost var r := RecordOf(records, s.name);
      records := records[s.name := r.(sent := r.sent + [Queued(s, scope)])];
      pending := pending[s.name := QueueOf(pending, s.name) + [Queued(s, scope)]];
      acts := acts + [Sent(scope)];
    }

    /** The consuming step of a wait: takes the oldest pending signal of that name, if there is one. */
    method Take(name: string) returns (s: Option<Signal>)
      requires Valid()
      modifies this
      ensures Valid() && undone == old(undone) && agents == old(agents) && acts == old(acts) && owed == old(owed)
      ensures var queue := QueueOf(old(pending), name);
        if queue == [] then s.None? && history == old(history) && pending == old(pending) && records == old(records)
        else
          && s == Some(queue[0].signal)
          && pending == old(pending)[name := queue[1..]]
          && history == old(history) + [queue[0].signal]
          && records == old(records)[name := RecordOf(records, name)]
      ensures RecordOf(records, name).sent == RecordOf(old(records), name).sent
      ensures RecordOf(records, name).withdrawn == RecordOf(old(records), name).withdrawn
    {
      hide AllInOrder;
      var queue := QueueOf(pending, name);
      if queue == [] {
        return None;
      }
      ghost var r := TakeKeeps(records, history, pending, undone, name);
      records := records[name := r];
      pending := pending[name := queue[1..]];
      history := history + [queue[0].signal];
      return Some(queue[0].signal);
    }

    /** Removes the pending signals of a run that was undone, whatever happened since. */
    method DropSignalsOf(run: Run)
      requires Valid() && CutIn(board.trace, run)
      modifies this
      ensures Valid() && undone == old(undone) + {run} && owed == old(owed) - {run}
      ensures agents == old(agents) && history == old(history) && acts == old(acts)
      ensures pending == (map n | n in old(pending) :: WithoutRun(old(pending)[n], run))
      ensures records == (map n | n in old(records) :: Withdraw(old(records)[n], run))
      ensures NoneOf(pending, run)
    {
      hide AllInOrder, NoneOf;
      DropKeeps(records, history, pending, undone, run);
      DropLeavesNone(pending, run);
      DropKeepsDropped(acts, pending, owed, run);
      pending := map n | n in pending :: WithoutRun(pending[n], run);
      records := map n | n in records :: Withdraw(records[n], run);
      undone, owed := undone + {run}, owed - {run};
    }

    /** What the blackboard says at the end of a part of a run, under its own lock. */
    method BoardCloseRun(run: Run, cut: bool) returns (undo: bool)
      requires Valid()
      modifies this, board
      ensures PartEnded(old(acts), old(board.trace), Event.CloseRun(run, cut), undo, old(owed))
      ensures pending == old(pending) && history == old(history) && agents == old(agents)
      ensures records == old(records) && undone == old(undone)
    {
      hide AllInOrder, Dropped, Exec;
      undo := board.CloseRun(run, cut);
      BoardMoved(old(board.trace), Event.CloseRun(run, cut), undo);
    }

    method BoardAgentDone(run: Run, cut: bool) returns (undo: bool)
      requires Valid()
      modifies this, board
      ensures PartEnded(old(acts), old(board.trace), Event.AgentDone(run, cut), undo, old(owed))
      ensures pending == old(pending) && history == old(history) && agents == old(agents)
      ensures records == old(records) && undone == old(undone)
    {
      hide AllInOrder, Dropped, Exec;
      undo := board.AgentDone(run, cut);
      BoardMoved(old(board.trace), Event.AgentDone(run, cut), undo);
    }

    /** The swarm one such event on: the run is undone exactly when one of its parts reported a cut, and its
        signals are then still to be dropped. */
    ghost predicate PartEnded(was: seq<Act>, trace: seq<Event>, e: Event, undo: bool, owing: set<Run>)
      requires EndsPart(e)
      reads this, board
    {
      && Valid() && acts == was + [Part(e)] && board.trace == trace + [e]
      && (undo <==> e.cut || InfoOf(Exec(EMPTY, trace), e.run).cut)
      && (undo ==> CutIn(board.trace, e.run))
      && owed == if undo then owing + {e.run} else owing
    }

    /** The owner of the run ended: what an undone run left on the blackboard and in the queues goes. The two locks
        in turn, with no other thread between them. */
    method CloseRun(run: Run, cut: bool)
      requires Valid()
      modifies this, board
      ensures Valid() && acts == old(acts) + [Part(Event.CloseRun(run, cut))]
      ensures history == old(history) && agents == old(agents) && owed <= old(owed)
      ensures cut || InfoOf(Exec(EMPTY, old(board.trace)), run).cut ==> NoneOf(pending, run)
      ensures !(cut || InfoOf(Exec(EMPTY, old(board.trace)), run).cut) ==>
        pending == old(pending) && undone == old(undone)
    {
      hide AllInOrder, Dropped, NoneOf, Exec;
      var undo := BoardCloseRun(run, cut);
      if undo {
        DropSignalsOf(run);
      }
    }

    /** An agent of the run ended. */
    method AgentDone(run: Run, cut: bool)
      requires Valid()
      modifies this, board
      ensures Valid() && acts == old(acts) + [Part(Event.AgentDone(run, cut))]
      ensures history == old(history) && agents == old(agents) && owed <= old(owed)
      ensures cut || InfoOf(Exec(EMPTY, old(board.trace)), run).cut ==> NoneOf(pending, run)
      ensures !(cut || InfoOf(Exec(EMPTY, old(board.trace)), run).cut) ==>
        pending == old(pending) && undone == old(undone)
    {
      hide AllInOrder, Dropped, NoneOf, Exec;
      var undo := BoardAgentDone(run, cut);
      if undo {
        DropSignalsOf(run);
      }
    }

    /** An agent of the run was launched. */
    method AgentStarted(run: Run)
      requires Valid()
      modifies this, board
      ensures Valid() && acts == old(acts) + [Part(Event.AgentStarted(run))] && owed == old(owed)
      ensures pending == old(pending) && history == old(history) && agents == old(agents) && undone == old(undone)
    {
      hide AllInOrder, Dropped, Exec, UndoneWereCut, AgentsNumbered;
      board.AgentStarted(run);
      BoardMoved(old(board.trace), Event.AgentStarted(run), false);
    }

    /** A write on the swarm's blackboard. */
    method Write(key: Key, value: SendValue, agent: string, scope: Option<Run>)
      requires Valid()
      modifies this, board
      ensures Valid() && acts == old(acts) + [Part(Event.Write(key, value, agent, scope))] && owed == old(owed)
      ensures pending == old(pending) && history == old(history) && agents == old(agents) && undone == old(undone)
    {
      hide AllInOrder, Dropped, Exec, UndoneWereCut, AgentsNumbered;
      board.Write(key, value, agent, scope);
      BoardMoved(old(board.trace), Event.Write(key, value, agent, scope), false);
    }

    /** A delete on the swarm's blackboard. */
    method Delete(key: Key, scope: Option<Run>)
      requires Valid()
      modifies this, board
      ensures Valid() && acts == old(acts) + [Part(Event.Delete(key, scope))] && owed == old(owed)
      ensures pending == old(pending) && history == old(history) && agents == old(agents) && undone == old(undone)
    {
      hide AllInOrder, Dropped, Exec, UndoneWereCut, AgentsNumbered;
      board.Delete(key, scope);
      BoardMoved(old(board.trace), Event.Delete(key, scope), false);
    }

    /** The ghost history follows an event of the blackboard. */
    ghost method BoardMoved(was: seq<Event>, e: Event, undo: bool)
      requires board.Valid() && board.trace == was + [e] && was == Parts(acts)
      requires AllInOrder(records, history, pending, undone) && AgentsNumbered()
      requires UndoneWereCut(undone, was) && Dropped(acts, pending, owed)
      requires undo <==> EndsPart(e) && (e.cut || InfoOf(Exec(EMPTY, was), e.run).cut)
      modifies `acts, `owed
      ensures Valid() && acts == old(acts) + [Part(e)]
      ensures owed == if undo then old(owed) + {e.run} else old(owed)
      ensures undo ==> CutIn(board.trace, e.run)
    {
      hide AllInOrder, Dropped, Exec, UndoneWereCut, Parts;
      PartKeeps(acts, pending, owed, e);
      MoreTrace(undone, was, e);
      ActAppended(acts, Part(e));
      if undo {
        assert board.trace[..|board.trace| - 1] == was;
        if !e.cut {
          CutFlagMeansCut(was, e.run);
        }
        owed := owed + {e.run};
      }
      acts := acts + [Part(e)];
    }

    /** Registers an agent under `name_N`, N being how many were registered before. */
    method RegisterNewAgent(name: string) returns (id: string)
      requires Valid()
      modifies this
      ensures Valid() && id !in old(agents) && agents == old(agents) + [id]
      ensures pending == old(pending) && history == old(history) && records == old(records) && undone == old(undone)
      ensures acts == old(acts) && owed == old(owed)
    {
      id := AgentId(name, |agents|);
      forall i | 0 <= i < |agents| ensures agents[i] != id {
        if agents[i] == id {
          AgentIdIsInjective(names[i], i, name, |agents|);
        }
      }
      agents := agents + [id];
      names := names + [name];
      assert AllInOrder(records, history, pending, undone);
    }
  }

  /** For every name: what was taken, then what is pending, is what was sent, in order, minus entries of runs
      of which some part reported a cut. */
  lemma SignalsAreKept(s: Swarm, name: string)
    requires s.Valid()
    ensures var r := RecordOf(s.records, name);
      && Named(s.history, name) + Signals(QueueOf(s.pending, name))
          == Signals(Survivors(r.sent, r.withdrawn, 0, |r.sent|))
      && forall i :: i in r.withdrawn ==>
        i < |r.sent| && r.sent[i].scope.Some? && CutIn(s.board.trace, r.sent[i].scope.value)
  {
    var r := RecordOf(s.records, name);
    assert NameInOrder(name, r, s.history, QueueOf(s.pending, name), s.undone);
    InOrderWhole(r, Named(s.history, name), QueueOf(s.pending, name), s.undone);
  }

  /** In every reachable state a run that was cut and has finished has no pending signal once the thread that ended
      it has passed the queues, unless it sent one after the last of its parts had ended. */
  lemma CutRunHasNoSignals(s: Swarm, run: Run)
    requires s.Valid() && run !in s.owed && NotReused(EMPTY, s.board.trace, run)
    requires CutIn(s.board.trace, run) && run !in s.board.runs && SilentSinceEnd(s.acts, run)
    ensures NoneOf(s.pending, run)
  {
    CutIsDropped(s.acts, run);
  }

  lemma AgentsAreDistinct(s: Swarm, i: nat, j: nat)
    requires s.Valid() && i < j < |s.agents|
    ensures s.agents[i] != s.agents[j]
  {
    if s.agents[i] == s.agents[j] {
      AgentIdIsInjective(s.names[i], i, s.names[j], j);
    }
  }
}
