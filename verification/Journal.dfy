/**
 The blackboard's journal, as its users may think of it: one full log per key, in which nothing is
 ever compacted. Undoing a run removes its entries from every log, confirming a run makes them
 permanent, and a key is worth what the last entry of its log left there.

 The blackboard itself keeps far less (`Blackboard.dfy`); this is what it refines.
 */
module Journal {
  import opened Wrappers
  import opened Values

  type Key = string

  /** The identity of a run (the address of its `RunCut`): a request, its agents and their agents. */
  type Run = nat

  datatype Entry = Entry(value: SendValue, writtenBy: string)

  /** One write (`Some`) or delete (`None`). `scope` is the open run it belongs to; `None` = permanent. */
  datatype Logged = Logged(scope: Option<Run>, entry: Option<Entry>)

  type Log = seq<Logged>

  /** What the key is worth: the effect of the last entry. */
  function Visible(log: Log): Option<Entry> {
    if log == [] then None else log[|log| - 1].entry
  }

  predicate Of(scope: Option<Run>, run: Run) {
    scope == Some(run)
  }

  /** The open runs with an entry in the log. */
  function RunsIn(log: Log): set<Run> {
    if log == [] then {}
    else
      var last := log[|log| - 1];
      RunsIn(log[..|log| - 1]) + (if last.scope.Some? then {last.scope.value} else {})
  }

  /** The log with a set of runs undone. */
  function Minus(log: Log, runs: set<Run>): Log {
    if log == [] then []
    else
      var last := log[|log| - 1];
      if last.scope.Some? && last.scope.value in runs then Minus(log[..|log| - 1], runs)
      else Minus(log[..|log| - 1], runs) + [last]
  }

  /** The log with one run confirmed. */
  function Confirm(log: Log, run: Run): Log {
    seq(|log|, i requires 0 <= i < |log| =>
      if Of(log[i].scope, run) then Logged(None, log[i].entry) else log[i])
  }

  // ---------------------------------------------------------------------------------------------
  // Whole histories
  // ---------------------------------------------------------------------------------------------

  datatype RunInfo = RunInfo(live: nat, closed: bool, cut: bool)

  const FRESH := RunInfo(0, false, false)

  datatype Ledger = Ledger(logs: map<Key, Log>, runs: map<Run, RunInfo>)

  const EMPTY := Ledger(map[], map[])

  datatype Event =
    | Write(key: Key, value: SendValue, agent: string, scope: Option<Run>)
    | Delete(key: Key, scope: Option<Run>)
    | AgentStarted(run: Run)
    | AgentDone(run: Run, cut: bool)
    | CloseRun(run: Run, cut: bool)

  function LogOf(l: Ledger, key: Key): Log {
    if key in l.logs then l.logs[key] else []
  }

  function InfoOf(l: Ledger, run: Run): RunInfo {
    if run in l.runs then l.runs[run] else FRESH
  }

  function Append(l: Ledger, key: Key, entry: Option<Entry>, scope: Option<Run>): Ledger {
    Ledger(l.logs[key := LogOf(l, key) + [Logged(scope, entry)]],
           if scope.Some? then l.runs[scope.value := InfoOf(l, scope.value)] else l.runs)
  }

  /** What the event of a part of a run does to the entries of that run. */
  datatype Fate = Kept | Undone | Confirmed

  /** The run's state once the part behind `e` has been counted (the run not settled yet). */
  function InfoAfter(info: RunInfo, e: Event): RunInfo {
    match e
    case AgentStarted(_) => info.(live := info.live + 1)
    case AgentDone(_, cut) => info.(live := if info.live == 0 then 0 else info.live - 1, cut := cut || info.cut)
    case CloseRun(_, cut) => info.(closed := true, cut := cut || info.cut)
    case _ => info
  }

  predicate EndsPart(e: Event) {
    e.AgentDone? || e.CloseRun?
  }

  predicate Finishes(info: RunInfo, e: Event) {
    EndsPart(e) && InfoAfter(info, e).live == 0 && InfoAfter(info, e).closed
  }

  function FateOf(info: RunInfo, e: Event): Fate {
    if EndsPart(e) && InfoAfter(info, e).cut then Undone
    else if Finishes(info, e) then Confirmed
    else Kept
  }

  function Suffer(log: Log, run: Run, fate: Fate): Log {
    match fate
    case Kept => log
    case Undone => Minus(log, {run})
    case Confirmed => Confirm(log, run)
  }

  function Step(l: Ledger, e: Event): Ledger {
    match e
    case Write(key, value, agent, scope) => Append(l, key, Some(Entry(value, agent)), scope)
    case Delete(key, scope) => Append(l, key, None, scope)
    case _ =>
      var info := InfoOf(l, e.run);
      Ledger(map k | k in l.logs :: Suffer(l.logs[k], e.run, FateOf(info, e)),
             if Finishes(info, e) then l.runs - {e.run} else l.runs[e.run := InfoAfter(info, e)])
  }

  /** One key at a time. */
  lemma LogAfter(l: Ledger, e: Event, key: Key)
    ensures LogOf(Step(l, e), key)
         == match e
            case Write(k, value, agent, scope) =>
              if k == key then LogOf(l, key) + [Logged(scope, Some(Entry(value, agent)))] else LogOf(l, key)
            case Delete(k, scope) => if k == key then LogOf(l, key) + [Logged(scope, None)] else LogOf(l, key)
            case _ => Suffer(LogOf(l, key), e.run, FateOf(InfoOf(l, e.run), e))
  {
  }

  function Exec(l: Ledger, trace: seq<Event>): Ledger {
    if trace == [] then l else Step(Exec(l, trace[..|trace| - 1]), trace[|trace| - 1])
  }

  // ---------------------------------------------------------------------------------------------
  // Undoing and confirming, entry by entry
  // ---------------------------------------------------------------------------------------------

  lemma {:induction false} MinusAppend(log: Log, last: Logged, runs: set<Run>)
    ensures Minus(log + [last], runs)
         == if last.scope.Some? && last.scope.value in runs then Minus(log, runs) else Minus(log, runs) + [last]
  {
    assert (log + [last])[..|log|] == log;
  }

  lemma {:induction false} MinusConcat(a: Log, b: Log, runs: set<Run>)
    ensures Minus(a + b, runs) == Minus(a, runs) + Minus(b, runs)
  {
    if b == [] {
      assert a + b == a;
    } else {
      var n := |b| - 1;
      MinusConcat(a, b[..n], runs);
      assert a + b == (a + b[..n]) + [b[n]];
      MinusAppend(a + b[..n], b[n], runs);
    }
  }

  lemma {:induction false} MinusUnion(log: Log, some: set<Run>, more: set<Run>)
    ensures Minus(Minus(log, some), more) == Minus(log, some + more)
  {
    if log != [] {
      var rest, last := log[..|log| - 1], log[|log| - 1];
      MinusUnion(rest, some, more);
      MinusAppend(Minus(rest, some), last, more);
    }
  }

  lemma {:induction false} RunsOfMinus(log: Log, runs: set<Run>)
    ensures RunsIn(Minus(log, runs)) == RunsIn(log) - runs
  {
    if log != [] {
      RunsOfMinus(log[..|log| - 1], runs);
      var kept := Minus(log[..|log| - 1], runs);
      assert (kept + [log[|log| - 1]])[..|kept|] == kept;
    }
  }

  lemma {:induction false} RunsOfConfirm(log: Log, run: Run)
    ensures RunsIn(Confirm(log, run)) == RunsIn(log) - {run}
  {
    if log != [] {
      RunsOfConfirm(log[..|log| - 1], run);
      assert Confirm(log, run)[..|log| - 1] == Confirm(log[..|log| - 1], run);
    }
  }

  lemma {:induction false} MinusNothing(log: Log, runs: set<Run>)
    requires RunsIn(log) !! runs
    ensures Minus(log, runs) == log
  {
    if log != [] {
      MinusNothing(log[..|log| - 1], runs);
    }
  }

  lemma {:induction false} ConfirmNothing(log: Log, run: Run)
    requires run !in RunsIn(log)
    ensures Confirm(log, run) == log
  {
    if log != [] {
      ConfirmNothing(log[..|log| - 1], run);
      assert Confirm(log, run)[..|log| - 1] == Confirm(log[..|log| - 1], run);
      assert Confirm(log, run) == Confirm(log, run)[..|log| - 1] + [log[|log| - 1]];
      assert log == log[..|log| - 1] + [log[|log| - 1]];
    }
  }

  lemma {:induction false} MinusConfirm(log: Log, undone: Run, confirmed: Run)
    requires undone != confirmed
    ensures Minus(Confirm(log, confirmed), {undone}) == Confirm(Minus(log, {undone}), confirmed)
  {
    if log != [] {
      var rest, last := log[..|log| - 1], log[|log| - 1];
      MinusConfirm(rest, undone, confirmed);
      assert Confirm(log, confirmed)[..|log| - 1] == Confirm(rest, confirmed);
    }
  }
}
