/**
 A run is confirmed as a whole or undone as a whole, over every interleaving with other runs.
 The statements are about histories of the ledger of `Journal`; the blackboard refines it.
 */
module AllOrNothing {
  import opened Wrappers
  import opened Journal

  predicate ByRun(e: Event, run: Run) {
    match e
    case Write(_, _, _, scope) => Of(scope, run)
    case Delete(_, scope) => Of(scope, run)
    case AgentStarted(r) => r == run
    case AgentDone(r, _) => r == run
    case CloseRun(r, _) => r == run
  }

  predicate WritesFor(e: Event, run: Run) {
    (e.Write? || e.Delete?) && Of(e.scope, run)
  }

  predicate ReportsCut(e: Event, run: Run) {
    (e.AgentDone? || e.CloseRun?) && e.run == run && e.cut
  }

  /** The history without what the run wrote or deleted. */
  function Erase(trace: seq<Event>, run: Run): seq<Event> {
    if trace == [] then []
    else
      var rest := Erase(trace[..|trace| - 1], run);
      if WritesFor(trace[|trace| - 1], run) then rest else rest + [trace[|trace| - 1]]
  }

  /** The same write or delete, made outside every run. */
  function Unscoped(e: Event): Event {
    match e
    case Write(key, value, agent, _) => Write(key, value, agent, None)
    case Delete(key, _) => Delete(key, None)
    case _ => e
  }

  /** The history where what the run wrote or deleted is permanent from the start. */
  function Publish(trace: seq<Event>, run: Run): seq<Event> {
    if trace == [] then []
    else
      var e := trace[|trace| - 1];
      Publish(trace[..|trace| - 1], run) + [if WritesFor(e, run) then Unscoped(e) else e]
  }

  predicate Touched(trace: seq<Event>, run: Run) {
    trace != [] && (Touched(trace[..|trace| - 1], run) || ByRun(trace[|trace| - 1], run))
  }

  predicate CutIn(trace: seq<Event>, run: Run) {
    trace != [] && (CutIn(trace[..|trace| - 1], run) || ReportsCut(trace[|trace| - 1], run))
  }

  /** A run that has finished does nothing more under that identity; the other runs go on as they like. */
  predicate NotReused(l: Ledger, trace: seq<Event>, run: Run) {
    trace == [] ||
    var before, last := trace[..|trace| - 1], trace[|trace| - 1];
    NotReused(l, before, run) && (Touched(before, run) && ByRun(last, run) ==> run in Exec(l, before).runs)
  }

  /** Only open runs are named in a log: nothing of a finished run is pending. */
  ghost predicate OpenOnly(l: Ledger) {
    forall k :: RunsIn(LogOf(l, k)) <= l.runs.Keys
  }

  lemma OpenOnlyStep(l: Ledger, e: Event)
    requires OpenOnly(l)
    ensures OpenOnly(Step(l, e))
  {
    forall k ensures RunsIn(LogOf(Step(l, e), k)) <= Step(l, e).runs.Keys {
      var log := LogOf(l, k);
      LogAfter(l, e, k);
      if e.Write? || e.Delete? {
        if e.key == k {
          assert LogOf(Step(l, e), k)[..|log|] == log;
        }
      } else {
        RunsOfMinus(log, {e.run});
        RunsOfConfirm(log, e.run);
      }
    }
  }

  lemma {:induction false} ReachableOpenOnly(l: Ledger, trace: seq<Event>)
    requires OpenOnly(l)
    ensures OpenOnly(Exec(l, trace))
  {
    if trace != [] {
      ReachableOpenOnly(l, trace[..|trace| - 1]);
      OpenOnlyStep(Exec(l, trace[..|trace| - 1]), trace[|trace| - 1]);
    }
  }

  // ---------------------------------------------------------------------------------------------
  // A cut run leaves nothing
  // ---------------------------------------------------------------------------------------------

  ghost predicate RunsAgree(l: Ledger, m: Ledger, run: Run) {
    && (forall q :: q != run ==> (q in l.runs <==> q in m.runs) && InfoOf(l, q) == InfoOf(m, q))
    && (run in m.runs ==> run in l.runs)
    && InfoOf(l, run) == InfoOf(m, run)
  }

  ghost predicate AgreeWithout(l: Ledger, m: Ledger, run: Run) {
    RunsAgree(l, m, run) && forall k :: Minus(LogOf(l, k), {run}) == LogOf(m, k)
  }

  lemma RunsAgreeStep(l: Ledger, m: Ledger, e: Event, run: Run)
    requires RunsAgree(l, m, run)
    ensures WritesFor(e, run) ==> RunsAgree(Step(l, e), m, run) && RunsAgree(Step(l, e), Step(m, Unscoped(e)), run)
    ensures !WritesFor(e, run) ==> RunsAgree(Step(l, e), Step(m, e), run)
  {
  }

  lemma AgreeWithoutStep(l: Ledger, m: Ledger, e: Event, run: Run)
    requires AgreeWithout(l, m, run)
    requires ByRun(e, run) ==> !FateOf(InfoOf(l, run), e).Confirmed?
    ensures AgreeWithout(Step(l, e), if WritesFor(e, run) then m else Step(m, e), run)
  {
    RunsAgreeStep(l, m, e, run);
    var m' := if WritesFor(e, run) then m else Step(m, e);
    forall k ensures Minus(LogOf(Step(l, e), k), {run}) == LogOf(m', k) {
      WithoutKey(l, m, e, run, k);
    }
  }

  lemma WithoutKey(l: Ledger, m: Ledger, e: Event, run: Run, key: Key)
    requires Minus(LogOf(l, key), {run}) == LogOf(m, key)
    requires !e.Write? && !e.Delete? ==> InfoOf(l, e.run) == InfoOf(m, e.run)
    requires ByRun(e, run) ==> !FateOf(InfoOf(l, run), e).Confirmed?
    ensures Minus(LogOf(Step(l, e), key), {run}) == LogOf(if WritesFor(e, run) then m else Step(m, e), key)
  {
    LogAfter(l, e, key);
    LogAfter(m, e, key);
    if e.Write? || e.Delete? {
      if e.key == key {
        MinusAppend(LogOf(l, key), LogOf(Step(l, e), key)[|LogOf(l, key)|], {run});
      }
    } else {
      SufferMinus(LogOf(l, key), e.run, FateOf(InfoOf(l, e.run), e), run);
    }
  }

  lemma SufferMinus(log: Log, q: Run, fate: Fate, run: Run)
    requires q == run ==> !fate.Confirmed?
    ensures Minus(Suffer(log, q, fate), {run}) == Suffer(Minus(log, {run}), q, fate)
  {
    MinusUnion(log, {q}, {run});
    MinusUnion(log, {run}, {q});
    assert {q} + {run} == {run} + {q};
    if q != run {
      MinusConfirm(log, run, q);
    }
  }

  lemma {:induction false} CutRunTracks(l: Ledger, trace: seq<Event>, run: Run)
    requires OpenOnly(l) && run !in l.runs && NotReused(l, trace, run)
    requires Touched(trace, run) ==> run in Exec(l, trace).runs || CutIn(trace, run)
    ensures AgreeWithout(Exec(l, trace), Exec(l, Erase(trace, run)), run)
    ensures run in Exec(l, trace).runs && CutIn(trace, run) ==> InfoOf(Exec(l, trace), run).cut
    ensures !Touched(trace, run) ==> run !in Exec(l, trace).runs && !CutIn(trace, run)
  {
    if trace == [] {
      forall k ensures Minus(LogOf(l, k), {run}) == LogOf(l, k) {
        MinusNothing(LogOf(l, k), {run});
      }
    } else {
      var before, e := trace[..|trace| - 1], trace[|trace| - 1];
      CutRunTracks(l, before, run);
      var was, erased := Exec(l, before), Exec(l, Erase(before, run));
      CutIsRemembered(was, e, run);
      AgreeWithoutStep(was, erased, e, run);
      assert (Erase(before, run) + [e])[..|Erase(before, run)|] == Erase(before, run);
    }
  }

  lemma CutIsRemembered(l: Ledger, e: Event, run: Run)
    ensures InfoOf(l, run).cut || ReportsCut(e, run) ==> ByRun(e, run) ==> !FateOf(InfoOf(l, run), e).Confirmed?
    ensures run in Step(l, e).runs && (InfoOf(l, run).cut || ReportsCut(e, run)) ==> InfoOf(Step(l, e), run).cut
    ensures ByRun(e, run) && FateOf(InfoOf(l, run), e).Confirmed? ==> run !in Step(l, e).runs
    ensures !ByRun(e, run) ==> (run in l.runs <==> run in Step(l, e).runs)
  {
  }

  /** Undone as a whole: once a run that was cut has finished, and ever after, the history is, key by key and
      run by run, the one in which it never wrote or deleted anything, also after the cut. */
  lemma CutRunIsErased(l: Ledger, trace: seq<Event>, run: Run)
    requires OpenOnly(l) && run !in l.runs && NotReused(l, trace, run)
    requires CutIn(trace, run) && run !in Exec(l, trace).runs
    ensures forall k :: LogOf(Exec(l, trace), k) == LogOf(Exec(l, Erase(trace, run)), k)
    ensures forall k :: Visible(LogOf(Exec(l, trace), k)) == Visible(LogOf(Exec(l, Erase(trace, run)), k))
    ensures Exec(l, trace).runs == Exec(l, Erase(trace, run)).runs
  {
    CutRunTracks(l, trace, run);
    ReachableOpenOnly(l, trace);
    var end, erased := Exec(l, trace), Exec(l, Erase(trace, run));
    forall k ensures LogOf(end, k) == LogOf(erased, k) {
      MinusNothing(LogOf(end, k), {run});
    }
    forall q ensures q in end.runs <==> q in erased.runs
             ensures q in end.runs ==> end.runs[q] == erased.runs[q] {
      assert InfoOf(end, q) == InfoOf(erased, q);
    }
  }

  // ---------------------------------------------------------------------------------------------
  // A run nobody cut is worth its permanent writes, at every moment
  // ---------------------------------------------------------------------------------------------

  ghost predicate AgreeConfirmed(l: Ledger, m: Ledger, run: Run) {
    RunsAgree(l, m, run) && forall k :: Confirm(LogOf(l, k), run) == LogOf(m, k)
  }

  lemma AgreeConfirmedStep(l: Ledger, m: Ledger, e: Event, run: Run)
    requires AgreeConfirmed(l, m, run) && !InfoOf(l, run).cut && !ReportsCut(e, run)
    ensures AgreeConfirmed(Step(l, e), Step(m, if WritesFor(e, run) then Unscoped(e) else e), run)
    ensures !InfoOf(Step(l, e), run).cut
  {
    RunsAgreeStep(l, m, e, run);
    var f := if WritesFor(e, run) then Unscoped(e) else e;
    forall k ensures Confirm(LogOf(Step(l, e), k), run) == LogOf(Step(m, f), k) {
      ConfirmedKey(l, m, e, run, k);
    }
  }

  lemma ConfirmedKey(l: Ledger, m: Ledger, e: Event, run: Run, key: Key)
    requires Confirm(LogOf(l, key), run) == LogOf(m, key)
    requires !e.Write? && !e.Delete? ==> InfoOf(l, e.run) == InfoOf(m, e.run)
    requires !InfoOf(l, run).cut && !ReportsCut(e, run)
    ensures Confirm(LogOf(Step(l, e), key), run) == LogOf(Step(m, if WritesFor(e, run) then Unscoped(e) else e), key)
  {
    LogAfter(l, e, key);
    LogAfter(m, if WritesFor(e, run) then Unscoped(e) else e, key);
    if !e.Write? && !e.Delete? {
      SufferConfirm(LogOf(l, key), e.run, FateOf(InfoOf(l, e.run), e), run);
    }
  }

  lemma SufferConfirm(log: Log, q: Run, fate: Fate, run: Run)
    requires q == run ==> !fate.Undone?
    ensures Confirm(Suffer(log, q, fate), run) == Suffer(Confirm(log, run), q, fate)
  {
    if q != run {
      MinusConfirm(log, q, run);
    }
  }

  /** Confirmed as a whole: while no part of a run reports a cut, every key is worth, at every
      moment, what it would be worth had the run written outside any run. */
  lemma {:induction false} UncutRunIsPublished(l: Ledger, trace: seq<Event>, run: Run)
    requires OpenOnly(l) && run !in l.runs && !CutIn(trace, run)
    ensures AgreeConfirmed(Exec(l, trace), Exec(l, Publish(trace, run)), run)
    ensures forall k :: Visible(LogOf(Exec(l, trace), k)) == Visible(LogOf(Exec(l, Publish(trace, run)), k))
    ensures !InfoOf(Exec(l, trace), run).cut
  {
    if trace == [] {
      forall k ensures Confirm(LogOf(l, k), run) == LogOf(l, k) {
        ConfirmNothing(LogOf(l, k), run);
      }
    } else {
      var before, e := trace[..|trace| - 1], trace[|trace| - 1];
      UncutRunIsPublished(l, before, run);
      AgreeConfirmedStep(Exec(l, before), Exec(l, Publish(before, run)), e, run);
      var p := Publish(before, run);
      assert Publish(trace, run)[..|p|] == p;
    }
    SameWorth(Exec(l, trace), Exec(l, Publish(trace, run)), run);
  }

  lemma SameWorth(l: Ledger, m: Ledger, run: Run)
    requires AgreeConfirmed(l, m, run)
    ensures forall k :: Visible(LogOf(l, k)) == Visible(LogOf(m, k))
  {
    forall k ensures Visible(LogOf(l, k)) == Visible(LogOf(m, k)) {
      assert Confirm(LogOf(l, k), run) == LogOf(m, k);
    }
  }

  // ---------------------------------------------------------------------------------------------
  // When a run finishes
  // ---------------------------------------------------------------------------------------------

  function Launched(trace: seq<Event>, run: Run): nat {
    if trace == [] then 0
    else Launched(trace[..|trace| - 1], run) + if trace[|trace| - 1] == AgentStarted(run) then 1 else 0
  }

  function Ended(trace: seq<Event>, run: Run): nat {
    if trace == [] then 0
    else
      var e := trace[|trace| - 1];
      Ended(trace[..|trace| - 1], run) + if e.AgentDone? && e.run == run then 1 else 0
  }

  predicate OwnerClosed(trace: seq<Event>, run: Run) {
    trace != [] &&
    var e := trace[|trace| - 1];
    OwnerClosed(trace[..|trace| - 1], run) || (e.CloseRun? && e.run == run)
  }

  /** No agent ends that was not launched before. */
  predicate Balanced(trace: seq<Event>, run: Run) {
    trace == [] || (Balanced(trace[..|trace| - 1], run) && Ended(trace, run) <= Launched(trace, run))
  }

  /** A run finishes exactly when its owner has closed and every launched agent has ended, whichever
      of them was last; from then on no log names it, so it is confirmed or undone once. */
  lemma {:induction false} FinishesWhenLastPartEnds(l: Ledger, trace: seq<Event>, run: Run)
    requires OpenOnly(l) && run !in l.runs && NotReused(l, trace, run)
    requires Balanced(trace, run) && Touched(trace, run)
    ensures run !in Exec(l, trace).runs <==> OwnerClosed(trace, run) && Launched(trace, run) == Ended(trace, run)
    ensures run in Exec(l, trace).runs ==>
      Exec(l, trace).runs[run]
        == RunInfo(Launched(trace, run) - Ended(trace, run), OwnerClosed(trace, run), CutIn(trace, run))
    ensures run !in Exec(l, trace).runs ==> forall k :: run !in RunsIn(LogOf(Exec(l, trace), k))
  {
    ReachableOpenOnly(l, trace);
    var before, e := trace[..|trace| - 1], trace[|trace| - 1];
    if Touched(before, run) {
      FinishesWhenLastPartEnds(l, before, run);
    } else {
      Untouched(l, before, run);
    }
  }

  lemma {:induction false} Untouched(l: Ledger, trace: seq<Event>, run: Run)
    requires run !in l.runs && !Touched(trace, run)
    ensures run !in Exec(l, trace).runs && !CutIn(trace, run) && !OwnerClosed(trace, run)
    ensures Launched(trace, run) == 0 && Ended(trace, run) == 0
  {
    if trace != [] {
      Untouched(l, trace[..|trace| - 1], run);
    }
  }

  /** The owner's close and the end of an agent commute: same logs, same runs, cut or not. */
  lemma CloseAndAgentDoneCommute(l: Ledger, run: Run, ownerCut: bool, agentCut: bool)
    requires InfoOf(l, run).live > 0 && !InfoOf(l, run).closed
    ensures Step(Step(l, CloseRun(run, ownerCut)), AgentDone(run, agentCut))
         == Step(Step(l, AgentDone(run, agentCut)), CloseRun(run, ownerCut))
  {
    var a := Step(Step(l, CloseRun(run, ownerCut)), AgentDone(run, agentCut));
    var b := Step(Step(l, AgentDone(run, agentCut)), CloseRun(run, ownerCut));
    forall k | k in l.logs ensures a.logs[k] == b.logs[k] {
      var log := l.logs[k];
      MinusUnion(log, {run}, {run});
      assert {run} + {run} == {run};
    }
    assert a.logs == b.logs;
    assert a.runs == b.runs;
  }
}
