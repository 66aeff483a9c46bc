/**
 What the blackboard keeps of a log: the highest entry of each open run above the highest permanent
 entry, and that permanent entry as the base. Nothing below can be seen again, whichever of the open
 runs are undone.
 */
module Compaction {
  import opened Wrappers
  import opened Journal

  /** From the top down: the highest entry of each open run not in `seen`, stopping at a permanent one. */
  function TopDown(log: Log, seen: set<Run>): Log {
    if log == [] then []
    else
      var rest, last := log[..|log| - 1], log[|log| - 1];
      if last.scope.None? then []
      else if last.scope.value in seen then TopDown(rest, seen)
      else TopDown(rest, seen + {last.scope.value}) + [last]
  }

  /** What the highest permanent entry left (`None` = the key did not exist). */
  function BaseOf(log: Log): Option<Entry> {
    if log == [] then None
    else if log[|log| - 1].scope.None? then log[|log| - 1].entry
    else BaseOf(log[..|log| - 1])
  }

  function Compacted(log: Log): Log {
    [Logged(None, BaseOf(log))] + TopDown(log, {})
  }

  lemma {:induction false} TopDownIsOpen(log: Log, seen: set<Run>)
    ensures forall v :: v in TopDown(log, seen) ==> v.scope.Some? && v.scope.value !in seen
    ensures RunsIn(TopDown(log, seen)) !! seen
    ensures RunsIn(TopDown(log, seen)) <= RunsIn(log)
  {
    if log != [] {
      var rest, last := log[..|log| - 1], log[|log| - 1];
      if last.scope.Some? {
        TopDownIsOpen(rest, seen);
        var deeper := TopDown(rest, seen + {last.scope.value});
        TopDownIsOpen(rest, seen + {last.scope.value});
        assert (deeper + [last])[..|deeper|] == deeper;
      }
    }
  }

  /** At most one entry per run. */
  lemma {:induction false} TopDownIsInjective(log: Log, seen: set<Run>)
    ensures forall i, j :: 0 <= i < j < |TopDown(log, seen)| ==>
      TopDown(log, seen)[i].scope != TopDown(log, seen)[j].scope
  {
    if log != [] {
      var rest, last := log[..|log| - 1], log[|log| - 1];
      if last.scope.Some? {
        TopDownIsInjective(rest, seen);
        TopDownIsInjective(rest, seen + {last.scope.value});
        TopDownIsOpen(rest, seen + {last.scope.value});
      }
    }
  }

  lemma {:induction false} ScopesIn(log: Log, i: nat)
    requires i < |log| && log[i].scope.Some?
    ensures log[i].scope.value in RunsIn(log)
  {
    if i < |log| - 1 {
      ScopesIn(log[..|log| - 1], i);
    }
  }

  lemma {:induction false} TopDownSkips(log: Log, seen: set<Run>, runs: set<Run>)
    ensures TopDown(log, seen + runs) == Minus(TopDown(log, seen), runs)
  {
    if log != [] {
      var rest, last := log[..|log| - 1], log[|log| - 1];
      if last.scope.Some? {
        var r := last.scope.value;
        TopDownSkips(rest, seen, runs);
        TopDownSkips(rest, seen + {r}, runs);
        MinusAppend(TopDown(rest, seen + {r}), last, runs);
        assert seen + {r} + runs == seen + runs + {r};
        if r in runs {
          assert seen + {r} + runs == seen + runs;
        }
      }
    }
  }

  lemma {:induction false} TopDownOfMinus(log: Log, seen: set<Run>, runs: set<Run>)
    ensures TopDown(Minus(log, runs), seen) == TopDown(log, seen + runs)
    ensures BaseOf(Minus(log, runs)) == BaseOf(log)
  {
    if log != [] {
      var rest, last := log[..|log| - 1], log[|log| - 1];
      TopDownOfMinus(rest, seen, runs);
      if last.scope.Some? && last.scope.value !in runs {
        var r := last.scope.value;
        var kept := Minus(rest, runs);
        assert (kept + [last])[..|kept|] == kept;
        TopDownOfMinus(rest, seen + {r}, runs);
        assert seen + {r} + runs == seen + runs + {r};
      }
    }
  }

  lemma {:induction false} MinusBase(base: Option<Entry>, versions: Log, runs: set<Run>)
    ensures Minus([Logged(None, base)] + versions, runs) == [Logged(None, base)] + Minus(versions, runs)
  {
    MinusConcat([Logged(None, base)], versions, runs);
    assert [Logged(None, base)][..0] == [];
  }

  /** Undoing runs before or after compacting is the same. */
  lemma CompactedMinus(log: Log, runs: set<Run>)
    ensures Compacted(Minus(log, runs)) == Minus(Compacted(log), runs)
  {
    TopDownOfMinus(log, {}, runs);
    TopDownSkips(log, {}, runs);
    MinusBase(BaseOf(log), TopDown(log, {}), runs);
  }

  lemma {:induction false} VisibleTop(log: Log)
    ensures Visible(Compacted(log)) == Visible(log)
  {
    if log != [] && log[|log| - 1].scope.Some? {
      var c := Compacted(log);
      assert c[|c| - 1] == log[|log| - 1];
    }
  }

  /** The compact form is worth what the full log is worth, whichever open runs are undone. */
  lemma CompactionIsInvisible(log: Log, undone: set<Run>)
    ensures Visible(Minus(Compacted(log), undone)) == Visible(Minus(log, undone))
  {
    CompactedMinus(log, undone);
    VisibleTop(Minus(log, undone));
  }

  lemma {:induction false} BaseOver(base: Option<Entry>, versions: Log)
    requires forall v :: v in versions ==> v.scope.Some?
    ensures BaseOf([Logged(None, base)] + versions) == base
    ensures forall seen :: TopDown([Logged(None, base)] + versions, seen) == TopDown(versions, seen)
  {
    var log := [Logged(None, base)] + versions;
    if versions == [] {
      assert log == [Logged(None, base)];
    } else {
      var n := |versions| - 1;
      BaseOver(base, versions[..n]);
      assert log[..|log| - 1] == [Logged(None, base)] + versions[..n];
      assert versions[n] in versions;
    }
  }

  lemma {:induction false} TopDownConfirm(log: Log, seen: set<Run>, run: Run)
    requires run !in seen
    ensures TopDown(Confirm(TopDown(log, seen), run), seen) == TopDown(Confirm(log, run), seen)
    ensures BaseOf(Confirm([Logged(None, BaseOf(log))] + TopDown(log, seen), run)) == BaseOf(Confirm(log, run))
  {
    if log != [] {
      var rest, last := log[..|log| - 1], log[|log| - 1];
      assert Confirm(log, run)[..|log| - 1] == Confirm(rest, run);
      var base := Logged(None, BaseOf(log));
      if last.scope.None? {
        assert Confirm([base] + TopDown(log, seen), run) == [base];
      } else if last.scope.value in seen {
        TopDownConfirm(rest, seen, run);
      } else {
        var deeper := TopDown(rest, seen + {last.scope.value});
        var whole := Confirm([base] + (deeper + [last]), run);
        assert whole[..|whole| - 1] == Confirm([base] + deeper, run);
        assert Confirm(deeper + [last], run)[..|deeper|] == Confirm(deeper, run);
        if last.scope.value != run {
          TopDownConfirm(rest, seen + {last.scope.value}, run);
        }
      }
    } else {
      assert Confirm([Logged(None, None)] + [], run) == [Logged(None, None)];
    }
  }

  /** Confirming a run in the full log or in its compact form compacts to the same. */
  lemma CompactedConfirm(log: Log, run: Run)
    ensures Compacted(Confirm(Compacted(log), run)) == Compacted(Confirm(log, run))
  {
    TopDownConfirm(log, {}, run);
    TopDownIsOpen(log, {});
    var base, kept := BaseOf(log), TopDown(log, {});
    assert Confirm([Logged(None, base)] + kept, run) == [Logged(None, base)] + Confirm(kept, run);
    ConfirmedBase(base, Confirm(kept, run));
  }

  lemma {:induction false} ConfirmedBase(base: Option<Entry>, versions: Log)
    ensures forall seen :: TopDown([Logged(None, base)] + versions, seen) == TopDown(versions, seen)
  {
    var log := [Logged(None, base)] + versions;
    if versions == [] {
      assert log == [Logged(None, base)];
    } else {
      ConfirmedBase(base, versions[..|versions| - 1]);
      assert log[..|log| - 1] == [Logged(None, base)] + versions[..|versions| - 1];
    }
  }

  /** Compacting what is compact, with one more entry on top, is compacting the whole log. */
  lemma CompactedAppend(log: Log, entry: Logged)
    ensures Compacted(Compacted(log) + [entry]) == Compacted(log + [entry])
  {
    var c := Compacted(log);
    assert (c + [entry])[..|c|] == c && (log + [entry])[..|log|] == log;
    if entry.scope.Some? {
      var r := entry.scope.value;
      TopDownIsOpen(log, {});
      TopDownIsInjective(log, {});
      var kept := TopDown(log, {});
      BaseOver(BaseOf(log), kept);
      TopDownSkips(log, {}, {r});
      TopDownOfCompact(kept, {r});
      assert {} + {r} == {r};
    }
  }

  lemma {:induction false} TopDownOfCompact(kept: Log, seen: set<Run>)
    requires forall v :: v in kept ==> v.scope.Some?
    requires forall i, j :: 0 <= i < j < |kept| ==> kept[i].scope != kept[j].scope
    ensures TopDown(kept, seen) == Minus(kept, seen)
  {
    if kept != [] {
      var rest, last := kept[..|kept| - 1], kept[|kept| - 1];
      assert last in kept;
      assert forall v :: v in rest ==> v in kept;
      var r := last.scope.value;
      TopDownOfCompact(rest, seen);
      TopDownOfCompact(rest, seen + {r});
      MinusUnion(rest, seen, {r});
      if r !in seen {
        RunsOfMinus(rest, seen);
        forall v | v in rest ensures v.scope != last.scope {
          var i :| 0 <= i < |rest| && rest[i] == v;
          assert kept[i].scope != kept[|kept| - 1].scope;
        }
        Absent(rest, r);
        MinusNothing(Minus(rest, seen), {r});
      }
    }
  }

  lemma {:induction false} Absent(log: Log, run: Run)
    requires forall v :: v in log ==> v.scope != Some(run)
    ensures run !in RunsIn(log)
  {
    if log != [] {
      assert log[|log| - 1] in log;
      Absent(log[..|log| - 1], run);
    }
  }

  lemma CompactedTwice(log: Log)
    ensures Compacted(Compacted(log)) == Compacted(log)
  {
    var kept := TopDown(log, {});
    TopDownIsOpen(log, {});
    TopDownIsInjective(log, {});
    BaseOver(BaseOf(log), kept);
    TopDownOfCompact(kept, {});
    MinusNothing(kept, {});
  }

  /** A second entry of the run on top replaces the first. */
  lemma ReplaceTop(log: Log, kept: Log, run: Run, was: Option<Entry>, now: Option<Entry>)
    requires Compacted(log) == kept + [Logged(Some(run), was)]
    ensures Compacted(log + [Logged(Some(run), now)]) == kept + [Logged(Some(run), now)]
  {
    var open := TopDown(log, {});
    TopDownIsOpen(log, {});
    TopDownIsInjective(log, {});
    TopDownSkips(log, {}, {run});
    assert {} + {run} == {run};
    assert open != [] by { assert Compacted(log)[|kept|].scope == Some(run); }
    var below := open[..|open| - 1];
    assert open == below + [Logged(Some(run), was)] by { assert Compacted(log)[1..] == open; }
    MinusAppend(below, Logged(Some(run), was), {run});
    forall v | v in below ensures v.scope != Some(run) {
      var i :| 0 <= i < |below| && below[i] == v;
      assert open[i].scope != open[|open| - 1].scope;
    }
    Absent(below, run);
    MinusNothing(below, {run});
    assert (log + [Logged(Some(run), now)])[..|log|] == log;
    assert kept == [Logged(None, BaseOf(log))] + below;
  }

  // ---------------------------------------------------------------------------------------------
  // The runs named by the compact form
  // ---------------------------------------------------------------------------------------------

  function OpenIn(log: Log): set<Run> {
    RunsIn(Compacted(log))
  }

  lemma {:induction false} RunsOfConcat(a: Log, b: Log)
    ensures RunsIn(a + b) == RunsIn(a) + RunsIn(b)
  {
    if b == [] {
      assert a + b == a;
    } else {
      var n := |b| - 1;
      RunsOfConcat(a, b[..n]);
      assert (a + b)[..|a + b| - 1] == a + b[..n];
    }
  }

  lemma OpenInIsKept(log: Log)
    ensures OpenIn(log) == RunsIn(TopDown(log, {}))
    ensures OpenIn(log) <= RunsIn(log)
  {
    RunsOfConcat([Logged(None, BaseOf(log))], TopDown(log, {}));
    assert [Logged(None, BaseOf(log))][..0] == [];
    TopDownIsOpen(log, {});
  }

  lemma OpenInAppend(log: Log, v: Logged)
    ensures OpenIn(log + [v]) <= OpenIn(log) + (if v.scope.Some? then {v.scope.value} else {})
  {
    CompactedAppend(log, v);
    OpenInIsKept(Compacted(log) + [v]);
    RunsOfConcat(Compacted(log), [v]);
    assert [v][..0] == [];
  }

  lemma OpenInMinus(log: Log, run: Run)
    ensures OpenIn(Minus(log, {run})) == OpenIn(log) - {run}
    ensures run !in OpenIn(log) ==> Compacted(Minus(log, {run})) == Compacted(log)
  {
    CompactedMinus(log, {run});
    RunsOfMinus(Compacted(log), {run});
    if run !in OpenIn(log) {
      MinusNothing(Compacted(log), {run});
    }
  }

  lemma OpenInConfirm(log: Log, run: Run)
    ensures OpenIn(Confirm(log, run)) <= OpenIn(log) - {run}
    ensures run !in OpenIn(log) ==> Compacted(Confirm(log, run)) == Compacted(log)
  {
    CompactedConfirm(log, run);
    RunsOfConfirm(Compacted(log), run);
    OpenInIsKept(Confirm(Compacted(log), run));
    if run !in OpenIn(log) {
      ConfirmNothing(Compacted(log), run);
      CompactedTwice(log);
    }
  }
}
