/**
 The blackboard: shared keys that many runs write and delete at the same time. For each key touched by
 an open run it keeps a chain, a base and at most one version per open run, instead of the whole log
 of `Journal`. Each locked section of the source is one method.

 The ghost `trace` is everything that happened so far. `Valid` says that the data, the chains and the
 run table are what that history compacts to.
 */
module Blackboard {
  import opened Wrappers
  import opened Values
  import opened Journal
  import opened Compaction
  import opened AllOrNothing

  /** `saved` is the entry as this version left it; the top version's is the live one, not copied. */
  datatype Version = Version(scope: Option<Run>, saved: Option<Option<Entry>>)

  datatype Chain = Chain(base: Option<Entry>, versions: seq<Version>)

  datatype RunState = RunState(live: nat, closed: bool, cut: bool, keys: seq<Key>)

  function Filled(versions: seq<Version>, live: Option<Entry>): Log {
    seq(|versions|, i requires 0 <= i < |versions| =>
      Logged(versions[i].scope, if versions[i].saved.Some? then versions[i].saved.value else live))
  }

  /** The log a chain stands for: its base is permanent. */
  function AsLog(c: Chain, live: Option<Entry>): Log {
    [Logged(None, c.base)] + Filled(c.versions, live)
  }

  predicate OnlyTopUnsaved(versions: seq<Version>) {
    forall i :: 0 <= i < |versions| ==> (versions[i].saved.None? <==> i == |versions| - 1)
  }

  /** A key with live entry `live` and chain `c` holds exactly the compact form of `log`. */
  ghost predicate Holds(log: Log, live: Option<Entry>, c: Option<Chain>) {
    if c.None? then Compacted(log) == [Logged(None, live)]
    else c.value.versions != [] && OnlyTopUnsaved(c.value.versions) && Compacted(log) == AsLog(c.value, live)
  }

  lemma HoldsMeansVisible(log: Log, live: Option<Entry>, c: Option<Chain>)
    requires Holds(log, live, c)
    ensures live == Visible(log)
    ensures c.Some? ==> c.value.versions[|c.value.versions| - 1].scope.Some?
  {
    VisibleTop(log);
    if c.Some? {
      OpenScopes(log, live, c.value);
    }
  }

  /** A chain holds only open versions, at most one per run, and they are the runs of the log it stands for. */
  lemma OpenScopes(log: Log, live: Option<Entry>, c: Chain)
    requires Holds(log, live, Some(c))
    ensures forall i :: 0 <= i < |c.versions| ==> c.versions[i].scope.Some? && c.versions[i].scope.value in OpenIn(log)
    ensures forall i, j :: 0 <= i < j < |c.versions| ==> c.versions[i].scope != c.versions[j].scope
  {
    TopDownIsOpen(log, {});
    TopDownIsInjective(log, {});
    var kept := TopDown(log, {});
    assert kept == Filled(c.versions, live) by {
      assert Compacted(log)[1..] == kept && AsLog(c, live)[1..] == Filled(c.versions, live);
    }
    OpenInIsKept(log);
    forall i | 0 <= i < |c.versions|
      ensures c.versions[i].scope.Some? && c.versions[i].scope.value in OpenIn(log)
    {
      assert kept[i] in kept && kept[i].scope == c.versions[i].scope;
      ScopesIn(kept, i);
    }
    forall i, j | 0 <= i < j < |c.versions| ensures c.versions[i].scope != c.versions[j].scope {
      assert kept[i].scope != kept[j].scope;
    }
  }

  /** One step of `TopDown` and `BaseOf` on a prefix of a log. */
  lemma LookBelow(log: Log, n: nat, seen: set<Run>)
    requires n < |log|
    ensures TopDown(log[..n + 1], seen)
         == if log[n].scope.None? then []
            else if log[n].scope.value in seen then TopDown(log[..n], seen)
            else TopDown(log[..n], seen + {log[n].scope.value}) + [log[n]]
    ensures BaseOf(log[..n + 1]) == if log[n].scope.None? then log[n].entry else BaseOf(log[..n])
  {
    assert log[..n + 1][..n] == log[..n];
  }

  function Runs(versions: seq<Version>): set<Run> {
    if versions == [] then {}
    else (if versions[0].scope.Some? then {versions[0].scope.value} else {}) + Runs(versions[1..])
  }

  lemma {:induction false} RunsIff(versions: seq<Version>, run: Run)
    ensures run in Runs(versions) <==> exists v :: v in versions && v.scope == Some(run)
  {
    if versions != [] {
      RunsIff(versions[1..], run);
      assert versions == [versions[0]] + versions[1..];
    }
  }

  /** Of the chain's versions, those from `i` up have been looked at and `kept` are the ones that stay. */
  ghost predicate Scanned(c: Chain, live: Option<Entry>, i: nat, kept: seq<Version>) {
    var log := AsLog(c, live);
    && i <= |c.versions|
    && OnlyTopUnsaved(kept)
    && (kept == [] <==> i == |c.versions|)
    && TopDown(log, {}) == TopDown(log[..i + 1], Runs(kept)) + Filled(kept, live)
    && BaseOf(log) == BaseOf(log[..i + 1])
  }

  lemma ScanStart(c: Chain, live: Option<Entry>)
    ensures Scanned(c, live, |c.versions|, [])
  {
    var log := AsLog(c, live);
    assert log[..|c.versions| + 1] == log;
  }

  lemma Regroup(low: Log, v: Logged, high: Log)
    ensures low + [v] + high == low + ([v] + high)
  {
  }

  lemma ScanLog(log: Log, n: nat, seen: set<Run>, above: Log)
    requires n < |log| && log[n].scope.Some?
    requires TopDown(log, {}) == TopDown(log[..n + 1], seen) + above && BaseOf(log) == BaseOf(log[..n + 1])
    ensures BaseOf(log) == BaseOf(log[..n])
    ensures TopDown(log, {})
         == if log[n].scope.value in seen then TopDown(log[..n], seen) + above
            else TopDown(log[..n], seen + {log[n].scope.value}) + ([log[n]] + above)
  {
    LookBelow(log, n, seen);
    Regroup(TopDown(log[..n], seen + {log[n].scope.value}), log[n], above);
  }

  lemma ScanNext(c: Chain, live: Option<Entry>, i: nat, kept: seq<Version>)
    requires OnlyTopUnsaved(c.versions) && Scanned(c, live, i + 1, kept)
    requires c.versions[i].scope.Some?
    ensures Scanned(c, live, i, if c.versions[i].scope.value in Runs(kept) then kept else [c.versions[i]] + kept)
  {
    var log, v := AsLog(c, live), c.versions[i];
    assert log[i + 1].scope == v.scope;
    ScanLog(log, i + 1, Runs(kept), Filled(kept, live));
    if v.scope.value !in Runs(kept) {
      var more := [v] + kept;
      assert Filled(more, live) == [log[i + 1]] + Filled(kept, live);
      assert more[1..] == kept;
      assert Runs(more) == Runs(kept) + {v.scope.value};
    }
  }

  /** A confirmed version, or the bottom, ends the scan: `base` is what it left. */
  lemma ScanEnd(c: Chain, live: Option<Entry>, i: nat, kept: seq<Version>, base: Option<Entry>)
    requires OnlyTopUnsaved(c.versions)
    requires Scanned(c, live, i, kept)
    requires var log := AsLog(c, live); log[i].scope.None? && log[i].entry == base
    ensures if kept != [] then Holds(AsLog(c, live), live, Some(Chain(base, kept)))
            else Compacted(AsLog(c, live)) == [Logged(None, base)]
  {
    LookBelow(AsLog(c, live), i, Runs(kept));
  }

  /** From the top down, keeps the highest version of each open run and stops at the first confirmed
      one, which becomes the base. `alive` is false when nothing open is left. */
  method CompactChain(c: Chain, ghost live: Option<Entry>) returns (alive: bool, r: Chain)
    requires OnlyTopUnsaved(c.versions)
    ensures alive ==> Holds(AsLog(c, live), live, Some(r))
    ensures !alive ==> c.versions == [] || Holds(AsLog(c, live), live, None)
  {
    var kept: seq<Version> := [];
    var i := |c.versions|;
    ScanStart(c, live);
    while i > 0
      invariant 0 <= i <= |c.versions| && Scanned(c, live, i, kept)
    {
      var v := c.versions[i - 1];
      if v.scope.None? {
        match v.saved
        case None =>
          ScanEnd(c, live, i, kept, live);
          return false, Chain(c.base, []);
        case Some(e) =>
          ScanEnd(c, live, i, kept, e);
          return kept != [], Chain(e, kept);
      }
      RunsIff(kept, v.scope.value);
      ScanNext(c, live, i - 1, kept);
      if !(exists k :: k in kept && k.scope == v.scope) {
        kept := [v] + kept;
      }
      i := i - 1;
    }
    ScanEnd(c, live, 0, kept, c.base);
    return kept != [], Chain(c.base, kept);
  }

  /** `IndexSet::insert`. */
  function Inserted(keys: seq<Key>, key: Key): seq<Key> {
    if key in keys then keys else keys + [key]
  }

  /** `Vec::retain` of the versions of the other runs. */
  function Retained(versions: seq<Version>, run: Run): seq<Version> {
    if versions == [] then []
    else
      var rest, last := Retained(versions[..|versions| - 1], run), versions[|versions| - 1];
      if Of(last.scope, run) then rest else rest + [last]
  }

  lemma {:induction false} RetainedIsMinus(versions: seq<Version>, run: Run, live: Option<Entry>)
    ensures Filled(Retained(versions, run), live) == Minus(Filled(versions, live), {run})
  {
    if versions != [] {
      var n := |versions| - 1;
      RetainedIsMinus(versions[..n], run, live);
      assert Filled(versions, live)[..n] == Filled(versions[..n], live);
    }
  }

  lemma {:induction false} RetainedSaved(versions: seq<Version>, run: Run)
    ensures forall v :: v in Retained(versions, run) ==> v in versions && !Of(v.scope, run)
    ensures versions != [] && !Of(versions[|versions| - 1].scope, run) ==>
      Retained(versions, run) == Retained(versions[..|versions| - 1], run) + [versions[|versions| - 1]]
  {
    if versions != [] {
      RetainedSaved(versions[..|versions| - 1], run);
    }
  }

  /** Taking a run's versions out of a chain whose top belongs to another run leaves the live entry alone. */
  lemma UndoBelowTop(log: Log, live: Option<Entry>, c: Chain, run: Run)
    requires Holds(log, live, Some(c))
    requires !Of(c.versions[|c.versions| - 1].scope, run)
    ensures Holds(Minus(log, {run}), live, Some(Chain(c.base, Retained(c.versions, run))))
  {
    CompactedMinus(log, {run});
    RetainedIsMinus(c.versions, run, live);
    RetainedSaved(c.versions, run);
    RetainedSaved(c.versions[..|c.versions| - 1], run);
    MinusBase(c.base, Filled(c.versions, live), {run});
    var kept := Retained(c.versions, run);
    forall i | 0 <= i < |kept| - 1 ensures kept[i].saved.Some? {
      assert kept[i] in Retained(c.versions[..|c.versions| - 1], run);
    }
  }

  /** Taking out the top makes the version below it the live one. */
  lemma UndoTop(log: Log, live: Option<Entry>, c: Chain, run: Run)
    requires Holds(log, live, Some(c))
    requires Of(c.versions[|c.versions| - 1].scope, run)
    ensures var kept := Retained(c.versions, run);
      if kept == [] then Compacted(Minus(log, {run})) == [Logged(None, c.base)]
      else
        var top := kept[|kept| - 1];
        && top.saved.Some?
        && Holds(Minus(log, {run}), top.saved.value,
                 Some(Chain(c.base, kept[|kept| - 1 := top.(saved := None)])))
  {
    CompactedMinus(log, {run});
    RetainedIsMinus(c.versions, run, live);
    RetainedSaved(c.versions[..|c.versions| - 1], run);
    MinusBase(c.base, Filled(c.versions, live), {run});
    var kept := Retained(c.versions, run);
    forall i | 0 <= i < |kept| ensures kept[i].saved.Some? {
      assert kept[i] in Retained(c.versions[..|c.versions| - 1], run);
    }
    if kept != [] {
      var top := kept[|kept| - 1];
      assert Filled(kept[|kept| - 1 := top.(saved := None)], top.saved.value) == Filled(kept, live);
    }
  }

  /** The versions with those of one run confirmed. */
  function Sealed(versions: seq<Version>, run: Run): seq<Version> {
    seq(|versions|, i requires 0 <= i < |versions| =>
      if Of(versions[i].scope, run) then versions[i].(scope := None) else versions[i])
  }

  // ---------------------------------------------------------------------------------------------
  // What the three structures hold between calls
  // ---------------------------------------------------------------------------------------------

  function At<T>(m: map<Key, T>, key: Key): Option<T> {
    if key in m then Some(m[key]) else None
  }

  function StateOf(runs: map<Run, RunState>, run: Run): RunState {
    if run in runs then runs[run] else RunState(0, false, false, [])
  }

  /** The run table once `run` has opened a version of `key`. */
  function Touch(runs: map<Run, RunState>, scope: Option<Run>, key: Key): map<Run, RunState> {
    if scope.None? then runs
    else runs[scope.value := StateOf(runs, scope.value).(keys := Inserted(StateOf(runs, scope.value).keys, key))]
  }

  /** Every run with a version of `key` has the key among its keys. */
  ghost predicate KeyIndexed(log: Log, key: Key, runs: map<Run, RunState>) {
    forall r :: r in OpenIn(log) ==> r in runs && key in runs[r].keys
  }

  ghost predicate Indexed(l: Ledger, runs: map<Run, RunState>) {
    forall k :: KeyIndexed(LogOf(l, k), k, runs)
  }

  ghost predicate HoldsAll(l: Ledger, data: map<Key, Entry>, chains: map<Key, Chain>) {
    forall k :: Holds(LogOf(l, k), At(data, k), At(chains, k))
  }

  function Info(s: RunState): RunInfo {
    RunInfo(s.live, s.closed, s.cut)
  }

  ghost predicate RunsMatch(l: Ledger, runs: map<Run, RunState>) {
    runs.Keys == l.runs.Keys && forall r :: r in runs ==> l.runs[r] == Info(runs[r])
  }

  lemma KeyIndexedAppend(log: Log, key: Key, runs: map<Run, RunState>, v: Logged)
    requires KeyIndexed(log, key, runs)
    ensures KeyIndexed(log + [v], key, Touch(runs, v.scope, key))
  {
    OpenInAppend(log, v);
  }

  /** A change to one key leaves the logs and the chains of the others alone. */
  lemma OthersKeep(l: Ledger, e: Event, key: Key, data: map<Key, Entry>, chains: map<Key, Chain>,
                   data': map<Key, Entry>, chains': map<Key, Chain>)
    requires (e.Write? || e.Delete?) && e.key == key
    requires HoldsAll(l, data, chains)
    requires Holds(LogOf(Step(l, e), key), At(data', key), At(chains', key))
    requires forall k :: k != key ==> At(data', k) == At(data, k) && At(chains', k) == At(chains, k)
    ensures HoldsAll(Step(l, e), data', chains')
  {
    forall k ensures Holds(LogOf(Step(l, e), k), At(data', k), At(chains', k)) {
      LogAfter(l, e, k);
      assert Holds(LogOf(l, k), At(data, k), At(chains, k));
    }
  }

  /** After a write or a delete, the key's new chain and the touched run keep everything in step. */
  lemma WriteKeeps(l: Ledger, e: Event, key: Key, data: map<Key, Entry>, chains: map<Key, Chain>, runs: map<Run,
                   RunState>)
    requires (e.Write? || e.Delete?) && e.key == key
    requires Indexed(l, runs) && RunsMatch(l, runs)
    requires HoldsAll(Step(l, e), data, chains)
    ensures Consistent(Step(l, e), data, chains, Touch(runs, e.scope, key))
  {
    hide OpenIn, Suffer, Minus, Confirm, Holds;
    forall k ensures KeyIndexed(LogOf(Step(l, e), k), k, Touch(runs, e.scope, key)) {
      LogAfter(l, e, k);
      assert KeyIndexed(LogOf(l, k), k, runs);
      if k == key {
        KeyIndexedAppend(LogOf(l, k), k, runs, LogOf(Step(l, e), k)[|LogOf(l, k)|]);
      }
    }
  }

  /** A write or a delete as a whole: the key's new chain is enough to carry the history one event on. */
  lemma Written(trace: seq<Event>, e: Event, key: Key, entry: Option<Entry>, data: map<Key, Entry>, chains: map<Key,
                Chain>,
                runs: map<Run, RunState>, data': map<Key, Entry>, chains': map<Key, Chain>)
    requires e.Write? || e.Delete?
    requires e.key == key && entry == if e.Write? then Some(Entry(e.value, e.agent)) else None
    requires Consistent(Exec(EMPTY, trace), data, chains, runs)
    requires Holds(LogOf(Exec(EMPTY, trace), key) + [Logged(e.scope, entry)], At(data', key), At(chains', key))
    requires forall k :: k != key ==> At(data', k) == At(data, k) && At(chains', k) == At(chains, k)
    ensures Consistent(Exec(EMPTY, trace + [e]), data', chains', Touch(runs, e.scope, key))
  {
    var l := Exec(EMPTY, trace);
    LogAfter(l, e, key);
    OthersKeep(l, e, key, data, chains, data', chains');
    WriteKeeps(l, e, key, data', chains', runs);
    ExecAppend(EMPTY, trace, e);
  }

  ghost predicate Consistent(l: Ledger, data: map<Key, Entry>, chains: map<Key, Chain>, runs: map<Run, RunState>) {
    HoldsAll(l, data, chains) && Indexed(l, runs) && RunsMatch(l, runs)
  }

  /** Undoing (or confirming) a run concerns only the keys among its keys. */
  lemma SufferElsewhere(log: Log, key: Key, live: Option<Entry>, c: Option<Chain>, runs: map<Run, RunState>, run: Run,
                        fate: Fate)
    requires Holds(log, live, c) && KeyIndexed(log, key, runs)
    requires key !in StateOf(runs, run).keys
    ensures Holds(Suffer(log, run, fate), live, c)
  {
    OpenInMinus(log, run);
    OpenInConfirm(log, run);
  }

  lemma SufferIndexed(log: Log, key: Key, runs: map<Run, RunState>, runs': map<Run, RunState>, run: Run, fate: Fate)
    requires KeyIndexed(log, key, runs)
    requires forall r :: r in runs && (r != run || fate.Kept?) ==> r in runs' && runs'[r].keys == runs[r].keys
    ensures KeyIndexed(Suffer(log, run, fate), key, runs')
  {
    OpenInMinus(log, run);
    OpenInConfirm(log, run);
  }

  /** Confirming a run's versions in a chain. */
  lemma SealChain(log: Log, live: Option<Entry>, c: Chain, run: Run)
    requires Holds(log, live, Some(c))
    ensures OnlyTopUnsaved(Sealed(c.versions, run))
    ensures Compacted(AsLog(Chain(c.base, Sealed(c.versions, run)), live)) == Compacted(Confirm(log, run))
  {
    CompactedConfirm(log, run);
    assert AsLog(Chain(c.base, Sealed(c.versions, run)), live) == Confirm(Compacted(log), run);
  }

  /** A key with no chain has nothing to undo or confirm. */
  lemma NothingOpen(log: Log, live: Option<Entry>, run: Run, fate: Fate)
    requires Holds(log, live, None)
    ensures Holds(Suffer(log, run, fate), live, None)
  {
    assert [Logged(None, live)][..0] == [];
    OpenInMinus(log, run);
    OpenInConfirm(log, run);
  }

  lemma CompactAgain(log: Log, live: Option<Entry>, c: Chain)
    requires Holds(log, live, Some(c))
    ensures forall d :: Holds(AsLog(c, live), live, d) <==> Holds(log, live, d)
  {
    CompactedTwice(log);
  }

  /** The log of a key while a run's keys are being walked. */
  function Midway(log: Log, run: Run, fate: Fate, walked: bool): Log {
    if walked then Suffer(log, run, fate) else log
  }

  ghost predicate HoldsMidway(l: Ledger, data: map<Key, Entry>, chains: map<Key, Chain>, run: Run, fate: Fate,
                              walked: seq<Key>) {
    forall k :: Holds(Midway(LogOf(l, k), run, fate, k in walked), At(data, k), At(chains, k))
  }

  ghost predicate HoldsSuffered(l: Ledger, data: map<Key, Entry>, chains: map<Key, Chain>, run: Run, fate: Fate) {
    forall k :: Holds(Suffer(LogOf(l, k), run, fate), At(data, k), At(chains, k))
  }

  lemma WalkStart(l: Ledger, data: map<Key, Entry>, chains: map<Key, Chain>, run: Run, fate: Fate)
    requires HoldsAll(l, data, chains)
    ensures HoldsMidway(l, data, chains, run, fate, [])
  {
    forall k ensures Holds(Midway(LogOf(l, k), run, fate, k in []), At(data, k), At(chains, k)) {
      assert Holds(LogOf(l, k), At(data, k), At(chains, k));
    }
  }

  lemma WalkNext(l: Ledger, data: map<Key, Entry>, chains: map<Key, Chain>, data': map<Key, Entry>, chains': map<Key,
                 Chain>,
                 run: Run, fate: Fate, walked: seq<Key>, key: Key)
    requires HoldsMidway(l, data, chains, run, fate, walked)
    requires Holds(Suffer(Midway(LogOf(l, key), run, fate, key in walked), run, fate), At(data', key), At(chains', key))
    requires forall k :: k != key ==> At(data', k) == At(data, k) && At(chains', k) == At(chains, k)
    ensures HoldsMidway(l, data', chains', run, fate, walked + [key])
  {
    forall k ensures Holds(Midway(LogOf(l, k), run, fate, k in walked + [key]), At(data', k), At(chains', k)) {
      if k == key {
        SufferTwice(LogOf(l, k), run, fate);
      } else {
        assert Holds(Midway(LogOf(l, k), run, fate, k in walked), At(data, k), At(chains, k));
      }
    }
  }

  lemma SufferTwice(log: Log, run: Run, fate: Fate)
    ensures Suffer(Suffer(log, run, fate), run, fate) == Suffer(log, run, fate)
  {
    MinusUnion(log, {run}, {run});
    assert {run} + {run} == {run};
    assert Confirm(Confirm(log, run), run) == Confirm(log, run);
  }

  lemma WalkEnd(l: Ledger, data: map<Key, Entry>, chains: map<Key, Chain>, runs: map<Run, RunState>, run: Run,
                fate: Fate)
    requires HoldsMidway(l, data, chains, run, fate, StateOf(runs, run).keys)
    requires Indexed(l, runs)
    ensures HoldsSuffered(l, data, chains, run, fate)
  {
    forall k ensures Holds(Suffer(LogOf(l, k), run, fate), At(data, k), At(chains, k)) {
      assert Holds(Midway(LogOf(l, k), run, fate, k in StateOf(runs, run).keys), At(data, k), At(chains, k));
      if k !in StateOf(runs, run).keys {
        assert KeyIndexed(LogOf(l, k), k, runs);
        SufferElsewhere(LogOf(l, k), k, At(data, k), At(chains, k), runs, run, fate);
      }
    }
  }

  lemma SameKeysIndexed(l: Ledger, runs: map<Run, RunState>, runs': map<Run, RunState>, run: Run)
    requires Indexed(l, runs)
    requires run in runs' && runs' == runs[run := runs'[run]] && runs'[run].keys == StateOf(runs, run).keys
    ensures Indexed(l, runs')
  {
    forall k ensures KeyIndexed(LogOf(l, k), k, runs') {
      assert KeyIndexed(LogOf(l, k), k, runs);
    }
  }

  lemma KeptHolds(l: Ledger, data: map<Key, Entry>, chains: map<Key, Chain>, run: Run)
    requires HoldsAll(l, data, chains)
    ensures HoldsSuffered(l, data, chains, run, Kept)
  {
    forall k ensures Holds(Suffer(LogOf(l, k), run, Kept), At(data, k), At(chains, k)) {
      assert Holds(LogOf(l, k), At(data, k), At(chains, k));
    }
  }

  /** What a part's event leaves behind is consistent: the logs as suffered, the table as settled. */
  lemma EventKeeps(l: Ledger, e: Event, data: map<Key, Entry>, chains: map<Key, Chain>,
                   runs: map<Run, RunState>, runs': map<Run, RunState>)
    requires !e.Write? && !e.Delete?
    requires Indexed(l, runs) && RunsMatch(l, runs)
    requires var fate := FateOf(InfoOf(l, e.run), e);
      && HoldsSuffered(l, data, chains, e.run, fate)
      && (e.run in runs' && fate.Kept? ==> runs'[e.run].keys == StateOf(runs, e.run).keys)
    requires forall r :: r != e.run ==> (r in runs <==> r in runs') && StateOf(runs, r) == StateOf(runs', r)
    requires e.run in runs' <==> !Finishes(InfoOf(l, e.run), e)
    requires e.run in runs' ==> Info(runs'[e.run]) == InfoAfter(InfoOf(l, e.run), e)
    ensures Consistent(Step(l, e), data, chains, runs')
  {
    var fate := FateOf(InfoOf(l, e.run), e);
    forall k ensures Holds(LogOf(Step(l, e), k), At(data, k), At(chains, k))
             ensures KeyIndexed(LogOf(Step(l, e), k), k, runs') {
      LogAfter(l, e, k);
      assert Holds(Suffer(LogOf(l, k), e.run, fate), At(data, k), At(chains, k));
      assert KeyIndexed(LogOf(l, k), k, runs);
      forall r | r in runs && (r != e.run || fate.Kept?) ensures r in runs' && runs'[r].keys == runs[r].keys {
        assert StateOf(runs, r) == runs[r];
      }
      SufferIndexed(LogOf(l, k), k, runs, runs', e.run, fate);
    }
    forall r ensures r in runs' <==> r in Step(l, e).runs
             ensures r in runs' ==> Step(l, e).runs[r] == Info(runs'[r]) {
      assert r != e.run ==> StateOf(runs, r) == StateOf(runs', r);
    }
  }

  /** `EventKeeps` for the end of a part, from the state `settled` in which the run was left to finish. */
  lemma EventSettles(l: Ledger, e: Event, data: map<Key, Entry>, chains: map<Key, Chain>,
                     runs: map<Run, RunState>, settled: map<Run, RunState>, runs': map<Run, RunState>)
    requires EndsPart(e) && Indexed(l, runs) && RunsMatch(l, runs)
    requires e.run in settled && settled == runs[e.run := settled[e.run]]
    requires Info(settled[e.run]) == InfoAfter(InfoOf(l, e.run), e)
    requires !settled[e.run].cut ==> settled[e.run].keys == StateOf(runs, e.run).keys
    requires var st := settled[e.run];
      var done := st.live == 0 && st.closed;
      && HoldsSuffered(l, data, chains, e.run, if st.cut then Undone else if done then Confirmed else Kept)
      && runs' == if done then settled - {e.run} else settled
    ensures Consistent(Step(l, e), data, chains, runs')
  {
    EventKeeps(l, e, data, chains, runs, runs');
  }

  lemma ExecAppend(l: Ledger, trace: seq<Event>, e: Event)
    ensures Exec(l, trace + [e]) == Step(Exec(l, trace), e)
  {
    assert (trace + [e])[..|trace|] == trace;
  }

  class Blackboard {
    var data: map<Key, Entry>
    var chains: map<Key, Chain>
    var runs: map<Run, RunState>
    ghost var trace: seq<Event>

    ghost predicate Valid()
      reads this
    {
      Consistent(Exec(EMPTY, trace), data, chains, runs)
    }

    constructor ()
      ensures Valid() && trace == []
      ensures data == map[] && chains == map[] && runs == map[]
    {
      data, chains, runs, trace := map[], map[], map[], [];
    }

    /** Notes that `key` is about to change on behalf of `scope`; `prev` is what it was worth, `now`
        what it will be, `log` the key's history so far. */
    method Record(key: Key, scope: Option<Run>, prev: Option<Entry>, ghost now: Option<Entry>, ghost log: Log)
      requires Holds(log, prev, At(chains, key)) && KeyIndexed(log, key, runs)
      modifies this`chains, this`runs
      ensures Holds(log + [Logged(scope, now)], now, At(chains, key))
      ensures forall k :: k != key ==> At(chains, k) == At(old(chains), k)
      ensures runs == Touch(old(runs), scope, key)
    {
      if key !in chains {
        NewChain(log, prev, scope, now);
        if scope.Some? {
          runs := Touch(runs, scope, key);
          chains := chains[key := Chain(prev, [Version(scope, None)])];
        }
        return;
      }
      var chain := chains[key];
      HoldsMeansVisible(log, prev, Some(chain));
      OpenScopes(log, prev, chain);
      var top := |chain.versions| - 1;
      if chain.versions[top].scope == scope {
        SameRunOnTop(log, prev, chain, now);
        assert runs == Touch(runs, scope, key);
        return;
      }
      var grown := Chain(chain.base,
        chain.versions[top := chain.versions[top].(saved := Some(prev))] + [Version(scope, None)]);
      PushVersion(log, prev, chain, scope, now);
      var alive, compact := CompactChain(grown, now);
      chains := if alive then chains[key := compact] else chains - {key};
      runs := Touch(runs, scope, key);
    }

    /** Takes the run's versions out of one key: the key is left at the highest that survives. */
    method UndoKey(run: Run, key: Key, ghost log: Log)
      requires Holds(log, At(data, key), At(chains, key))
      modifies this`data, this`chains
      ensures Holds(Minus(log, {run}), At(data, key), At(chains, key))
      ensures forall k :: k != key ==> At(data, k) == At(old(data), k) && At(chains, k) == At(old(chains), k)
    {
      if key !in chains {
        NothingOpen(log, At(data, key), run, Undone);
        return;
      }
      var chain := chains[key];
      var topWasMine := Of(chain.versions[|chain.versions| - 1].scope, run);
      var kept := Retained(chain.versions, run);
      if !topWasMine {
        UndoBelowTop(log, At(data, key), chain, run);
        chains := chains[key := Chain(chain.base, kept)];
        return;
      }
      UndoTop(log, At(data, key), chain, run);
      var now: Option<Entry>;
      if kept != [] {
        var top := kept[|kept| - 1];
        now := top.saved.value;
        chain := Chain(chain.base, kept[|kept| - 1 := top.(saved := None)]);
        CompactAgain(Minus(log, {run}), now, chain);
      } else {
        now := chain.base;
        chain := Chain(None, []);
      }
      data := if now.Some? then data[key := now.value] else data - {key};
      var alive, compact := CompactChain(chain, now);
      chains := if alive then chains[key := compact] else chains - {key};
    }

    /** Confirms the run's versions in one key. */
    method ConfirmKey(run: Run, key: Key, ghost log: Log)
      requires Holds(log, At(data, key), At(chains, key))
      modifies this`chains
      ensures Holds(Confirm(log, run), At(data, key), At(chains, key))
      ensures forall k :: k != key ==> At(chains, k) == At(old(chains), k)
    {
      if key !in chains {
        NothingOpen(log, At(data, key), run, Confirmed);
        return;
      }
      var chain := chains[key];
      SealChain(log, At(data, key), chain, run);
      var alive, compact := CompactChain(Chain(chain.base, Sealed(chain.versions, run)), At(data, key));
      chains := if alive then chains[key := compact] else chains - {key};
    }

    /** Undoes what the run wrote and did not confirm, by the keys it has open. */
    method Rollback(run: Run, ghost l: Ledger)
      requires HoldsAll(l, data, chains) && Indexed(l, runs)
      modifies this`data, this`chains, this`runs
      ensures HoldsSuffered(l, data, chains, run, Undone)
      ensures runs == old(runs)[run := StateOf(old(runs), run).(keys := [])]
    {
      var keys := StateOf(runs, run).keys;
      runs := runs[run := StateOf(runs, run).(keys := [])];
      WalkStart(l, data, chains, run, Undone);
      for i := 0 to |keys|
        invariant HoldsMidway(l, data, chains, run, Undone, keys[..i])
        invariant runs == old(runs)[run := StateOf(old(runs), run).(keys := [])]
      {
        ghost var log := Midway(LogOf(l, keys[i]), run, Undone, keys[i] in keys[..i]);
        ghost var data0, chains0 := data, chains;
        assert Holds(log, At(data, keys[i]), At(chains, keys[i]));
        UndoKey(run, keys[i], log);
        WalkNext(l, data0, chains0, data, chains, run, Undone, keys[..i], keys[i]);
        assert keys[..i + 1] == keys[..i] + [keys[i]];
      }
      assert keys[..|keys|] == keys;
      WalkEnd(l, data, chains, old(runs), run, Undone);
    }

    /** Confirms everything the run wrote, by the keys it has open. */
    method Commit(run: Run, ghost l: Ledger)
      requires HoldsAll(l, data, chains) && Indexed(l, runs)
      modifies this`chains, this`runs
      ensures HoldsSuffered(l, data, chains, run, Confirmed)
      ensures runs == old(runs)[run := StateOf(old(runs), run).(keys := [])]
    {
      var keys := StateOf(runs, run).keys;
      runs := runs[run := StateOf(runs, run).(keys := [])];
      WalkStart(l, data, chains, run, Confirmed);
      for i := 0 to |keys|
        invariant HoldsMidway(l, data, chains, run, Confirmed, keys[..i])
        invariant runs == old(runs)[run := StateOf(old(runs), run).(keys := [])]
      {
        ghost var log := Midway(LogOf(l, keys[i]), run, Confirmed, keys[i] in keys[..i]);
        ghost var chains0 := chains;
        assert Holds(log, At(data, keys[i]), At(chains, keys[i]));
        ConfirmKey(run, keys[i], log);
        WalkNext(l, data, chains0, data, chains, run, Confirmed, keys[..i], keys[i]);
        assert keys[..i + 1] == keys[..i] + [keys[i]];
      }
      assert keys[..|keys|] == keys;
      WalkEnd(l, data, chains, old(runs), run, Confirmed);
    }

    /** The run was cut, here or in another of its parts: it is undone whole and stays marked. */
    method CutRun(run: Run, ghost l: Ledger)
      requires HoldsAll(l, data, chains) && Indexed(l, runs)
      modifies this`data, this`chains, this`runs
      ensures HoldsSuffered(l, data, chains, run, Undone)
      ensures runs == old(runs)[run := StateOf(old(runs), run).(cut := true, keys := [])]
    {
      runs := runs[run := StateOf(runs, run).(cut := true)];
      SameKeysIndexed(l, old(runs), runs, run);
      Rollback(run, l);
    }

    /** After every event of the run: with its owner closed and no agent left it is confirmed (unless it
        was undone) and forgotten. */
    method FinishIfDone(run: Run, ghost l: Ledger)
      requires run in runs
      requires !runs[run].cut ==> HoldsAll(l, data, chains) && Indexed(l, runs)
      requires runs[run].cut ==> HoldsSuffered(l, data, chains, run, Undone)
      modifies this`data, this`chains, this`runs
      ensures var st := old(runs)[run];
        var done := st.live == 0 && st.closed;
        var fate := if st.cut then Undone else if done then Confirmed else Kept;
        && HoldsSuffered(l, data, chains, run, fate)
        && runs == if done then old(runs) - {run} else old(runs)
    {
      var st := runs[run];
      if st.live == 0 && st.closed {
        if !st.cut {
          Commit(run, l);
        }
        runs := runs - {run};
      } else if !st.cut {
        KeptHolds(l, data, chains, run);
      }
    }

    /** What `close_run` and `agent_done` have in common once the run's state counts the part that ended. */
    method SettleRun(e: Event, undo: bool, st: RunState)
      requires Valid() && EndsPart(e)
      requires !undo ==> !st.cut
      requires var info := InfoOf(Exec(EMPTY, trace), e.run);
        Info(st).(cut := undo) == InfoAfter(info, e) && st.keys == StateOf(runs, e.run).keys
      modifies this
      ensures Valid() && trace == old(trace) + [e]
    {
      hide Exec, Step, HoldsAll, HoldsSuffered, Indexed;
      ghost var l := Exec(EMPTY, trace);
      runs := runs[e.run := st];
      SameKeysIndexed(l, old(runs), runs, e.run);
      if undo {
        CutRun(e.run, l);
      }
      ghost var settled := runs;
      FinishIfDone(e.run, l);
      EventSettles(l, e, data, chains, old(runs), settled, runs);
      ExecAppend(EMPTY, trace, e);
      trace := trace + [e];
    }

    /** The owner of the run ended. Returns whether the run was undone. */
    method CloseRun(run: Run, cut: bool) returns (undo: bool)
      requires Valid()
      modifies this
      ensures Valid() && trace == old(trace) + [Event.CloseRun(run, cut)]
      ensures undo <==> cut || InfoOf(old(Exec(EMPTY, trace)), run).cut
    {
      var st := StateOf(runs, run).(closed := true);
      undo := cut || st.cut;
      SettleRun(Event.CloseRun(run, cut), undo, st);
    }

    /** An agent of the run ended. Returns whether the run was undone. */
    method AgentDone(run: Run, cut: bool) returns (undo: bool)
      requires Valid()
      modifies this
      ensures Valid() && trace == old(trace) + [Event.AgentDone(run, cut)]
      ensures undo <==> cut || InfoOf(old(Exec(EMPTY, trace)), run).cut
    {
      var st := StateOf(runs, run);
      st := st.(live := if st.live == 0 then 0 else st.live - 1);
      undo := cut || st.cut;
      SettleRun(Event.AgentDone(run, cut), undo, st);
    }

    /** An agent of the run was launched. */
    method AgentStarted(run: Run)
      requires Valid()
      modifies this
      ensures Valid() && trace == old(trace) + [Event.AgentStarted(run)]
    {
      hide Exec, Step, HoldsAll, HoldsSuffered, Indexed;
      ghost var l, e := Exec(EMPTY, trace), Event.AgentStarted(run);
      var st := StateOf(runs, run);
      runs := runs[run := st.(live := st.live + 1)];
      KeptHolds(l, data, chains, run);
      EventKeeps(l, e, data, chains, old(runs), runs);
      ExecAppend(EMPTY, trace, e);
      trace := trace + [e];
    }

    method Read(key: Key) returns (value: Option<SendValue>)
      requires Valid()
      ensures var top := Visible(LogOf(Exec(EMPTY, trace), key));
        value == if top.Some? then Some(top.value.value) else None
    {
      assert Holds(LogOf(Exec(EMPTY, trace), key), At(data, key), At(chains, key));
      HoldsMeansVisible(LogOf(Exec(EMPTY, trace), key), At(data, key), At(chains, key));
      value := if key in data then Some(data[key].value) else None;
    }

    method Write(key: Key, value: SendValue, agent: string, scope: Option<Run>)
      requires Valid()
      modifies this
      ensures Valid() && trace == old(trace) + [Event.Write(key, value, agent, scope)]
      ensures data == old(data)[key := Entry(value, agent)]
    {
      ghost var log, e := LogOf(Exec(EMPTY, trace), key), Event.Write(key, value, agent, scope);
      assert Holds(log, At(data, key), At(chains, key)) && KeyIndexed(log, key, runs);
      Record(key, scope, At(data, key), Some(Entry(value, agent)), log);
      data := data[key := Entry(value, agent)];
      Written(trace, e, key, Some(Entry(value, agent)), old(data), old(chains), old(runs), data, chains);
      trace := trace + [e];
    }

    method Delete(key: Key, scope: Option<Run>)
      requires Valid()
      modifies this
      ensures Valid() && trace == old(trace) + [Event.Delete(key, scope)]
      ensures data == old(data) - {key}
    {
      ghost var log, e := LogOf(Exec(EMPTY, trace), key), Event.Delete(key, scope);
      assert Holds(log, At(data, key), At(chains, key)) && KeyIndexed(log, key, runs);
      var prev := At(data, key);
      data := data - {key};
      Record(key, scope, prev, None, log);
      Written(trace, e, key, None, old(data), old(chains), old(runs), data, chains);
      trace := trace + [e];
    }
  }

  /** The first version of a chain, or a change outside every run to a key that has none. */
  lemma NewChain(log: Log, prev: Option<Entry>, scope: Option<Run>, now: Option<Entry>)
    requires Holds(log, prev, None)
    ensures Holds(log + [Logged(scope, now)], now,
                  if scope.Some? then Some(Chain(prev, [Version(scope, None)])) else None)
  {
    CompactedAppend(log, Logged(scope, now));
    OneOverBase(prev, Logged(scope, now));
    if scope.Some? {
      assert AsLog(Chain(prev, [Version(scope, None)]), now) == [Logged(None, prev)] + [Logged(scope, now)];
    }
  }

  lemma OneOverBase(prev: Option<Entry>, entry: Logged)
    ensures Compacted([Logged(None, prev)] + [entry])
         == if entry.scope.Some? then [Logged(None, prev)] + [entry] else [Logged(None, entry.entry)]
  {
    var both := [Logged(None, prev)] + [entry];
    if entry.scope.Some? {
      BaseOver(prev, [entry]);
      assert [entry][..0] == [];
      assert TopDown([entry], {}) == [] + [entry];
    } else {
      assert TopDown(both, {}) == [];
    }
  }

  /** Another run, or nobody's, writes over the top: the live entry is saved and a version pushed. */
  lemma PushVersion(log: Log, prev: Option<Entry>, c: Chain, scope: Option<Run>, now: Option<Entry>)
    requires Holds(log, prev, Some(c))
    ensures var top := |c.versions| - 1;
      var grown := Chain(c.base, c.versions[top := c.versions[top].(saved := Some(prev))] + [Version(scope, None)]);
      && OnlyTopUnsaved(grown.versions)
      && Compacted(AsLog(grown, now)) == Compacted(log + [Logged(scope, now)])
  {
    var top := |c.versions| - 1;
    var grown := Chain(c.base, c.versions[top := c.versions[top].(saved := Some(prev))] + [Version(scope, None)]);
    assert AsLog(grown, now) == Compacted(log) + [Logged(scope, now)];
    CompactedAppend(log, Logged(scope, now));
  }

  /** The run on top writes again: no new version, the live entry is the run's. */
  lemma SameRunOnTop(log: Log, prev: Option<Entry>, c: Chain, now: Option<Entry>)
    requires Holds(log, prev, Some(c))
    ensures var scope := c.versions[|c.versions| - 1].scope;
      Holds(log + [Logged(scope, now)], now, Some(c))
  {
    HoldsMeansVisible(log, prev, Some(c));
    var top := c.versions[|c.versions| - 1];
    var below := [Logged(None, c.base)] + Filled(c.versions[..|c.versions| - 1], prev);
    assert AsLog(c, prev) == below + [Logged(top.scope, prev)];
    ReplaceTop(log, below, top.scope.value, prev, now);
    assert AsLog(c, now) == below + [Logged(top.scope, now)];
  }

  /** The data are exactly what the full history is worth, key by key, and stay so whichever open runs
      are undone: a chain minus those runs is worth what the full log minus them is worth, and a key with no
      chain is worth the same whichever are. */
  lemma RefinesTheFullLog(b: Blackboard, key: Key, undone: set<Run>)
    requires b.Valid()
    ensures At(b.data, key) == Visible(LogOf(Exec(EMPTY, b.trace), key))
    ensures key in b.chains ==>
      Visible(Minus(AsLog(b.chains[key], At(b.data, key)), undone))
        == Visible(Minus(LogOf(Exec(EMPTY, b.trace), key), undone))
    ensures key !in b.chains ==> Visible(Minus(LogOf(Exec(EMPTY, b.trace), key), undone)) == At(b.data, key)
  {
    var log := LogOf(Exec(EMPTY, b.trace), key);
    assert Holds(log, At(b.data, key), At(b.chains, key));
    HoldsMeansVisible(log, At(b.data, key), At(b.chains, key));
    CompactionIsInvisible(log, undone);
    if key !in b.chains {
      MinusBase(At(b.data, key), [], undone);
      assert [Logged(None, At(b.data, key))] + [] == [Logged(None, At(b.data, key))];
    }
  }

  /** Every chain holds only open versions, at most one per run, each indexed by its run's keys, and
      only the top is not saved; with no run left there is no chain left. */
  lemma ChainsAreTidy(b: Blackboard)
    requires b.Valid()
    ensures forall k :: k in b.chains ==> b.chains[k].versions != [] && OnlyTopUnsaved(b.chains[k].versions)
    ensures forall k, i :: k in b.chains && 0 <= i < |b.chains[k].versions| ==>
      var scope := b.chains[k].versions[i].scope;
      scope.Some? && scope.value in b.runs && k in b.runs[scope.value].keys
    ensures forall k, i, j :: k in b.chains && 0 <= i < j < |b.chains[k].versions| ==>
      b.chains[k].versions[i].scope != b.chains[k].versions[j].scope
    ensures b.runs == map[] ==> b.chains == map[]
  {
    var l := Exec(EMPTY, b.trace);
    forall k | k in b.chains
      ensures b.chains[k].versions != [] && OnlyTopUnsaved(b.chains[k].versions)
      ensures forall i :: 0 <= i < |b.chains[k].versions| ==>
        var scope := b.chains[k].versions[i].scope;
        scope.Some? && scope.value in b.runs && k in b.runs[scope.value].keys
      ensures forall i, j :: 0 <= i < j < |b.chains[k].versions| ==>
        b.chains[k].versions[i].scope != b.chains[k].versions[j].scope
      ensures b.runs != map[]
    {
      assert Holds(LogOf(l, k), At(b.data, k), At(b.chains, k)) && KeyIndexed(LogOf(l, k), k, b.runs);
      OpenScopes(LogOf(l, k), At(b.data, k), b.chains[k]);
      assert b.chains[k].versions[0].scope.value in b.runs;
    }
    assert b.chains != map[] ==> exists k :: k in b.chains;
  }

  /** Whatever else happened meanwhile, a finished run that was cut left nothing on the blackboard. */
  lemma CutRunLeavesNothing(b: Blackboard, run: Run)
    requires b.Valid() && NotReused(EMPTY, b.trace, run)
    requires CutIn(b.trace, run) && run !in b.runs
    ensures forall k :: At(b.data, k) == Visible(LogOf(Exec(EMPTY, Erase(b.trace, run)), k))
  {
    CutRunIsErased(EMPTY, b.trace, run);
    forall k ensures At(b.data, k) == Visible(LogOf(Exec(EMPTY, Erase(b.trace, run)), k)) {
      RefinesTheFullLog(b, k, {});
    }
  }
}
