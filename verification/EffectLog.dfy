/** What may happen to effects over a whole run, stated on the log of effect and cleanup calls. */
module EffectLog {
  import opened Prelude
  import opened VirtualTree

  type Deps = Option<seq<Value>>

  /** An effect of a component instance ran, and returned a cleanup function or not; or the cleanup
      function returned by that run was called. */
  datatype Event =
    | Ran(instance: nat, slot: nat, run: nat, deps: Deps, returned: bool)
    | Cleaned(instance: nat, slot: nat, run: nat)

  type Log = seq<Event>
  type Place = (nat, nat)

  /** `depsChanged`: either list missing, other length, or some value not the same by `Object.is`. */
  predicate DepsChanged(prev: Deps, next: Deps) {
    prev.None? || next.None? || |prev.value| != |next.value| ||
    exists i :: 0 <= i < |next.value| && next.value[i] != prev.value[i]
  }

  lemma UnchangedDepsAreEqual(prev: Deps, next: Deps)
    ensures DepsChanged(prev, next) <==> !(prev.Some? && next.Some? && prev.value == next.value)
  {
  }

  function LiveAfter(live: map<Place, nat>, e: Event): map<Place, nat> {
    if e.Ran? && e.returned then live[(e.instance, e.slot) := e.run] else live - {(e.instance, e.slot)}
  }

  /** The runs whose cleanup function is waiting, by place. */
  function Live(log: Log): map<Place, nat> {
    if log == [] then map[] else LiveAfter(Live(log[..|log| - 1]), log[|log| - 1])
  }

  /** The dependencies of the last run at a place. */
  function LastDeps(log: Log, i: nat, s: nat): Option<Deps> {
    if log == [] then None
    else
      var e := log[|log| - 1];
      if e.Ran? && e.instance == i && e.slot == s then Some(e.deps) else LastDeps(log[..|log| - 1], i, s)
  }

  // ---------- What the two say about the log ----------

  predicate RanAt(e: Event, i: nat, s: nat) { e.Ran? && e.instance == i && e.slot == s }

  /** The last run at a place. */
  predicate IsLastRun(log: Log, i: nat, s: nat, n: nat) {
    n < |log| && RanAt(log[n], i, s) && forall m :: n < m < |log| ==> !RanAt(log[m], i, s)
  }

  lemma {:induction false} LastDepsMeans(log: Log, i: nat, s: nat, deps: Deps)
    ensures LastDeps(log, i, s) == Some(deps) <==> exists n: nat :: IsLastRun(log, i, s, n) && log[n].deps == deps
  {
    if log == [] {
    } else {
      var last, before := |log| - 1, log[..|log| - 1];
      LastDepsMeans(before, i, s, deps);
      if RanAt(log[last], i, s) {
        assert IsLastRun(log, i, s, last);
      } else {
        forall n: nat | n < last ensures IsLastRun(log, i, s, n) <==> IsLastRun(before, i, s, n) {
          assert log[n] == before[n];
        }
      }
    }
  }

  /** The last thing that happened at a place is a run that returned this cleanup function. */
  predicate LeftWaiting(log: Log, p: Place, run: nat, n: nat) {
    && n < |log| && RanAt(log[n], p.0, p.1) && log[n].run == run && log[n].returned
    && forall m :: n < m < |log| ==> (log[m].instance, log[m].slot) != p
  }

  lemma {:induction false} LiveMeans(log: Log, p: Place, run: nat)
    ensures p in Live(log) && Live(log)[p] == run <==> exists n: nat :: LeftWaiting(log, p, run, n)
  {
    if log == [] {
    } else {
      var last, before := |log| - 1, log[..|log| - 1];
      LiveMeans(before, p, run);
      if (log[last].instance, log[last].slot) == p {
        assert log[last].Ran? && log[last].returned && log[last].run == run ==> LeftWaiting(log, p, run, last);
        assert forall n: nat :: LeftWaiting(log, p, run, n) ==> n == last;
      } else {
        forall n: nat | n < last ensures LeftWaiting(log, p, run, n) <==> LeftWaiting(before, p, run, n) {
          assert log[n] == before[n];
        }
      }
    }
  }

  ghost predicate RunIn(log: Log, run: nat) {
    exists n :: 0 <= n < |log| && log[n].Ran? && log[n].run == run
  }

  /** An effect runs only with no cleanup waiting at its place and with changed dependencies; a cleanup
      function is called only while it is waiting. */
  ghost predicate LawfulEvent(before: Log, e: Event) {
    match e
    case Ran(i, s, run, deps, _) =>
      && (i, s) !in Live(before) && !RunIn(before, run)
      && (LastDeps(before, i, s).Some? ==> DepsChanged(LastDeps(before, i, s).value, deps))
    case Cleaned(i, s, run) => (i, s) in Live(before) && Live(before)[(i, s)] == run
  }

  ghost predicate Lawful(log: Log) {
    log == [] || (Lawful(log[..|log| - 1]) && LawfulEvent(log[..|log| - 1], log[|log| - 1]))
  }

  lemma {:induction false} PrefixLawful(log: Log, n: nat)
    requires Lawful(log) && n <= |log|
    ensures Lawful(log[..n])
    ensures n < |log| ==> LawfulEvent(log[..n], log[n])
    decreases |log|
  {
    if n < |log| {
      var shorter := log[..|log| - 1];
      if n < |shorter| {
        PrefixLawful(shorter, n);
        assert shorter[..n] == log[..n] && shorter[n] == log[n];
      } else {
        assert log[..n] == shorter;
      }
    } else {
      assert log[..n] == log;
    }
  }

  lemma Extend(log: Log, e: Event)
    ensures Live(log + [e]) == LiveAfter(Live(log), e)
    ensures Lawful(log) && LawfulEvent(log, e) ==> Lawful(log + [e])
  {
    assert (log + [e])[..|log|] == log;
  }

  lemma ExtendLast(log: Log, e: Event, i: nat, s: nat)
    ensures LastDeps(log + [e], i, s) ==
      if e.Ran? && e.instance == i && e.slot == s then Some(e.deps) else LastDeps(log, i, s)
  {
    assert (log + [e])[..|log|] == log;
  }

  /** Waiting cleanups belong to runs in the log, each at one place. */
  lemma {:induction false} LiveRuns(log: Log)
    requires Lawful(log)
    ensures forall p :: p in Live(log) ==> RunIn(log, Live(log)[p])
    ensures forall p, q :: p in Live(log) && q in Live(log) && Live(log)[p] == Live(log)[q] ==> p == q
  {
    if log == [] {
    } else {
      var before, e := log[..|log| - 1], log[|log| - 1];
      LiveRuns(before);
      assert e.Ran? ==> RunIn(log, e.run);
      forall run | RunIn(before, run) ensures RunIn(log, run) {
        var n :| 0 <= n < |before| && before[n].Ran? && before[n].run == run;
        assert log[n] == before[n];
      }
    }
  }

  /** The cleanup function of the run is waiting nowhere. */
  predicate Over(live: map<Place, nat>, run: nat) { forall p :: p in live ==> live[p] != run }

  /** A run that is over has its cleanup waiting nowhere, ever after. */
  lemma {:induction false} OverStaysOver(log: Log, n: nat, run: nat)
    requires Lawful(log) && n <= |log|
    requires RunIn(log[..n], run) && Over(Live(log[..n]), run)
    ensures Over(Live(log), run)
    decreases |log|
  {
    if n == |log| {
      assert log[..n] == log;
    } else {
      var before, e := log[..|log| - 1], log[|log| - 1];
      assert before[..n] == log[..n];
      OverStaysOver(before, n, run);
      var m :| 0 <= m < n && log[..n][m].Ran? && log[..n][m].run == run;
      assert before[m] == log[m];
      assert RunIn(before, run);
    }
  }

  /** Once a cleanup function has been called, its run is over. */
  lemma CleanedIsOver(log: Log, a: nat)
    requires Lawful(log) && a < |log| && log[a].Cleaned?
    ensures RunIn(log[..a + 1], log[a].run)
    ensures Over(Live(log[..a + 1]), log[a].run)
  {
    hide Lawful, Live;
    var before := log[..a];
    PrefixLawful(log, a);
    LiveRuns(before);
    assert log[..a + 1] == before + [log[a]];
    Extend(before, log[a]);
    var m :| 0 <= m < |before| && before[m].Ran? && before[m].run == log[a].run;
    assert log[..a + 1][m] == before[m];
  }

  /** A cleanup function is called at most once. */
  lemma CleanedOnce(log: Log, a: nat, b: nat)
    requires Lawful(log) && a < b < |log|
    requires log[a].Cleaned? && log[b].Cleaned?
    ensures log[a].run != log[b].run
  {
    hide Lawful, Live, RunIn;
    CleanedIsOver(log, a);
    PrefixLawful(log, b);
    assert log[..b][..a + 1] == log[..a + 1];
    OverStaysOver(log[..b], a + 1, log[a].run);
  }

  /** A cleanup function that stops waiting has just been called. */
  lemma LeavesByCleaning(log: Log, p: Place, run: nat)
    requires log != [] && Lawful(log)
    requires p in Live(log[..|log| - 1]) && Live(log[..|log| - 1])[p] == run
    requires !(p in Live(log) && Live(log)[p] == run)
    ensures log[|log| - 1] == Cleaned(p.0, p.1, run)
  {
  }

  /** The cleanup function a run returned is still waiting, or it has been called. */
  lemma {:induction false} CleanedAfter(log: Log, a: nat) returns (c: nat)
    requires Lawful(log) && a < |log| && log[a].Ran? && log[a].returned
    requires var p := (log[a].instance, log[a].slot); !(p in Live(log) && Live(log)[p] == log[a].run)
    ensures a < c < |log| && log[c] == Cleaned(log[a].instance, log[a].slot, log[a].run)
    decreases |log|
  {
    hide Lawful, Live;
    var n, p := |log| - 1, (log[a].instance, log[a].slot);
    PrefixLawful(log, n);
    assert log[..n] + [log[n]] == log;
    Extend(log[..n], log[n]);
    if p in Live(log[..n]) && Live(log[..n])[p] == log[a].run {
      LeavesByCleaning(log, p, log[a].run);
      RanBefore(log, a);
      c := n;
    } else {
      assert a < n;
      c := CleanedAfter(log[..n], a);
    }
  }

  lemma RanBefore(log: Log, a: nat)
    requires a < |log| && log[a].Ran? && log[|log| - 1].Cleaned?
    ensures a < |log| - 1
  {
  }

  /** Between two runs of an effect, the cleanup function the first returned has been called. */
  lemma CleanedBetween(log: Log, a: nat, b: nat) returns (c: nat)
    requires Lawful(log) && a < b < |log|
    requires log[a].Ran? && log[a].returned && log[b].Ran?
    requires log[a].instance == log[b].instance && log[a].slot == log[b].slot
    ensures a < c < b && log[c] == Cleaned(log[a].instance, log[a].slot, log[a].run)
  {
    hide Lawful, Live;
    PrefixLawful(log, b);
    c := CleanedAfter(log[..b], a);
  }

  /** An effect runs again only when its dependencies are missing or changed since its last run. */
  lemma {:induction false} RerunMeansChanged(log: Log, a: nat, b: nat)
    requires Lawful(log) && a < b < |log|
    requires log[a].Ran? && log[b].Ran?
    requires log[a].instance == log[b].instance && log[a].slot == log[b].slot
    requires forall n :: a < n < b ==>
      !(log[n].Ran? && log[n].instance == log[a].instance && log[n].slot == log[a].slot)
    ensures log[a].deps == None || log[b].deps == None || log[a].deps.value != log[b].deps.value
  {
    PrefixLawful(log, b);
    UnchangedDepsAreEqual(log[a].deps, log[b].deps);
    var n := a + 1;
    assert log[..a + 1] == log[..a] + [log[a]];
    ExtendLast(log[..a], log[a], log[a].instance, log[a].slot);
    while n < b
      invariant a < n <= b
      invariant LastDeps(log[..n], log[a].instance, log[a].slot) == Some(log[a].deps)
    {
      assert log[..n + 1] == log[..n] + [log[n]];
      ExtendLast(log[..n], log[n], log[a].instance, log[a].slot);
      n := n + 1;
    }
  }
}
