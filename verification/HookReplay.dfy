/** What setters, hook calls and effects do to the component records, as functions, and the value every
    piece of state ends up with. */
module HookReplay {
  import opened Prelude
  import opened VirtualTree
  import opened PathKeys
  import opened EffectLog
  import opened HookState

  type Records = map<nat, Record>

  /** What effects and cleanup functions do when called, chosen freely for each run: whether the effect
      returns a cleanup function, and which setters are called. */
  datatype Outcome = Outcome(returned: bool, updates: seq<Update>)
  datatype World = World(effects: nat -> Outcome, cleanups: nat -> seq<Update>)

  // ---------- Setters ----------

  predicate IsState(rec: Record, s: nat) { s in rec.hooks && rec.hooks[s].StateSlot? }

  /** One setter call: it changes its own slot, and nothing else. */
  function Applied(records: Records, u: Update): Records {
    if u.instance in records && IsState(records[u.instance], u.slot)
    then records[u.instance := records[u.instance].(hooks := records[u.instance].hooks[u.slot := StateSlot(u.value)])]
    else records
  }

  function AppliedAll(records: Records, us: seq<Update>): Records {
    if us == [] then records else Applied(AppliedAll(records, us[..|us| - 1]), us[|us| - 1])
  }

  lemma {:induction false} AppliedShape(components: map<string, nat>, records: Records, us: seq<Update>)
    ensures SameShape(Store(components, records), Store(components, AppliedAll(records, us)))
  {
    if us == [] {
    } else {
      AppliedShape(components, records, us[..|us| - 1]);
      AppliedOneShape(components, records, AppliedAll(records, us[..|us| - 1]), us[|us| - 1]);
    }
  }

  lemma AppliedOneShape(components: map<string, nat>, first: Records, records: Records, u: Update)
    requires SameShape(Store(components, first), Store(components, records))
    ensures SameShape(Store(components, first), Store(components, Applied(records, u)))
  {
    hide SameRecord;
    var after := Applied(records, u);
    forall i | i in first ensures SameRecord(first[i], after[i]) {
      assert SameRecord(first[i], records[i]);
      AppliedRecord(first[i], records, u, i);
    }
  }

  lemma AppliedRecord(rec: Record, records: Records, u: Update, i: nat)
    requires i in records && SameRecord(rec, records[i])
    ensures i in Applied(records, u) && SameRecord(rec, Applied(records, u)[i])
  {
  }

  // ---------- Rendering a component ----------

  /** A component's hook calls, in order. */
  function AfterHooks(rec: Record, calls: seq<HookCall>): Record {
    if calls == [] then rec
    else AfterHook(AfterHooks(rec, calls[..|calls| - 1]), |calls| - 1, calls[|calls| - 1])
  }

  /** A component rendered for the first time starts from an empty record. */
  function RecordOf(records: Records, i: nat): Record { if i in records then records[i] else Record(map[], map[]) }

  function Rendered(records: Records, i: nat, w: Visit): Records {
    AppliedAll(records[i := AfterHooks(RecordOf(records, i), w.calls)], w.updates)
  }

  function RenderedAll(records: Records, ids: map<string, nat>, visits: seq<Visit>): Records {
    if visits == [] then records
    else
      var before, w := RenderedAll(records, ids, visits[..|visits| - 1]), visits[|visits| - 1];
      if w.key in ids then Rendered(before, ids[w.key], w) else before
  }

  /** Only the identities of the visited components matter. */
  lemma {:induction false} RenderedAllIds(records: Records, a: map<string, nat>, b: map<string, nat>,
                                          visits: seq<Visit>)
    requires forall w :: w in visits ==> w.key in a && w.key in b && a[w.key] == b[w.key]
    ensures RenderedAll(records, a, visits) == RenderedAll(records, b, visits)
  {
    hide Rendered;
    if visits == [] {
    } else {
      RenderedAllIds(records, a, b, visits[..|visits| - 1]);
    }
  }

  lemma {:induction false} RenderedAllJoin(records: Records, ids: map<string, nat>, a: seq<Visit>, b: seq<Visit>)
    ensures RenderedAll(records, ids, a + b) == RenderedAll(RenderedAll(records, ids, a), ids, b)
  {
    hide Rendered;
    if b == [] {
      assert a + b == a;
    } else {
      RenderedAllJoin(records, ids, a, b[..|b| - 1]);
      assert (a + b)[..|a + b| - 1] == a + b[..|b| - 1];
    }
  }

  // ---------- Running effects and cleanups ----------

  /** A cleanup function calls its setters; an effect calls its setters, and its cleanup function is kept. */
  function ReplayEvent(world: World, records: Records, e: Event): Records {
    match e
    case Cleaned(_, _, run) => AppliedAll(records, world.cleanups(run))
    case Ran(i, s, run, _, returned) =>
      var after := AppliedAll(records, world.effects(run).updates);
      if i in after then after[i := AfterRun(after[i], s, run, returned)] else after
  }

  function Replay(world: World, records: Records, log: Log): Records {
    if log == [] then records else ReplayEvent(world, Replay(world, records, log[..|log| - 1]), log[|log| - 1])
  }

  lemma {:induction false} ReplayJoin(world: World, records: Records, a: Log, b: Log)
    ensures Replay(world, records, a + b) == Replay(world, Replay(world, records, a), b)
  {
    hide ReplayEvent;
    if b == [] {
      assert a + b == a;
    } else {
      ReplayJoin(world, records, a, b[..|b| - 1]);
      assert (a + b)[..|a + b| - 1] == a + b[..|b| - 1];
    }
  }

  /** The log grew, and the records changed as the new events say. */
  ghost predicate Grew(world: World, before: Records, early: Log, after: Records, late: Log) {
    early <= late && after == Replay(world, before, late[|early|..])
  }

  lemma GrewNot(world: World, records: Records, log: Log)
    ensures Grew(world, records, log, records, log)
  {
    assert log[|log|..] == [];
  }

  lemma GrewByOne(world: World, records: Records, log: Log, e: Event)
    ensures Grew(world, records, log, ReplayEvent(world, records, e), log + [e])
  {
    hide ReplayEvent;
    assert (log + [e])[|log|..] == [e];
    assert [e][..0] == [];
    assert Replay(world, records, []) == records;
  }

  lemma GrewOn(world: World, a: Records, x: Log, b: Records, y: Log, c: Records, z: Log)
    requires Grew(world, a, x, b, y) && Grew(world, b, y, c, z)
    ensures Grew(world, a, x, c, z)
  {
    hide Replay;
    assert z[|x|..] == y[|x|..] + z[|y|..];
    ReplayJoin(world, a, y[|x|..], z[|y|..]);
  }

  // ---------- What a piece of state holds ----------

  function StateOf(records: Records, i: nat, s: nat): Option<Value> {
    if i in records && IsState(records[i], s) then Some(records[i].hooks[s].value) else None
  }

  /** The value of the last call of the slot's setter, or the value before. */
  function LastSet(us: seq<Update>, i: nat, s: nat, before: Value): Value {
    if us == [] then before
    else
      var u := us[|us| - 1];
      if u.instance == i && u.slot == s then u.value else LastSet(us[..|us| - 1], i, s, before)
  }

  predicate IsSetter(u: Update, i: nat, s: nat) { u.instance == i && u.slot == s }

  /** The last call of the slot's setter. */
  predicate IsLastSetter(us: seq<Update>, i: nat, s: nat, n: nat) {
    n < |us| && IsSetter(us[n], i, s) && forall m :: n < m < |us| ==> !IsSetter(us[m], i, s)
  }

  lemma {:induction false} LastSetMeans(us: seq<Update>, i: nat, s: nat, before: Value)
    ensures forall n: nat :: IsLastSetter(us, i, s, n) ==> LastSet(us, i, s, before) == us[n].value
    ensures (forall n :: 0 <= n < |us| ==> !IsSetter(us[n], i, s)) ==> LastSet(us, i, s, before) == before
  {
    if us == [] {
    } else {
      var last := |us| - 1;
      LastSetMeans(us[..last], i, s, before);
      forall n: nat | IsLastSetter(us, i, s, n) ensures LastSet(us, i, s, before) == us[n].value {
        if n < last { assert IsLastSetter(us[..last], i, s, n); }
      }
    }
  }

  /** The setter calls made by components while they render. */
  function VisitSets(visits: seq<Visit>): seq<Update> {
    if visits == [] then [] else VisitSets(visits[..|visits| - 1]) + visits[|visits| - 1].updates
  }

  /** The setter calls made by effects and cleanup functions. */
  function LogSets(world: World, log: Log): seq<Update> {
    if log == [] then []
    else
      var e := log[|log| - 1];
      LogSets(world, log[..|log| - 1]) + if e.Ran? then world.effects(e.run).updates else world.cleanups(e.run)
  }

  lemma {:induction false} LastSetJoin(a: seq<Update>, b: seq<Update>, i: nat, s: nat, before: Value)
    ensures LastSet(a + b, i, s, before) == LastSet(b, i, s, LastSet(a, i, s, before))
  {
    if b == [] {
      assert a + b == a;
    } else {
      LastSetJoin(a, b[..|b| - 1], i, s, before);
      assert (a + b)[..|a + b| - 1] == a + b[..|b| - 1];
    }
  }

  /** A setter changes what its slot holds, and what no other slot holds. */
  lemma AppliedState(records: Records, u: Update, i: nat, s: nat)
    ensures StateOf(Applied(records, u), i, s) ==
      if StateOf(records, i, s).Some? && u.instance == i && u.slot == s then Some(u.value) else StateOf(records, i, s)
    ensures i in Applied(records, u) <==> i in records
  {
  }

  lemma {:induction false} AppliedAllState(records: Records, us: seq<Update>, i: nat, s: nat)
    ensures StateOf(AppliedAll(records, us), i, s) ==
      if StateOf(records, i, s).Some? then Some(LastSet(us, i, s, StateOf(records, i, s).value)) else None
    ensures i in AppliedAll(records, us) <==> i in records
  {
    hide StateOf, Applied;
    if us == [] {
    } else {
      AppliedAllState(records, us[..|us| - 1], i, s);
      AppliedState(AppliedAll(records, us[..|us| - 1]), us[|us| - 1], i, s);
    }
  }

  /** Effects and cleanups leave every piece of state with the value last set. */
  lemma {:induction false} ReplayState(world: World, records: Records, log: Log, i: nat, s: nat)
    requires StateOf(records, i, s).Some?
    ensures StateOf(Replay(world, records, log), i, s) ==
      Some(LastSet(LogSets(world, log), i, s, StateOf(records, i, s).value))
  {
    hide StateOf, AppliedAll, LastSet, ReplayEvent;
    if log == [] {
      NothingSet(i, s, StateOf(records, i, s).value);
    } else {
      var n, before := |log| - 1, StateOf(records, i, s).value;
      ReplayState(world, records, log[..n], i, s);
      EventState(world, Replay(world, records, log[..n]), log[n], i, s);
      var us := if log[n].Ran? then world.effects(log[n].run).updates else world.cleanups(log[n].run);
      LastSetJoin(LogSets(world, log[..n]), us, i, s, before);
    }
  }

  lemma NothingSet(i: nat, s: nat, before: Value)
    ensures LastSet([], i, s, before) == before
  {
  }

  lemma EventState(world: World, records: Records, e: Event, i: nat, s: nat)
    requires StateOf(records, i, s).Some?
    ensures StateOf(ReplayEvent(world, records, e), i, s) ==
      Some(LastSet(if e.Ran? then world.effects(e.run).updates else world.cleanups(e.run), i, s,
                   StateOf(records, i, s).value))
  {
    hide LastSet, AppliedAll;
    AppliedAllState(records, if e.Ran? then world.effects(e.run).updates else world.cleanups(e.run), i, s);
  }

  /** Hook calls leave a state slot alone, unless the component calls another kind of hook in its place. */
  lemma {:induction false} HooksKeepState(rec: Record, calls: seq<HookCall>, s: nat)
    requires IsState(rec, s) && (s < |calls| ==> calls[s].UseState?)
    ensures IsState(AfterHooks(rec, calls), s) && AfterHooks(rec, calls).hooks[s] == rec.hooks[s]
  {
    if calls == [] {
    } else {
      HooksKeepState(rec, calls[..|calls| - 1], s);
    }
  }

  /** `useState` gives a new slot its initial value. */
  lemma {:induction false} HooksStartState(rec: Record, calls: seq<HookCall>, s: nat)
    requires rec.hooks == map[] && s < |calls| && calls[s].UseState?
    ensures s in AfterHooks(rec, calls).hooks && AfterHooks(rec, calls).hooks[s] == StateSlot(calls[s].initial)
  {
    var n := |calls| - 1;
    if s < n {
      HooksStartState(rec, calls[..n], s);
    } else {
      HookSlots(rec, calls[..n]);
    }
    HookSlots(rec, calls);
  }

  lemma {:induction false} HookSlots(rec: Record, calls: seq<HookCall>)
    requires rec.hooks == map[]
    ensures forall t :: t in AfterHooks(rec, calls).hooks ==> t < |calls|
  {
    if calls == [] {
    } else {
      HookSlots(rec, calls[..|calls| - 1]);
    }
  }

  predicate CallsState(w: Visit, s: nat) { s < |w.calls| ==> w.calls[s].UseState? }

  lemma RenderedState(records: Records, j: nat, w: Visit, i: nat, s: nat)
    requires StateOf(records, i, s).Some? && (i == j ==> CallsState(w, s))
    ensures StateOf(Rendered(records, j, w), i, s) == Some(LastSet(w.updates, i, s, StateOf(records, i, s).value))
  {
    hide LastSet, AppliedAll, AfterHooks;
    if i == j { HooksKeepState(records[i], w.calls, s); }
    AppliedAllState(records[j := AfterHooks(RecordOf(records, j), w.calls)], w.updates, i, s);
  }

  lemma {:induction false} RenderedAllState(records: Records, ids: map<string, nat>, visits: seq<Visit>, i: nat, s: nat)
    requires StateOf(records, i, s).Some?
    requires forall w :: w in visits ==> w.key in ids && (ids[w.key] == i ==> CallsState(w, s))
    ensures StateOf(RenderedAll(records, ids, visits), i, s) ==
      Some(LastSet(VisitSets(visits), i, s, StateOf(records, i, s).value))
  {
    hide StateOf, Rendered, LastSet, CallsState;
    if visits == [] {
      NothingSet(i, s, StateOf(records, i, s).value);
    } else {
      var n := |visits| - 1;
      RenderedAllState(records, ids, visits[..n], i, s);
      RenderedState(RenderedAll(records, ids, visits[..n]), ids[visits[n].key], visits[n], i, s);
      LastSetJoin(VisitSets(visits[..n]), visits[n].updates, i, s, StateOf(records, i, s).value);
    }
  }

  /** A whole render leaves a piece of state with the value of the last call of its setter, by whatever
      component, effect or cleanup function, and with its old value if there was none. */
  lemma StateHoldsLastSet(world: World, records: Records, ids: map<string, nat>, visits: seq<Visit>, log: Log, i: nat,
                          s: nat)
    requires StateOf(records, i, s).Some?
    requires forall w :: w in visits ==> w.key in ids && (ids[w.key] == i ==> CallsState(w, s))
    ensures StateOf(Replay(world, RenderedAll(records, ids, visits), log), i, s) ==
      Some(LastSet(VisitSets(visits) + LogSets(world, log), i, s, StateOf(records, i, s).value))
  {
    hide StateOf, LastSet, CallsState, Replay, RenderedAll, VisitSets, LogSets;
    RenderedAllState(records, ids, visits, i, s);
    ReplayState(world, RenderedAll(records, ids, visits), log, i, s);
    LastSetJoin(VisitSets(visits), LogSets(world, log), i, s, StateOf(records, i, s).value);
  }

  /** Only visited components get records. */
  lemma {:induction false} RenderedAllKeys(records: Records, ids: map<string, nat>, visits: seq<Visit>, i: nat)
    requires forall w :: w in visits ==> w.key in ids && ids[w.key] != i
    ensures i in RenderedAll(records, ids, visits) <==> i in records
  {
    hide AfterHooks, AppliedAll;
    if visits == [] {
    } else {
      var n := |visits| - 1;
      RenderedAllKeys(records, ids, visits[..n], i);
      var before, w := RenderedAll(records, ids, visits[..n]), visits[n];
      AppliedAllState(before[ids[w.key] := AfterHooks(RecordOf(before, ids[w.key]), w.calls)], w.updates, i, 0);
    }
  }

  /** A component rendered for the first time: its state holds the value last set since, or its initial one. */
  lemma NewStateHoldsLastSet(world: World, records: Records, ids: map<string, nat>, visits: seq<Visit>, m: nat,
                             log: Log, s: nat)
    requires m < |visits| && (forall w :: w in visits ==> w.key in ids)
    requires forall n :: 0 <= n < |visits| && n != m ==> ids[visits[n].key] != ids[visits[m].key]
    requires ids[visits[m].key] !in records && s < |visits[m].calls| && visits[m].calls[s].UseState?
    ensures var i := ids[visits[m].key];
      StateOf(Replay(world, RenderedAll(records, ids, visits), log), i, s) ==
      Some(LastSet(visits[m].updates + (VisitSets(visits[m + 1..]) + LogSets(world, log)), i, s,
                   visits[m].calls[s].initial))
  {
    hide StateOf, LastSet, Replay, RenderedAll, VisitSets, LogSets, Rendered;
    var i, w, rest := ids[visits[m].key], visits[m], visits[m + 1..];
    var before := RenderedAll(records, ids, visits[..m]);
    var middle := Rendered(before, i, w);
    forall v | v in visits[..m] ensures v.key in ids && ids[v.key] != i {
      var n :| 0 <= n < m && visits[n] == v;
    }
    RenderedAllKeys(records, ids, visits[..m], i);
    FirstRendered(before, i, w, s);
    assert visits == visits[..m] + ([w] + rest);
    RenderedAllJoin(records, ids, visits[..m], [w] + rest);
    RenderedAllJoin(before, ids, [w], rest);
    RenderedOne(before, ids, w);
    forall v | v in rest ensures v.key in ids && ids[v.key] != i {
      var n :| 0 <= n < |rest| && rest[n] == v;
      assert visits[m + 1 + n] == v;
    }
    StateHoldsLastSet(world, middle, ids, rest, log, i, s);
    LastSetJoin(w.updates, VisitSets(rest) + LogSets(world, log), i, s, w.calls[s].initial);
  }

  lemma RenderedOne(records: Records, ids: map<string, nat>, w: Visit)
    requires w.key in ids
    ensures RenderedAll(records, ids, [w]) == Rendered(records, ids[w.key], w)
  {
    hide Rendered;
    assert [w][..0] == [];
    assert RenderedAll(records, ids, []) == records;
  }

  lemma FirstRendered(records: Records, i: nat, w: Visit, s: nat)
    requires i !in records && s < |w.calls| && w.calls[s].UseState?
    ensures StateOf(Rendered(records, i, w), i, s) == Some(LastSet(w.updates, i, s, w.calls[s].initial))
  {
    hide LastSet, AppliedAll, AfterHooks;
    HooksStartState(Record(map[], map[]), w.calls, s);
    AppliedAllState(records[i := AfterHooks(Record(map[], map[]), w.calls)], w.updates, i, s);
  }
}
