/** The hook half of the dashboard runtime: coalesced scheduling, positional hook state, and effects. */
module HookRuntime {
  import opened Prelude
  import opened VirtualTree
  import opened PathKeys
  import opened EffectLog
  import opened HookState
  import opened HookReplay
  import opened EffectQueue

  /** The hook slots called so far hold what the calls asked for; the others fit the calls to come. */
  ghost predicate HookedUpTo(rec: Record, calls: seq<HookCall>, n: nat) {
    && (forall s :: s in rec.hooks ==> s < |calls| && FitsCall(rec.hooks[s], calls[s]))
    && (forall s :: 0 <= s < n && s < |calls| ==> s in rec.hooks)
    && (forall s :: 0 <= s < n && s < |calls| && calls[s].UseEffect? ==> rec.hooks[s] == DepsSlot(calls[s].deps))
  }

  lemma HookedNext(rec: Record, calls: seq<HookCall>, s: nat)
    requires s < |calls| && HookedUpTo(rec, calls, s)
    ensures s in rec.hooks ==> FitsCall(rec.hooks[s], calls[s])
    ensures HookedUpTo(AfterHook(rec, s, calls[s]), calls, s + 1)
  {
    if calls[s].UseEffect? {
      UnchangedDepsAreEqual(if HasDeps(rec, s) then rec.hooks[s].deps else None, calls[s].deps);
    }
  }

  /** The hooks of two records differ in state values at most. */
  predicate SameHooks(a: map<nat, Slot>, b: map<nat, Slot>) {
    a.Keys == b.Keys && forall s :: s in a ==> SameSlot(a[s], b[s])
  }

  lemma SameHooksHooked(a: Record, b: Record, calls: seq<HookCall>, n: nat)
    requires SameHooks(a.hooks, b.hooks) && HookedUpTo(a, calls, n)
    ensures HookedUpTo(b, calls, n)
  {
    forall s | 0 <= s < n && s < |calls| && calls[s].UseEffect? ensures b.hooks[s] == DepsSlot(calls[s].deps) {
      assert SameSlot(a.hooks[s], b.hooks[s]);
    }
  }

  /** What other instances last saw is as before. */
  ghost predicate SeenElsewhere(a: map<Place, Value>, b: map<Place, Value>, i: nat) {
    forall q: Place :: q.0 != i ==> (q in a <==> q in b) && (q in a ==> a[q] == b[q])
  }

  /** What rendering one component leaves alone. */
  ghost predicate OthersKept(a: Store, b: Store, key: string) {
    && key in b.components && b.components == a.components[key := b.components[key]]
    && (if key in a.components then b.components[key] == a.components[key] else b.components[key] !in a.records)
    && a.records.Keys <= b.records.Keys
    && forall i :: i in a.records && i != b.components[key] ==> SameRecord(a.records[i], b.records[i])
  }

  class Runtime {
    var vnode: nat
    var components: map<string, nat>
    var records: map<nat, Record>
    var usedComponents: set<string>
    var effects: seq<Pending>
    var renderQueued: bool
    var microtasks: nat
    var nextInstance: nat
    var nextRun: nat
    /** Every effect run and cleanup call so far. */
    ghost var log: Log
    /** What `useState` last returned at each place. */
    ghost var seen: map<Place, Value>
    /** The root vnode the last render was given. */
    ghost var shown: nat

    ghost function St(): Store
      reads this`components, this`records
    {
      Store(components, records)
    }

    /** Holds at every point of every run. */
    ghost predicate Inv(pending: seq<Pending>, cleaned: set<Place>)
      reads this`components, this`records, this`log, this`renderQueued, this`microtasks, this`nextInstance, this`nextRun
    {
      && Consistent(St(), log, pending, cleaned)
      && microtasks == (if renderQueued then 1 else 0)
      && (forall i :: i in records ==> i < nextInstance)
      && (forall run: nat :: RunIn(log, run) ==> run < nextRun)
    }

    /** Holds between tasks: what has not been rendered yet is queued to be. */
    ghost predicate Valid()
      reads this
    {
      Inv([], {}) && (renderQueued || (vnode == shown && AllSeen(St(), components.Keys, seen)))
    }

    constructor ()
      ensures Valid() && components == map[] && log == [] && !renderQueued
    {
      vnode, components, records, usedComponents, effects := 0, map[], map[], {}, [];
      renderQueued, microtasks, nextInstance, nextRun := false, 0, 0, 0;
      log, seen, shown := [], map[], 0;
    }

    method ScheduleRender()
      requires microtasks == (if renderQueued then 1 else 0)
      modifies this`renderQueued, this`microtasks
      ensures renderQueued && microtasks == 1
    {
      if renderQueued { return; }
      renderQueued := true;
      microtasks := microtasks + 1;
    }

    /** `createRoot(...).render(vnode)`. */
    method RootRender(v: nat)
      requires Valid()
      modifies this`vnode, this`renderQueued, this`microtasks
      ensures Valid() && vnode == v && renderQueued && microtasks == 1
    {
      hide Consistent, AllSeen, RunIn;
      vnode := v;
      ScheduleRender();
    }

    /** The setter `useState` returned for a slot of a component's record. */
    method SetState(u: Update)
      requires microtasks == (if renderQueued then 1 else 0)
      modifies this`records, this`renderQueued, this`microtasks
      ensures records == Applied(old(records), u)
      ensures renderQueued <==> old(renderQueued) || Applied(old(records), u) != old(records)
      ensures microtasks == (if renderQueued then 1 else 0)
    {
      if u.instance in records {
        var rec := records[u.instance];
        if u.slot in rec.hooks && rec.hooks[u.slot].StateSlot? {
          if rec.hooks[u.slot].value != u.value {
            records := records[u.instance := rec.(hooks := rec.hooks[u.slot := StateSlot(u.value)])];
            assert records[u.instance].hooks[u.slot] != old(records)[u.instance].hooks[u.slot];
            ScheduleRender();
          } else {
            SetToSame(records, u);
          }
        }
      }
    }

    method ApplyUpdates(us: seq<Update>)
      requires microtasks == (if renderQueued then 1 else 0)
      modifies this`records, this`renderQueued, this`microtasks
      ensures records == AppliedAll(old(records), us) && SameShape(old(St()), St())
      ensures microtasks == (if renderQueued then 1 else 0)
      ensures !renderQueued ==> records == old(records) && !old(renderQueued)
    {
      hide Applied, SameShape;
      for n := 0 to |us|
        invariant records == AppliedAll(old(records), us[..n])
        invariant microtasks == (if renderQueued then 1 else 0)
        invariant !renderQueued ==> records == old(records) && !old(renderQueued)
      {
        assert us[..n + 1][..n] == us[..n];
        SetState(us[n]);
      }
      assert us[..|us|] == us;
      AppliedShape(components, old(records), us);
    }

    /** An event handler, a timer or a response calls setters between tasks: no update is lost. */
    method Dispatch(us: seq<Update>)
      requires Valid()
      modifies this`records, this`renderQueued, this`microtasks
      ensures Valid() && records == AppliedAll(old(records), us)
      ensures old(renderQueued) || records != old(records) ==> renderQueued
    {
      hide Consistent, AllSeen, RunIn, SameShape, AppliedAll;
      ghost var before := St();
      ApplyUpdates(us);
      SameShapeConsistent(before, St(), log, [], {});
      SameShapeKeys(before, St());
    }

    // ---------- Calling component functions ----------

    /** One hook call of the component being rendered. */
    method RunHook(i: nat, s: nat, call: HookCall)
      requires Inv(effects, {}) && Mounted(St(), i) && i in records
      requires s in records[i].hooks ==> FitsCall(records[i].hooks[s], call)
      requires !Awaits(effects, i, s)
      modifies this`records, this`effects, this`seen
      ensures Inv(effects, {})
      ensures St() == WithRecord(old(St()), i, AfterHook(old(records)[i], s, call))
      ensures effects == old(effects) + QueuedBy(old(records)[i], i, s, call)
      ensures seen == if call.UseState? && s in records[i].hooks && records[i].hooks[s].StateSlot?
                      then old(seen)[(i, s) := records[i].hooks[s].value] else old(seen)
    {
      hide Consistent, RunIn, DepsChanged;
      HookConsistent(St(), log, effects, i, s, call);
      var rec := records[i];
      match call {
        case UseState(initial) =>
          if s !in rec.hooks { rec := rec.(hooks := rec.hooks[s := StateSlot(initial)]); }
          if rec.hooks[s].StateSlot? { seen := seen[(i, s) := rec.hooks[s].value]; }
        case UseEffect(deps) =>
          var prev := if HasDeps(rec, s) then rec.hooks[s].deps else None;
          if DepsChanged(prev, deps) {
            rec := rec.(hooks := rec.hooks[s := DepsSlot(deps)]);
            effects := effects + [Pending(i, s, deps)];
          }
        case OtherHook =>
          if s !in rec.hooks { rec := rec.(hooks := rec.hooks[s := OtherSlot]); }
      }
      records := records[i := rec];
      assert effects == old(effects) + QueuedBy(old(records)[i], i, s, call);
      assert St() == WithRecord(old(St()), i, AfterHook(old(records)[i], s, call));
    }

    method RunHooks(i: nat, calls: seq<HookCall>)
      requires Inv(effects, {}) && Mounted(St(), i) && i in records
      requires HookedUpTo(records[i], calls, 0)
      requires forall p :: p in effects ==> p.instance != i
      modifies this`records, this`effects, this`seen
      ensures Inv(effects, {}) && i in records
      ensures components == old(components) && records == old(records)[i := AfterHooks(old(records)[i], calls)]
      ensures effects == old(effects) + QueuedHooks(old(records)[i], i, calls)
      ensures HookedUpTo(records[i], calls, |calls|) && SeenBelow(records[i], i, seen, None)
      ensures forall p :: p in effects ==> p in old(effects) || p.instance == i
      ensures SeenElsewhere(old(seen), seen, i)
    {
      hide Inv, Awaits, Consistent, AfterHook, HookedUpTo, SeenBelow, SeenElsewhere, QueuedBy;
      SeenStart(records[i], i, seen);
      for s := 0 to |calls|
        invariant Inv(effects, {}) && i in records && i in components.Values
        invariant components == old(components) && records == old(records)[i := AfterHooks(old(records)[i], calls[..s])]
        invariant effects == old(effects) + QueuedHooks(old(records)[i], i, calls[..s])
        invariant HookedUpTo(records[i], calls, s) && SeenBelow(records[i], i, seen, Some(s))
        invariant forall p :: p in effects ==> p in old(effects) || (p.instance == i && p.slot < s)
        invariant SeenElsewhere(old(seen), seen, i)
      {
        assert calls[..s + 1][..s] == calls[..s];
        NotAwaited(effects, old(effects), i, s);
        HookedNext(records[i], calls, s);
        ghost var rec, early := records[i], seen;
        QueuedByInstance(rec, i, s, calls[s]);
        RunHook(i, s, calls[s]);
        SeenNext(rec, i, s, calls[s], old(seen), early, seen);
      }
      assert calls[..|calls|] == calls;
      SeenDone(records[i], i, calls, seen);
    }

    /** The component function runs and calls its hooks. */
    method EnterComponent(w: Visit) returns (i: nat)
      requires Inv(effects, {}) && w.key !in usedComponents && usedComponents <= components.Keys
      requires w.key in components ==> components[w.key] in records && Fits(records[components[w.key]], w.calls)
      modifies this`components, this`records, this`usedComponents, this`nextInstance
      ensures Inv(effects, {}) && usedComponents == old(usedComponents) + {w.key} && usedComponents <= components.Keys
      ensures w.key in components && i == components[w.key] && i in records && Mounted(St(), i)
      ensures components == old(components)[w.key := i] && records == old(records)[i := RecordOf(old(records), i)]
      ensures if w.key in old(components) then i == old(components)[w.key] else i !in old(records)
      ensures HookedUpTo(records[i], w.calls, 0)
    {
      hide Consistent, RunIn;
      if w.key !in components {
        MountConsistent(St(), w.key, nextInstance, log, effects);
        components := components[w.key := nextInstance];
        records := records[nextInstance := Record(map[], map[])];
        nextInstance := nextInstance + 1;
      }
      usedComponents := usedComponents + {w.key};
      i := components[w.key];
    }

    /** The component function is called with its own record current. */
    method CallComponent(w: Visit) returns (i: nat)
      requires Inv(effects, {}) && w.key !in usedComponents && usedComponents <= components.Keys
      requires w.key in components ==> components[w.key] in records && Fits(records[components[w.key]], w.calls)
      requires PendingIn(effects, usedComponents, components)
      requires renderQueued || AllSeen(St(), usedComponents, seen)
      modifies this`components, this`records, this`usedComponents, this`effects, this`seen, this`nextInstance
      ensures Inv(effects, {}) && usedComponents == old(usedComponents) + {w.key} && usedComponents <= components.Keys
      ensures components == old(components)[w.key := i]
      ensures records == old(records)[i := AfterHooks(RecordOf(old(records), i), w.calls)]
      ensures effects == old(effects) + QueuedHooks(RecordOf(old(records), i), i, w.calls)
      ensures if w.key in old(components) then i == old(components)[w.key] else i !in old(records)
      ensures HookedUpTo(records[i], w.calls, |w.calls|)
      ensures PendingIn(effects, usedComponents, components)
      ensures renderQueued || AllSeen(St(), usedComponents, seen)
    {
      hide Consistent, RunIn, HookedUpTo, SeenBelow, SeenElsewhere, AllSeen, Fits, PendingIn, AfterHooks, Mounted,
        QueuedHooks;
      ghost var first, early := St(), seen;
      StoreFacts(St(), log, effects);
      i := EnterComponent(w);
      StoreFacts(St(), log, effects);
      PendingElsewhere(effects, old(usedComponents), first.components, components, w.key);
      RunHooks(i, w.calls);
      PendingGrows(old(effects), effects, old(usedComponents), first.components, components, w.key);
      AllSeenGrows(first, St(), old(usedComponents), early, seen, w.key);
    }

    /** The component branch of `toDom`. */
    method RenderComponent(w: Visit)
      requires Inv(effects, {}) && w.key !in usedComponents && usedComponents <= components.Keys
      requires w.key in components ==> components[w.key] in records && Fits(records[components[w.key]], w.calls)
      requires PendingIn(effects, usedComponents, components)
      requires renderQueued || AllSeen(St(), usedComponents, seen)
      modifies this`components, this`records, this`usedComponents, this`effects, this`seen
      modifies this`renderQueued, this`microtasks, this`nextInstance
      ensures Inv(effects, {}) && usedComponents == old(usedComponents) + {w.key} && usedComponents <= components.Keys
      ensures OthersKept(old(St()), St(), w.key)
      ensures records == Rendered(old(records), components[w.key], w)
      ensures var i := components[w.key];
        effects == old(effects) + QueuedHooks(RecordOf(old(records), i), i, w.calls)
      ensures components[w.key] in records && HookedUpTo(records[components[w.key]], w.calls, |w.calls|)
      ensures PendingIn(effects, usedComponents, components)
      ensures renderQueued || AllSeen(St(), usedComponents, seen)
    {
      hide Consistent, RunIn, HookedUpTo, AllSeen, SameShape, Fits, PendingIn, OthersKept, AfterHooks, AppliedAll,
        RecordOf, QueuedHooks;
      ghost var first := St();
      var i := CallComponent(w);
      ghost var middle := St();
      ApplyUpdates(w.updates);
      SameShapeKeys(middle, St());
      FinishComponent(first, middle, St(), log, effects, w);
    }

    // ---------- Cleanups and effects ----------

    /** Calls the waiting cleanup function of a place. */
    method Clean(i: nat, s: nat, world: World, ghost pending: seq<Pending>, ghost cleaned: set<Place>)
      requires Inv(pending, cleaned) && Mounted(St(), i) && i in records && s in records[i].cleanups
      requires (i, s) !in cleaned
      modifies this`log, this`records, this`renderQueued, this`microtasks
      ensures Inv(pending, cleaned + {(i, s)}) && SameShape(old(St()), St())
      ensures log == old(log) + [Cleaned(i, s, old(records)[i].cleanups[s])] && Runs(log) == Runs(old(log))
      ensures Grew(world, old(records), old(log), records, log)
      ensures !renderQueued ==> St() == old(St()) && !old(renderQueued)
    {
      hide Consistent, Lawful, SameShape, AppliedAll, Grew, Runs;
      RunsGrow(log, Cleaned(i, s, records[i].cleanups[s]));
      GrewByOne(world, records, log, Cleaned(i, s, records[i].cleanups[s]));
      ghost var before := St();
      var run := records[i].cleanups[s];
      CleanConsistent(St(), log, pending, cleaned, i, s);
      CleanedRuns(log, i, s, run);
      log := log + [Cleaned(i, s, run)];
      ApplyUpdates(world.cleanups(run));
      SameShapeConsistent(before, St(), log, pending, cleaned + {(i, s)});
      SameShapeKeys(before, St());
    }

    /** The body of the loop in `cleanupUnusedComponents`, for a component no longer used. */
    method CleanupComponent(key: string, world: World)
      requires Inv(effects, {}) && key in components && components[key] in records
      requires forall p :: p in effects ==> p.instance != components[key]
      modifies this`log, this`components, this`records, this`renderQueued, this`microtasks
      ensures Inv(effects, {}) && components == old(components) - {key}
      ensures old(log) <= log && Runs(log) == Runs(old(log)) && OnlyCleanups(log, |old(log)|)
      ensures Grew(world, old(records), old(log), records, log)
      ensures SameShape(Unmount(old(St()), key), St())
      ensures !renderQueued ==> records == old(records) && !old(renderQueued)
    {
      hide Consistent, Lawful, SameShape, RunIn, Grew, Runs;
      GrewNot(world, records, log);
      var i := components[key];
      ghost var before := St();
      var slots := records[i].cleanups.Keys;
      ghost var done: set<Place> := {};
      SameShapeSelf(before);
      while slots != {}
        invariant Inv(effects, done) && components == old(components)
        invariant old(log) <= log && Runs(log) == Runs(old(log)) && OnlyCleanups(log, |old(log)|)
        invariant Grew(world, old(records), old(log), records, log)
        invariant SameShape(before, St()) && i in records && records[i].cleanups == before.records[i].cleanups
        invariant slots <= records[i].cleanups.Keys
        invariant forall s :: s in records[i].cleanups ==> (s in slots <==> (i, s) !in done)
        invariant forall p :: p in done ==> p.0 == i
        invariant !renderQueued ==> records == old(records) && !old(renderQueued)
        decreases slots
      {
        var s :| s in slots;
        ghost var now, early := St(), log;
        Clean(i, s, world, effects, done);
        GrewOn(world, old(records), old(log), now.records, early, records, log);
        SameShapeChain(before, now, St());
        SameShapeRecord(now, St(), i);
        done, slots := done + {(i, s)}, slots - {s};
      }
      UnmountConsistent(St(), log, effects, done, key);
      components := components - {key};
      SameShapeUnmount(before, Store(old(components), records), key);
    }

    method CleanupUnusedComponents(world: World)
      requires Inv(effects, {}) && usedComponents <= components.Keys && PendingIn(effects, usedComponents, components)
      modifies this`log, this`components, this`records, this`renderQueued, this`microtasks
      ensures Inv(effects, {}) && components.Keys == usedComponents
      ensures old(log) <= log && Runs(log) == Runs(old(log)) && OnlyCleanups(log, |old(log)|)
      ensures Grew(world, old(records), old(log), records, log)
      ensures forall k :: k in components ==> k in old(components) && components[k] == old(components)[k]
      ensures HooksKept(old(St()), St())
      ensures !renderQueued ==> records == old(records) && !old(renderQueued)
    {
      hide Consistent, RunIn, PendingIn, SameShape, HooksKept, Grew, Runs;
      ghost var before := St();
      HooksKeptSelf(before);
      GrewNot(world, records, log);
      var keys := components.Keys;
      while keys != {}
        invariant Inv(effects, {})
        invariant old(log) <= log && Runs(log) == Runs(old(log)) && OnlyCleanups(log, |old(log)|)
        invariant Grew(world, old(records), old(log), records, log)
        invariant usedComponents <= components.Keys <= usedComponents + keys && keys <= old(components).Keys
        invariant forall k :: k in keys ==> k in components
        invariant forall k :: k in components ==> k in old(components) && components[k] == old(components)[k]
        invariant HooksKept(before, St())
        invariant !renderQueued ==> records == old(records) && !old(renderQueued)
        decreases keys
      {
        var key :| key in keys;
        keys := keys - {key};
        if key !in usedComponents {
          ghost var now, early := St(), log;
          StoreFacts(St(), log, effects);
          PendingUsed(effects, usedComponents, old(components), components, key);
          CleanupComponent(key, world);
          HooksKeptShape(before, now, key, St());
          GrewOn(world, old(records), old(log), now.records, early, records, log);
        }
      }
    }

    /** One of the functions queued by `useEffect`. */
    method RunEffect(world: World, p: Pending, ghost pending: seq<Pending>)
      requires pending != [] && p == pending[0] && Inv(pending, {}) && p.instance in records
      modifies this`log, this`records, this`renderQueued, this`microtasks, this`nextRun
      ensures Inv(pending[1..], {}) && HooksKept(old(St()), St())
      ensures log ==
        old(log) + RunEvents(old(records)[p.instance], p, old(nextRun), world.effects(old(nextRun)).returned)
      ensures Runs(log) == Runs(old(log)) + [p]
      ensures Grew(world, old(records), old(log), records, log)
      ensures !renderQueued ==> HooksEqual(old(St()), St()) && !old(renderQueued)
    {
      hide Consistent, RunIn, SameShape, Lawful, AfterRun, HooksKept, HooksEqual, Grew, Runs;
      PendingMounted(St(), log, pending);
      ghost var first := St();
      ghost var cleaned: set<Place> := if p.slot in records[p.instance].cleanups then {(p.instance, p.slot)} else {};
      SameShapeSelf(first);
      GrewNot(world, records, log);
      if p.slot in records[p.instance].cleanups {
        Clean(p.instance, p.slot, world, pending, {});
        assert cleaned == {} + {(p.instance, p.slot)};
      }
      ghost var middle, early := St(), log;
      SameShapeRecord(first, middle, p.instance);
      RunsGrow(log, Ran(p.instance, p.slot, nextRun, p.deps, world.effects(nextRun).returned));
      CallEffect(world, p, pending, cleaned);
      HooksKeptLater(first, middle, St());
      GrewOn(world, old(records), old(log), middle.records, early, records, log);
    }

    /** The effect function runs, and its cleanup function is kept. */
    method CallEffect(world: World, p: Pending, ghost pending: seq<Pending>, ghost cleaned: set<Place>)
      requires pending != [] && p == pending[0] && Inv(pending, cleaned) && p.instance in records
      requires cleaned == if p.slot in records[p.instance].cleanups then {(p.instance, p.slot)} else {}
      modifies this`log, this`records, this`renderQueued, this`microtasks, this`nextRun
      ensures Inv(pending[1..], {}) && HooksKept(old(St()), St())
      ensures log == old(log) + [Ran(p.instance, p.slot, old(nextRun), p.deps, world.effects(old(nextRun)).returned)]
      ensures Grew(world, old(records), old(log), records, log)
      ensures !renderQueued ==> HooksEqual(old(St()), St()) && !old(renderQueued)
    {
      hide Consistent, RunIn, SameShape, Lawful, AfterRun, HooksKept, HooksEqual, Grew, AppliedAll;
      ghost var first := St();
      var outcome := world.effects(nextRun);
      GrewByOne(world, records, log, Ran(p.instance, p.slot, nextRun, p.deps, outcome.returned));
      ApplyUpdates(outcome.updates);
      ghost var middle := St();
      SameShapeConsistent(first, middle, log, pending, cleaned);
      SameShapeRecord(first, middle, p.instance);
      SameShapeKeys(first, middle);
      FinishRun(outcome, p, pending, cleaned);
      HooksKeptChain(first, middle, St());
    }

    /** The effect function has returned: its cleanup function, if any, is kept. */
    method FinishRun(outcome: Outcome, p: Pending, ghost pending: seq<Pending>, ghost cleaned: set<Place>)
      requires pending != [] && p == pending[0] && Inv(pending, cleaned) && p.instance in records
      requires cleaned == if p.slot in records[p.instance].cleanups then {(p.instance, p.slot)} else {}
      modifies this`log, this`records, this`nextRun
      ensures Inv(pending[1..], {}) && HooksEqual(old(St()), St())
      ensures log == old(log) + [Ran(p.instance, p.slot, old(nextRun), p.deps, outcome.returned)]
      ensures records ==
        old(records)[p.instance := AfterRun(old(records)[p.instance], p.slot, old(nextRun), outcome.returned)]
    {
      hide Consistent, Lawful;
      ghost var e := Ran(p.instance, p.slot, nextRun, p.deps, outcome.returned);
      RunConsistent(St(), log, pending, cleaned, e);
      RanRuns(log, e);
      var rec := records[p.instance];
      var cleanups := if outcome.returned then rec.cleanups[p.slot := nextRun] else rec.cleanups - {p.slot};
      records := records[p.instance := rec.(cleanups := cleanups)];
      log := log + [e];
      nextRun := nextRun + 1;
    }

    // ---------- A whole render ----------

    method RenderAll(visits: seq<Visit>)
      requires DistinctVisits(visits) && Inv(effects, {}) && effects == [] && usedComponents == {}
      requires AllFit(visits, 0, St())
      modifies this`components, this`records, this`usedComponents, this`effects, this`seen, this`renderQueued,
        this`microtasks, this`nextInstance
      ensures Inv(effects, {}) && usedComponents == KeysOf(visits) && usedComponents <= components.Keys
      ensures PendingIn(effects, usedComponents, components)
      ensures renderQueued || AllSeen(St(), usedComponents, seen)
      ensures AllHooked(visits, |visits|, St())
      ensures IdsKept(old(St()), St()) && records == RenderedAll(old(records), components, visits)
      ensures effects == QueuedAll(old(records), components, visits)
    {
      hide QueuedAll, QueuedHooks, RecordOf;
      hide Inv, AllSeen, PendingIn, HookedUpTo, Fits, OthersKept, Rendered, RenderedAll, IdsKept, AllHooked, AllFit;
      ghost var first := St();
      IdsKeptStart(first, visits);
      assert effects == QueuedAll(first.records, components, visits[..0]) by { NothingQueued(first, visits); }
      NothingPending(usedComponents, components, St(), seen);
      for j := 0 to |visits|
        invariant Inv(effects, {}) && usedComponents == KeysOf(visits[..j]) && usedComponents <= components.Keys
        invariant PendingIn(effects, usedComponents, components)
        invariant renderQueued || AllSeen(St(), usedComponents, seen)
        invariant AllHooked(visits, j, St()) && AllFit(visits, j, St())
        invariant IdsKept(first, St()) && first.components.Keys <= components.Keys
        invariant records == RenderedAll(first.records, components, visits[..j])
        invariant effects == QueuedAll(first.records, components, visits[..j])
      {
        ghost var before := St();
        KeysStep(visits, j);
        FitAt(visits, j, before);
        RenderComponent(visits[j]);
        InvStore(this, effects);
        OthersStep(visits, j, before, St());
        IdsStep(first, before, St(), visits[j].key);
        RenderedStep(first, before, St(), visits, j);
        QueuedStep(first, before, St(), visits, j);
      }
      assert visits[..|visits|] == visits;
    }

    method RunEffects(world: World)
      requires Inv(effects, {})
      modifies this`log, this`records, this`renderQueued, this`microtasks, this`nextRun
      ensures Inv([], {}) && HooksKept(old(St()), St()) && old(log) <= log && Runs(log) == Runs(old(log)) + effects
      ensures OnlyOf(log, |old(log)|, components)
      ensures Grew(world, old(records), old(log), records, log)
      ensures !renderQueued ==> HooksEqual(old(St()), St()) && !old(renderQueued)
    {
      hide Consistent, HooksKept, HooksEqual, RunIn, Grew, Runs;
      ghost var first := St();
      GrewNot(world, records, log);
      HooksKeptSelf(first);
      HooksEqualSelf(first);
      for n := 0 to |effects|
        invariant Inv(effects[n..], {}) && HooksKept(first, St()) && old(log) <= log
        invariant Runs(log) == Runs(old(log)) + effects[..n] && OnlyOf(log, |old(log)|, components)
        invariant Grew(world, old(records), old(log), records, log)
        invariant !renderQueued ==> HooksEqual(first, St()) && !old(renderQueued)
      {
        PendingMounted(St(), log, effects[n..]);
        ghost var before, early := St(), log;
        RunEffect(world, effects[n], effects[n..]);
        HooksChain(first, before, St());
        GrewOn(world, old(records), old(log), before.records, early, records, log);
        assert effects[..n + 1] == effects[..n] + [effects[n]];
      }
      assert effects[..|effects|] == effects;
    }

    /** `render`, with the component functions' calls in `tree`, under fixed hook order and with nothing
        thrown. The records become what the calls of component functions, cleanup functions and effects
        make of them, in the order in which they were called. */
    method Render(tree: VNode, world: World)
      requires Inv([], {}) && AllFit(Visits(tree, "0"), 0, St())
      modifies this
      ensures Valid() && vnode == old(vnode) && shown == old(vnode) && old(log) <= log
      ensures components.Keys == KeysOf(Visits(tree, "0")) && IdsKept(old(St()), St())
      ensures EffectsCurrent(Visits(tree, "0"), St(), log)
      ensures records == Replay(world, RenderedAll(old(records), components, Visits(tree, "0")), log[|old(log)|..])
      ensures Runs(log) == Runs(old(log)) + QueuedAll(old(records), components, Visits(tree, "0"))
      ensures OwnRecords(components, Visits(tree, "0")) && CleanupsFirst(log, |old(log)|, components)
    {
      hide Inv, AllSeen, AllHooked, AllFit, HookedUpTo, PendingIn, HooksKept, HooksEqual, SameHooks, IdsKept, Grew,
        Replay, RenderedAll, Lawful;
      hide Visits, Consistent, WellFormedStore, DistinctVisits, EffectsCurrent, Runs, QueuedAll, OwnRecords,
        OnlyCleanups, OnlyOf, CleanupsFirst;
      effects := [];
      usedComponents := {};
      shown := vnode;
      var visits := Visits(tree, "0");
      KeysDistinct(tree, "0");
      RenderAll(visits);
      ghost var first := St();
      CleanupUnusedComponents(world);
      ghost var middle := St();
      ghost var late := log;
      RunEffects(world);
      InvConsistent(this);
      InvStore(this, []);
      FinishRender(visits, first, middle, St(), log);
      IdsSubset(Store(old(components), old(records)), first, middle, St());
      GrewOn(world, first.records, old(log), middle.records, late, records, log);
      GrewWhole(world, first.records, old(log), records, log);
      FirstThenOf(late, log, |old(log)|, components);
      KeysOfVisits(visits);
      RenderedAllIds(old(records), first.components, components, visits);
      QueuedAllIds(old(records), first.components, components, visits);
      RecordsOwned(St(), visits);
      if !renderQueued { SeenToTheEnd(first, middle, St(), usedComponents, seen); }
    }

    /** The queued microtask. */
    method RunMicrotask(tree: VNode, world: World)
      requires Valid() && renderQueued && AllFit(Visits(tree, "0"), 0, St())
      modifies this
      ensures Valid() && vnode == old(vnode) && shown == old(vnode) && old(log) <= log
      ensures components.Keys == KeysOf(Visits(tree, "0")) && IdsKept(old(St()), St())
      ensures EffectsCurrent(Visits(tree, "0"), St(), log)
      ensures records == Replay(world, RenderedAll(old(records), components, Visits(tree, "0")), log[|old(log)|..])
      ensures Runs(log) == Runs(old(log)) + QueuedAll(old(records), components, Visits(tree, "0"))
      ensures OwnRecords(components, Visits(tree, "0")) && CleanupsFirst(log, |old(log)|, components)
    {
      hide Consistent, AllSeen, RunIn, AllFit, EffectsCurrent, IdsKept, Replay, RenderedAll, Runs, QueuedAll,
        OwnRecords, CleanupsFirst;
      microtasks := microtasks - 1;
      renderQueued := false;
      Render(tree, world);
    }
  }

  /** A component that stays keeps its record; a new one starts with a record of its own. */
  ghost predicate IdsKept(a: Store, b: Store) {
    && a.records.Keys <= b.records.Keys
    && forall k :: k in b.components ==>
         if k in a.components then b.components[k] == a.components[k] else b.components[k] !in a.records
  }

  lemma SetToSame(records: Records, u: Update)
    requires u.instance in records && IsState(records[u.instance], u.slot)
    requires records[u.instance].hooks[u.slot].value == u.value
    ensures Applied(records, u) == records
  {
    var rec := records[u.instance];
    assert rec.hooks[u.slot := StateSlot(u.value)] == rec.hooks;
  }

  lemma SameShapeKeys(a: Store, b: Store)
    requires SameShape(a, b)
    ensures a.components == b.components && a.records.Keys == b.records.Keys
  {
  }

  lemma IdsKeptStart(first: Store, visits: seq<Visit>)
    ensures IdsKept(first, first) && RenderedAll(first.records, first.components, visits[..0]) == first.records
    ensures AllHooked(visits, 0, first)
  {
  }

  lemma FitAt(visits: seq<Visit>, j: nat, st: Store)
    requires j < |visits| && AllFit(visits, j, st)
    ensures visits[j].key in st.components ==>
      st.components[visits[j].key] in st.records && Fits(st.records[st.components[visits[j].key]], visits[j].calls)
  {
  }

  /** One component further, the identities and the records are as they should be. */
  lemma IdsStep(first: Store, before: Store, after: Store, key: string)
    requires IdsKept(first, before) && OthersKept(before, after, key) && first.components.Keys <= before.components.Keys
    ensures IdsKept(first, after) && first.components.Keys <= after.components.Keys
  {
    hide SameRecord;
  }

  lemma RenderedStep(first: Store, before: Store, after: Store, visits: seq<Visit>, j: nat)
    requires j < |visits| && DistinctVisits(visits) && OthersKept(before, after, visits[j].key)
    requires KeysOf(visits[..j]) <= before.components.Keys
    requires before.records == RenderedAll(first.records, before.components, visits[..j])
    requires after.records == Rendered(before.records, after.components[visits[j].key], visits[j])
    ensures after.records == RenderedAll(first.records, after.components, visits[..j + 1])
  {
    hide Rendered, RenderedAll, DistinctVisits, KeysOf;
    KeysStep(visits, j);
    KeysOfVisits(visits[..j]);
    SameIds(before, after, visits[j].key, visits[..j]);
    RenderedAllIds(first.records, before.components, after.components, visits[..j]);
    RenderedLast(first.records, after.components, visits[..j], visits[j]);
    assert visits[..j + 1] == visits[..j] + [visits[j]];
  }

  lemma RecordsOwned(st: Store, visits: seq<Visit>)
    requires WellFormedStore(st) && DistinctVisits(visits) && st.components.Keys == KeysOf(visits)
    ensures OwnRecords(st.components, visits)
  {
    forall w | w in visits ensures w.key in st.components { assert w.key in KeysOf(visits); }
    assert forall m :: 0 <= m < |visits| ==> visits[m] in visits;
  }

  lemma NothingQueued(first: Store, visits: seq<Visit>)
    ensures QueuedAll(first.records, first.components, visits[..0]) == []
  {
  }

  /** One component further, the queue is as it should be. */
  lemma QueuedStep(first: Store, before: Store, after: Store, visits: seq<Visit>, j: nat)
    requires j < |visits| && DistinctVisits(visits) && OthersKept(before, after, visits[j].key)
    requires KeysOf(visits[..j]) <= before.components.Keys
    requires before.records == RenderedAll(first.records, before.components, visits[..j])
    ensures var w := visits[j]; var i := after.components[w.key];
      QueuedAll(first.records, after.components, visits[..j + 1]) ==
        QueuedAll(first.records, before.components, visits[..j]) +
        QueuedHooks(RecordOf(before.records, i), i, w.calls)
  {
    hide RenderedAll, DistinctVisits, KeysOf, QueuedAll, QueuedHooks, RecordOf;
    KeysStep(visits, j);
    KeysOfVisits(visits[..j]);
    SameIds(before, after, visits[j].key, visits[..j]);
    RenderedAllIds(first.records, before.components, after.components, visits[..j]);
    QueuedAllIds(first.records, before.components, after.components, visits[..j]);
    QueuedLast(first.records, after.components, visits[..j], visits[j]);
    assert visits[..j + 1] == visits[..j] + [visits[j]];
  }

  lemma SameIds(before: Store, after: Store, key: string, visits: seq<Visit>)
    requires OthersKept(before, after, key) && key !in KeysOf(visits) && KeysOf(visits) <= before.components.Keys
    ensures key in after.components
    ensures forall w :: w in visits ==>
      w.key in before.components && w.key in after.components && before.components[w.key] == after.components[w.key]
  {
    hide SameRecord, KeysOf;
    KeysOfVisits(visits);
  }

  lemma RenderedLast(records: Records, ids: map<string, nat>, visits: seq<Visit>, w: Visit)
    requires w.key in ids
    ensures RenderedAll(records, ids, visits + [w]) == Rendered(RenderedAll(records, ids, visits), ids[w.key], w)
  {
    hide Rendered;
    assert (visits + [w])[..|visits|] == visits;
  }

  lemma KeysOfVisits(visits: seq<Visit>)
    ensures forall w :: w in visits ==> w.key in KeysOf(visits)
  {
  }

  lemma InvConsistent(r: Runtime)
    requires r.Inv([], {})
    ensures Consistent(r.St(), r.log, [], {})
  {
  }

  /** Dropping components and running effects leaves the identities of the others. */
  lemma IdsSubset(start: Store, first: Store, middle: Store, last: Store)
    requires IdsKept(start, first) && last.components == middle.components
    requires HooksKept(first, middle) && HooksKept(middle, last)
    requires forall k :: k in middle.components ==> k in first.components && middle.components[k] == first.components[k]
    ensures IdsKept(start, last)
  {
  }

  lemma GrewWhole(world: World, a: Records, x: Log, b: Records, y: Log)
    requires Grew(world, a, x, b, y)
    ensures b == Replay(world, a, y[|x|..])
  {
  }

  /** Between tasks the log of effects is lawful, and the cleanup functions not called yet are those kept by
      the components in the tree: leaving the tree has called all of a component's. */
  lemma LiveMeansMounted(r: Runtime)
    requires r.Valid()
    ensures Lawful(r.log)
    ensures forall p: Place :: p in Live(r.log) <==>
      Mounted(r.St(), p.0) && p.0 in r.records && p.1 in r.records[p.0].cleanups
    ensures forall p: Place :: p in Live(r.log) ==> r.records[p.0].cleanups[p.1] == Live(r.log)[p]
  {
    hide Lawful, Live, DepsAgree, AllSeen, RunIn;
  }

  /** When a component has left the tree, every cleanup function its effects ever returned has been called. */
  lemma LeftMeansCleaned(r: Runtime, a: nat) returns (c: nat)
    requires r.Valid() && a < |r.log| && r.log[a].Ran? && r.log[a].returned && !Mounted(r.St(), r.log[a].instance)
    ensures a < c < |r.log| && r.log[c] == Cleaned(r.log[a].instance, r.log[a].slot, r.log[a].run)
  {
    hide Lawful, Live, Mounted;
    LiveMeansMounted(r);
    c := CleanedAfter(r.log, a);
  }

  lemma NotAwaited(pending: seq<Pending>, before: seq<Pending>, i: nat, s: nat)
    requires forall p :: p in before ==> p.instance != i
    requires forall p :: p in pending ==> p in before || (p.instance == i && p.slot < s)
    ensures !Awaits(pending, i, s)
  {
  }

  /** Queued effects belong to components already rendered this time. */
  ghost predicate PendingIn(pending: seq<Pending>, used: set<string>, components: map<string, nat>) {
    forall p :: p in pending ==> exists k :: k in used && k in components && components[k] == p.instance
  }

  lemma StoreFacts(st: Store, log: Log, pending: seq<Pending>)
    requires Consistent(st, log, pending, {})
    ensures WellFormedStore(st)
  {
  }

  lemma PendingElsewhere(pending: seq<Pending>, used: set<string>, before: map<string, nat>,
                         components: map<string, nat>, key: string)
    requires key in components && key !in used && PendingIn(pending, used, before)
    requires components == before[key := components[key]]
    requires forall k, l :: k in components && l in components && components[k] == components[l] ==> k == l
    ensures forall p :: p in pending ==> p.instance != components[key]
  {
    forall p | p in pending ensures p.instance != components[key] {
      var k :| k in used && k in before && before[k] == p.instance;
      assert components[k] == before[k];
    }
  }

  lemma SameShapeRecord(a: Store, b: Store, i: nat)
    requires SameShape(a, b) && i in a.records
    ensures i in b.records && SameRecord(a.records[i], b.records[i])
  {
  }

  lemma AllSeenGrows(first: Store, middle: Store, used: set<string>, early: map<Place, Value>, seen: map<Place, Value>,
                     key: string)
    requires WellFormedStore(middle) && key in middle.components && key !in used && used <= first.components.Keys
    requires middle.components == first.components[key := middle.components[key]]
    requires forall j :: j in first.records && j != middle.components[key] ==>
      j in middle.records && middle.records[j] == first.records[j]
    requires forall k :: k in first.components ==> first.components[k] in first.records
    requires SeenElsewhere(early, seen, middle.components[key])
    requires middle.components[key] in middle.records
    requires SeenBelow(middle.records[middle.components[key]], middle.components[key], seen, None)
    ensures AllSeen(first, used, early) ==> AllSeen(middle, used + {key}, seen)
  {
    if AllSeen(first, used, early) {
      forall k | k in used ensures SeenBelow(middle.records[middle.components[k]], middle.components[k], seen, None) {
        assert SeenBelow(first.records[first.components[k]], first.components[k], early, None);
      }
    }
  }

  lemma PendingGrows(before: seq<Pending>, after: seq<Pending>, used: set<string>, start: map<string, nat>,
                     now: map<string, nat>, key: string)
    requires PendingIn(before, used, start) && key in now && key !in used && now == start[key := now[key]]
    requires forall p :: p in after ==> p in before || p.instance == now[key]
    ensures PendingIn(after, used + {key}, now)
  {
    forall p | p in after ensures exists k :: k in used + {key} && k in now && now[k] == p.instance {
      if p in before {
        var k :| k in used && k in start && start[k] == p.instance;
        assert k in used + {key} && k in now && now[k] == p.instance;
      } else {
        assert key in used + {key};
      }
    }
  }

  lemma CleanedRuns(log: Log, i: nat, s: nat, run: nat)
    ensures forall r: nat :: RunIn(log + [Cleaned(i, s, run)], r) ==> RunIn(log, r)
  {
    forall r: nat | RunIn(log + [Cleaned(i, s, run)], r) ensures RunIn(log, r) {
      var n :| 0 <= n < |log| + 1 && (log + [Cleaned(i, s, run)])[n].Ran? && (log + [Cleaned(i, s, run)])[n].run == r;
      assert n < |log| && log[n].run == r;
    }
  }

  lemma SameShapeSelf(a: Store)
    ensures SameShape(a, a)
  {
  }

  lemma SameShapeChain(a: Store, b: Store, c: Store)
    requires SameShape(a, b) && SameShape(b, c)
    ensures SameShape(a, c)
  {
    forall i | i in a.records ensures SameRecord(a.records[i], c.records[i]) {
      assert SameRecord(b.records[i], c.records[i]);
    }
  }

  lemma SameShapeUnmount(a: Store, b: Store, key: string)
    requires SameShape(a, b)
    ensures SameShape(Unmount(a, key), Unmount(b, key))
  {
  }

  lemma FinishComponent(first: Store, middle: Store, last: Store, log: Log, pending: seq<Pending>, w: Visit)
    requires Consistent(middle, log, pending, {}) && SameShape(middle, last)
    requires w.key in middle.components && middle.components[w.key] in middle.records
    requires middle.components == first.components[w.key := middle.components[w.key]]
    requires if w.key in first.components then middle.components[w.key] == first.components[w.key]
             else middle.components[w.key] !in first.records
    requires first.records.Keys <= middle.records.Keys
    requires forall j :: j in first.records && j != middle.components[w.key] ==> middle.records[j] == first.records[j]
    requires HookedUpTo(middle.records[middle.components[w.key]], w.calls, |w.calls|)
    ensures Consistent(last, log, pending, {}) && OthersKept(first, last, w.key)
    ensures last.records.Keys == middle.records.Keys && last.components == middle.components
    ensures HookedUpTo(last.records[last.components[w.key]], w.calls, |w.calls|)
  {
    hide Consistent, HookedUpTo;
    SameShapeConsistent(middle, last, log, pending, {});
    SameHooksHooked(middle.records[middle.components[w.key]], last.records[middle.components[w.key]], w.calls,
                    |w.calls|);
  }

  /** The calls one queued effect makes: the old cleanup function if there is one, then the effect. */
  ghost function RunEvents(rec: Record, p: Pending, run: nat, returned: bool): Log {
    (if p.slot in rec.cleanups then [Cleaned(p.instance, p.slot, rec.cleanups[p.slot])] else [])
    + [Ran(p.instance, p.slot, run, p.deps, returned)]
  }

  /** Records stay, with hooks that differ in state values at most. */
  ghost predicate HooksKept(a: Store, b: Store) {
    a.records.Keys <= b.records.Keys && forall i :: i in a.records ==> SameHooks(a.records[i].hooks, b.records[i].hooks)
  }

  ghost predicate HooksEqual(a: Store, b: Store) {
    a.components == b.components && a.records.Keys == b.records.Keys &&
    forall i :: i in a.records ==> a.records[i].hooks == b.records[i].hooks
  }

  lemma HooksKeptSelf(a: Store)
    ensures HooksKept(a, a)
  {
  }

  lemma HooksKeptShape(a: Store, b: Store, key: string, c: Store)
    requires HooksKept(a, b) && SameShape(Unmount(b, key), c)
    ensures HooksKept(a, c)
  {
    forall i | i in a.records ensures SameHooks(a.records[i].hooks, c.records[i].hooks) {
      assert SameRecord(Unmount(b, key).records[i], c.records[i]);
    }
  }

  lemma HooksKeptChain(a: Store, b: Store, c: Store)
    requires SameShape(a, b) && HooksEqual(b, c)
    ensures HooksKept(a, c) && a.components == c.components
    ensures a.records == b.records ==> HooksEqual(a, c)
  {
    forall i | i in a.records ensures SameHooks(a.records[i].hooks, c.records[i].hooks) {
      assert SameRecord(a.records[i], b.records[i]);
    }
  }

  lemma HooksKeptLater(a: Store, b: Store, c: Store)
    requires SameShape(a, b) && HooksKept(b, c)
    ensures HooksKept(a, c)
    ensures a == b && HooksEqual(b, c) ==> HooksEqual(a, c)
  {
    forall i | i in a.records ensures SameHooks(a.records[i].hooks, c.records[i].hooks) {
      assert SameRecord(a.records[i], b.records[i]) && SameHooks(b.records[i].hooks, c.records[i].hooks);
    }
  }

  lemma PendingUsed(pending: seq<Pending>, used: set<string>, before: map<string, nat>, components: map<string, nat>,
                    key: string)
    requires PendingIn(pending, used, before) && used <= components.Keys && key in components && key !in used
    requires forall k :: k in components ==> k in before && components[k] == before[k]
    requires forall k, l :: k in components && l in components && components[k] == components[l] ==> k == l
    ensures forall p :: p in pending ==> p.instance != components[key]
  {
    forall p | p in pending ensures p.instance != components[key] {
      var k :| k in used && k in before && before[k] == p.instance;
      assert components[k] == before[k];
    }
  }

  lemma PendingMounted(st: Store, log: Log, pending: seq<Pending>)
    requires Consistent(st, log, pending, {}) && pending != []
    ensures Mounted(st, pending[0].instance) && pending[0].instance in st.records
  {
    assert pending[0] in pending;
  }

  lemma RanRuns(log: Log, e: Event)
    requires e.Ran?
    ensures forall r: nat :: RunIn(log + [e], r) ==> RunIn(log, r) || r == e.run
  {
    forall r: nat | RunIn(log + [e], r) ensures RunIn(log, r) || r == e.run {
      var n :| 0 <= n < |log| + 1 && (log + [e])[n].Ran? && (log + [e])[n].run == r;
      if n < |log| { assert log[n].run == r; }
    }
  }

  function KeysOf(visits: seq<Visit>): set<string> { set w | w in visits :: w.key }

  /** The components visited so far have the hooks their calls asked for. */
  ghost predicate AllHooked(visits: seq<Visit>, n: nat, st: Store) {
    forall m :: 0 <= m < n && m < |visits| ==>
      && visits[m].key in st.components && st.components[visits[m].key] in st.records
      && HookedUpTo(st.records[st.components[visits[m].key]], visits[m].calls, |visits[m].calls|)
  }

  /** Fixed hook order: the components still to come call the hooks they called before. */
  ghost predicate AllFit(visits: seq<Visit>, n: nat, st: Store) {
    forall m :: n <= m < |visits| && visits[m].key in st.components ==>
      st.components[visits[m].key] in st.records && Fits(st.records[st.components[visits[m].key]], visits[m].calls)
  }

  lemma NothingPending(used: set<string>, components: map<string, nat>, st: Store, seen: map<Place, Value>)
    ensures PendingIn([], used, components) && AllSeen(st, {}, seen)
  {
  }

  lemma KeysStep(visits: seq<Visit>, j: nat)
    requires DistinctVisits(visits) && j < |visits|
    ensures KeysOf(visits[..j + 1]) == KeysOf(visits[..j]) + {visits[j].key}
    ensures visits[j].key !in KeysOf(visits[..j])
  {
    assert visits[..j + 1] == visits[..j] + [visits[j]];
  }

  lemma OthersStep(visits: seq<Visit>, j: nat, before: Store, after: Store)
    requires DistinctVisits(visits) && j < |visits| && AllHooked(visits, j, before) && AllFit(visits, j, before)
    requires OthersKept(before, after, visits[j].key) && WellFormedStore(after)
    requires after.components[visits[j].key] in after.records
    requires HookedUpTo(after.records[after.components[visits[j].key]], visits[j].calls, |visits[j].calls|)
    ensures AllHooked(visits, j + 1, after) && AllFit(visits, j + 1, after)
  {
    hide HookedUpTo, Fits;
    forall m | 0 <= m < |visits| && m != j && visits[m].key in before.components
      ensures visits[m].key in after.components && after.components[visits[m].key] == before.components[visits[m].key]
      ensures before.components[visits[m].key] in before.records ==>
        SameRecord(before.records[before.components[visits[m].key]], after.records[before.components[visits[m].key]])
    {
      assert after.components[visits[m].key] != after.components[visits[j].key];
    }
    forall m | 0 <= m < j
      ensures HookedUpTo(after.records[after.components[visits[m].key]], visits[m].calls, |visits[m].calls|)
    {
      var i := before.components[visits[m].key];
      SameHooksHooked(before.records[i], after.records[i], visits[m].calls, |visits[m].calls|);
    }
    forall m | j < m < |visits| && visits[m].key in after.components
      ensures after.components[visits[m].key] in after.records
      ensures Fits(after.records[after.components[visits[m].key]], visits[m].calls)
    {
      var i := before.components[visits[m].key];
      SameRecordFits(before.records[i], after.records[i], visits[m].calls);
    }
  }

  lemma SameRecordFits(a: Record, b: Record, calls: seq<HookCall>)
    requires SameRecord(a, b) && Fits(a, calls)
    ensures Fits(b, calls)
  {
  }

  lemma HooksEqualSelf(a: Store)
    ensures HooksEqual(a, a)
  {
  }

  lemma HooksChain(a: Store, b: Store, c: Store)
    requires HooksKept(a, b) && HooksKept(b, c)
    ensures HooksKept(a, c)
    ensures HooksEqual(a, b) && HooksEqual(b, c) ==> HooksEqual(a, c)
  {
    forall i | i in a.records ensures SameHooks(a.records[i].hooks, c.records[i].hooks) {
      assert SameHooks(a.records[i].hooks, b.records[i].hooks) && SameHooks(b.records[i].hooks, c.records[i].hooks);
    }
  }

  /** Every effect of every component on the page last ran with the dependencies of its latest call. */
  ghost predicate EffectsCurrent(visits: seq<Visit>, st: Store, log: Log) {
    forall m, s :: 0 <= m < |visits| && 0 <= s < |visits[m].calls| && visits[m].calls[s].UseEffect? ==>
      visits[m].key in st.components && LastDeps(log, st.components[visits[m].key], s) == Some(visits[m].calls[s].deps)
  }

  lemma InvStore(r: Runtime, pending: seq<Pending>)
    requires r.Inv(pending, {})
    ensures WellFormedStore(r.St())
  {
  }

  lemma SeenStart(rec: Record, i: nat, seen: map<Place, Value>)
    ensures SeenBelow(rec, i, seen, Some(0)) && SeenElsewhere(seen, seen, i)
  {
  }

  /** After hook `s`, the state slots up to and including it have been seen. */
  lemma SeenNext(rec: Record, i: nat, s: nat, call: HookCall, first: map<Place, Value>, early: map<Place, Value>,
                 seen: map<Place, Value>)
    requires SeenBelow(rec, i, early, Some(s)) && (s in rec.hooks ==> FitsCall(rec.hooks[s], call))
    requires SeenElsewhere(first, early, i)
    requires var after := AfterHook(rec, s, call);
      seen ==
        if call.UseState? && s in after.hooks && after.hooks[s].StateSlot? then
          early[(i, s) := after.hooks[s].value]
        else early
    ensures SeenBelow(AfterHook(rec, s, call), i, seen, Some(s + 1)) && SeenElsewhere(first, seen, i)
  {
  }

  lemma SeenDone(rec: Record, i: nat, calls: seq<HookCall>, seen: map<Place, Value>)
    requires SeenBelow(rec, i, seen, Some(|calls|)) && HookedUpTo(rec, calls, |calls|)
    ensures SeenBelow(rec, i, seen, None)
  {
  }

  lemma FinishRender(visits: seq<Visit>, first: Store, middle: Store, last: Store, log: Log)
    requires AllHooked(visits, |visits|, first) && HooksKept(first, middle) && HooksKept(middle, last)
    requires middle.components.Keys == KeysOf(visits) && last.components == middle.components
    requires forall k :: k in middle.components ==> k in first.components && middle.components[k] == first.components[k]
    requires Consistent(last, log, [], {})
    ensures EffectsCurrent(visits, last, log)
  {
    hide LastDeps, Lawful, Live, HookedUpTo;
    HooksChain(first, middle, last);
    forall m, s | 0 <= m < |visits| && 0 <= s < |visits[m].calls| && visits[m].calls[s].UseEffect?
      ensures visits[m].key in last.components
      ensures LastDeps(log, last.components[visits[m].key], s) == Some(visits[m].calls[s].deps)
    {
      var w := visits[m];
      assert w.key in KeysOf(visits);
      var i := first.components[w.key];
      SameHooksHooked(first.records[i], last.records[i], w.calls, |w.calls|);
      CurrentAt(last, log, i, w.calls, s);
    }
  }

  lemma CurrentAt(st: Store, log: Log, i: nat, calls: seq<HookCall>, s: nat)
    requires Consistent(st, log, [], {}) && Mounted(st, i) && i in st.records
    requires HookedUpTo(st.records[i], calls, |calls|) && s < |calls| && calls[s].UseEffect?
    ensures LastDeps(log, i, s) == Some(calls[s].deps)
  {
    hide LastDeps, Lawful, Live;
    assert DepsAt(st.records[i], log, [], i, s);
  }

  lemma SeenToTheEnd(first: Store, middle: Store, last: Store, used: set<string>, seen: map<Place, Value>)
    requires AllSeen(first, used, seen) && middle.records == first.records && HooksEqual(middle, last)
    requires forall k :: k in middle.components ==> k in first.components && middle.components[k] == first.components[k]
    ensures AllSeen(last, used, seen)
  {
    hide SeenBelow;
    forall k | k in used && k in last.components && last.components[k] in last.records
      ensures SeenBelow(last.records[last.components[k]], last.components[k], seen, None)
    {
      SeenSameHooks(first.records[first.components[k]], last.records[last.components[k]], last.components[k], seen);
    }
  }

  lemma SeenSameHooks(a: Record, b: Record, i: nat, seen: map<Place, Value>)
    requires a.hooks == b.hooks && SeenBelow(a, i, seen, None)
    ensures SeenBelow(b, i, seen, None)
  {
  }
}
