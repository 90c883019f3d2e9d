/** Component state records, and what must hold between them and the log of effect calls. */
module HookState {
  import opened Prelude
  import opened VirtualTree
  import opened EffectLog

  /** One entry of a component's `hooks` array. */
  datatype Slot = StateSlot(value: Value) | DepsSlot(deps: Deps) | OtherSlot

  /** A component's `hooks` and the cleanup functions in its `cleanups`, each known by its effect run. */
  datatype Record = Record(hooks: map<nat, Slot>, cleanups: map<nat, nat>)

  /** Keys lead to record objects; setters and effects hold on to the object, not to the key. */
  datatype Store = Store(components: map<string, nat>, records: map<nat, Record>)

  /** An effect queued by `useEffect` and not run yet. */
  datatype Pending = Pending(instance: nat, slot: nat, deps: Deps)

  predicate Mounted(st: Store, i: nat) { i in st.components.Values }

  predicate WellFormedStore(st: Store) {
    && (forall k :: k in st.components ==> st.components[k] in st.records)
    && (forall k, l :: k in st.components && l in st.components && st.components[k] == st.components[l] ==> k == l)
  }

  /** The waiting cleanups are those in the records of mounted components, but for places just cleaned. */
  ghost predicate LiveAgrees(st: Store, live: map<Place, nat>, cleaned: set<Place>) {
    && (forall p :: p in live ==>
         && Mounted(st, p.0) && p.0 in st.records && p.1 in st.records[p.0].cleanups
         && p !in cleaned && live[p] == st.records[p.0].cleanups[p.1])
    && (forall i, s :: Mounted(st, i) && i in st.records && s in st.records[i].cleanups && (i, s) !in cleaned ==>
      (i, s) in live)
  }

  predicate HasDeps(rec: Record, s: nat) { s in rec.hooks && rec.hooks[s].DepsSlot? }

  predicate Awaits(pending: seq<Pending>, i: nat, s: nat) {
    exists p :: p in pending && p.instance == i && p.slot == s
  }

  /** A stored dependency list is that of the last run, or of the one queued because it changed. */
  ghost predicate DepsAt(rec: Record, log: Log, pending: seq<Pending>, i: nat, s: nat) {
    var last := LastDeps(log, i, s);
    if !HasDeps(rec, s) then last.None? && !Awaits(pending, i, s)
    else if Awaits(pending, i, s) then
      forall p :: p in pending && p.instance == i && p.slot == s ==>
        p.deps == rec.hooks[s].deps && (last.Some? ==> DepsChanged(last.value, p.deps))
    else last == Some(rec.hooks[s].deps)
  }

  ghost predicate DepsAgree(st: Store, log: Log, pending: seq<Pending>) {
    && (forall i, s :: Mounted(st, i) && i in st.records ==> DepsAt(st.records[i], log, pending, i, s))
    && (forall i, s :: i !in st.records ==> LastDeps(log, i, s).None?)
  }

  /** Queued effects belong to mounted components, one per place. */
  ghost predicate PendingOk(st: Store, pending: seq<Pending>) {
    && (forall p :: p in pending ==> Mounted(st, p.instance))
    && (forall a, b :: 0 <= a < b < |pending| ==>
      (pending[a].instance, pending[a].slot) != (pending[b].instance, pending[b].slot))
  }

  /** Everything said above, with the log itself lawful. */
  ghost predicate Consistent(st: Store, log: Log, pending: seq<Pending>, cleaned: set<Place>) {
    WellFormedStore(st) && Lawful(log) && LiveAgrees(st, Live(log), cleaned) && DepsAgree(st, log, pending)
      && PendingOk(st, pending)
  }

  // ---------- Fixed hook order ----------

  predicate FitsCall(slot: Slot, call: HookCall) {
    match call
    case UseState(_) => slot.StateSlot?
    case UseEffect(_) => slot.DepsSlot?
    case OtherHook => slot.OtherSlot?
  }

  /** The component calls the hooks it called before, in the same order. */
  predicate Fits(rec: Record, calls: seq<HookCall>) {
    forall s :: s in rec.hooks ==> s < |calls| && FitsCall(rec.hooks[s], calls[s])
  }

  // ---------- Setting state ----------

  predicate SameSlot(a: Slot, b: Slot) { a == b || (a.StateSlot? && b.StateSlot?) }

  predicate SameRecord(a: Record, b: Record) {
    a.cleanups == b.cleanups && a.hooks.Keys == b.hooks.Keys && forall s :: s in a.hooks ==>
      SameSlot(a.hooks[s], b.hooks[s])
  }

  /** The stores differ in state values at most. */
  predicate SameShape(a: Store, b: Store) {
    a.components == b.components && a.records.Keys == b.records.Keys &&
    forall i :: i in a.records ==> SameRecord(a.records[i], b.records[i])
  }

  lemma SameShapeConsistent(a: Store, b: Store, log: Log, pending: seq<Pending>, cleaned: set<Place>)
    requires SameShape(a, b) && Consistent(a, log, pending, cleaned)
    ensures Consistent(b, log, pending, cleaned)
  {
    hide Lawful, Live, DepsAgree, LiveAgrees, SameRecord;
    SameShapeLive(a, b, Live(log), cleaned);
    SameShapeDeps(a, b, log, pending);
  }

  lemma SameShapeLive(a: Store, b: Store, live: map<Place, nat>, cleaned: set<Place>)
    requires SameShape(a, b) && LiveAgrees(a, live, cleaned)
    ensures LiveAgrees(b, live, cleaned)
  {
    hide SameSlot;
    forall i | i in b.records ensures b.records[i].cleanups == a.records[i].cleanups {
      assert SameRecord(a.records[i], b.records[i]);
    }
  }

  lemma SameShapeDeps(a: Store, b: Store, log: Log, pending: seq<Pending>)
    requires SameShape(a, b) && DepsAgree(a, log, pending)
    ensures DepsAgree(b, log, pending)
  {
    hide LastDeps, DepsAt, SameRecord;
    forall i, s | Mounted(b, i) && i in b.records ensures DepsAt(b.records[i], log, pending, i, s) {
      assert SameRecord(a.records[i], b.records[i]);
      SameRecordDeps(a.records[i], b.records[i], log, pending, i, s);
    }
  }

  lemma SameRecordDeps(a: Record, b: Record, log: Log, pending: seq<Pending>, i: nat, s: nat)
    requires SameRecord(a, b) && DepsAt(a, log, pending, i, s)
    ensures DepsAt(b, log, pending, i, s)
  {
    hide LastDeps, DepsChanged, Awaits;
    assert s in a.hooks ==> SameSlot(a.hooks[s], b.hooks[s]);
  }

  /** No state value differs from what its component last saw, for the components in `used`. */
  ghost predicate AllSeen(st: Store, used: set<string>, seen: map<Place, Value>) {
    forall k :: k in used && k in st.components && st.components[k] in st.records ==>
      SeenBelow(st.records[st.components[k]], st.components[k], seen, None)
  }

  /** The state slots below `bound` hold what the component last saw. */
  ghost predicate SeenBelow(rec: Record, i: nat, seen: map<Place, Value>, bound: Option<nat>) {
    forall s :: s in rec.hooks && rec.hooks[s].StateSlot? && (bound.Some? ==> s < bound.value) ==>
      (i, s) in seen && seen[(i, s)] == rec.hooks[s].value
  }

  // ---------- Hooks ----------

  /** The records after one hook call of a component. */
  function AfterHook(rec: Record, s: nat, call: HookCall): Record {
    match call
    case UseState(initial) => if s in rec.hooks then rec else rec.(hooks := rec.hooks[s := StateSlot(initial)])
    case UseEffect(deps) =>
      if DepsChanged(if HasDeps(rec, s) then rec.hooks[s].deps else None, deps) then
        rec.(hooks := rec.hooks[s := DepsSlot(deps)])
      else rec
    case OtherHook => if s in rec.hooks then rec else rec.(hooks := rec.hooks[s := OtherSlot])
  }

  /** The effects queued by one hook call. */
  function QueuedBy(rec: Record, i: nat, s: nat, call: HookCall): seq<Pending> {
    if call.UseEffect? && DepsChanged(if HasDeps(rec, s) then rec.hooks[s].deps else None, call.deps)
    then [Pending(i, s, call.deps)] else []
  }

  function WithRecord(st: Store, i: nat, rec: Record): Store { st.(records := st.records[i := rec]) }

  lemma HookDeps(rec: Record, s: nat, call: HookCall, log: Log, pending: seq<Pending>, i: nat, t: nat)
    requires s in rec.hooks ==> FitsCall(rec.hooks[s], call)
    requires DepsAt(rec, log, pending, i, t)
    requires !Awaits(pending, i, s)
    ensures DepsAt(AfterHook(rec, s, call), log, pending + QueuedBy(rec, i, s, call), i, t)
  {
    hide LastDeps;
    var more := QueuedBy(rec, i, s, call);
    assert forall p :: p in pending + more <==> p in pending || p in more;
    if t == s && call.UseEffect? {
      UnchangedDepsAreEqual(if HasDeps(rec, s) then rec.hooks[s].deps else None, call.deps);
      if more != [] { assert Pending(i, s, call.deps) in pending + more; }
    } else {
      assert Awaits(pending + more, i, t) <==> Awaits(pending, i, t);
    }
  }

  lemma OtherDeps(rec: Record, log: Log, pending: seq<Pending>, more: seq<Pending>, i: nat, t: nat)
    requires DepsAt(rec, log, pending, i, t)
    requires forall p :: p in more ==> p.instance != i
    ensures DepsAt(rec, log, pending + more, i, t)
  {
    hide LastDeps, DepsChanged;
    assert forall p :: p in pending + more <==> p in pending || p in more;
    assert Awaits(pending + more, i, t) <==> Awaits(pending, i, t);
  }

  /** A hook call keeps everything consistent. */
  lemma HookConsistent(st: Store, log: Log, pending: seq<Pending>, i: nat, s: nat, call: HookCall)
    requires Consistent(st, log, pending, {}) && Mounted(st, i) && i in st.records
    requires s in st.records[i].hooks ==> FitsCall(st.records[i].hooks[s], call)
    requires !Awaits(pending, i, s)
    ensures Consistent(WithRecord(st, i, AfterHook(st.records[i], s, call)), log,
                       pending + QueuedBy(st.records[i], i, s, call), {})
  {
    hide Lawful, Live, LiveAgrees, DepsAgree, PendingOk, AfterHook, QueuedBy, Awaits, FitsCall;
    AfterHookCleanups(st.records[i], s, call);
    WithRecordLive(st, i, AfterHook(st.records[i], s, call), Live(log), {});
    HookDepsAgree(st, log, pending, i, s, call);
    HookPending(st, pending, i, s, call);
  }

  lemma AfterHookCleanups(rec: Record, s: nat, call: HookCall)
    ensures AfterHook(rec, s, call).cleanups == rec.cleanups
  {
  }

  lemma WithRecordLive(st: Store, i: nat, rec: Record, live: map<Place, nat>, cleaned: set<Place>)
    requires i in st.records && rec.cleanups == st.records[i].cleanups && LiveAgrees(st, live, cleaned)
    ensures LiveAgrees(WithRecord(st, i, rec), live, cleaned)
  {
  }

  lemma HookDepsAgree(st: Store, log: Log, pending: seq<Pending>, i: nat, s: nat, call: HookCall)
    requires DepsAgree(st, log, pending) && Mounted(st, i) && i in st.records && !Awaits(pending, i, s)
    requires s in st.records[i].hooks ==> FitsCall(st.records[i].hooks[s], call)
    ensures DepsAgree(WithRecord(st, i, AfterHook(st.records[i], s, call)), log,
                      pending + QueuedBy(st.records[i], i, s, call))
  {
    hide LastDeps, DepsAt, AfterHook, QueuedBy, Awaits, FitsCall;
    var rec, more := st.records[i], QueuedBy(st.records[i], i, s, call);
    var after := WithRecord(st, i, AfterHook(rec, s, call));
    QueuedByInstance(rec, i, s, call);
    forall j, t | Mounted(after, j) && j in after.records ensures DepsAt(after.records[j], log, pending + more, j, t) {
      if j == i {
        HookDeps(rec, s, call, log, pending, i, t);
      } else {
        OtherDeps(st.records[j], log, pending, more, j, t);
      }
    }
  }

  lemma QueuedByInstance(rec: Record, i: nat, s: nat, call: HookCall)
    ensures |QueuedBy(rec, i, s, call)| <= 1
    ensures forall p :: p in QueuedBy(rec, i, s, call) ==> p.instance == i && p.slot == s
  {
  }

  lemma HookPending(st: Store, pending: seq<Pending>, i: nat, s: nat, call: HookCall)
    requires PendingOk(st, pending) && Mounted(st, i) && i in st.records && !Awaits(pending, i, s)
    ensures PendingOk(WithRecord(st, i, AfterHook(st.records[i], s, call)),
                      pending + QueuedBy(st.records[i], i, s, call))
  {
    hide AfterHook, QueuedBy;
    var more := QueuedBy(st.records[i], i, s, call);
    QueuedByInstance(st.records[i], i, s, call);
    assert forall p :: p in pending + more <==> p in pending || p in more;
    assert forall a :: 0 <= a < |pending| ==> pending[a] in pending;
    assert forall a :: 0 <= a < |more| ==> more[a] in more;
  }

  // ---------- Mounting, unmounting, running ----------

  function Mount(st: Store, key: string, i: nat): Store {
    Store(st.components[key := i], st.records[i := Record(map[], map[])])
  }

  lemma MountConsistent(st: Store, key: string, i: nat, log: Log, pending: seq<Pending>)
    requires Consistent(st, log, pending, {}) && i !in st.records && key !in st.components
    ensures Consistent(Mount(st, key, i), log, pending, {})
    ensures forall j :: Mounted(Mount(st, key, i), j) <==> j == i || Mounted(st, j)
  {
    hide Lawful, Live, LiveAgrees, DepsAgree, PendingOk, Mount, WellFormedStore, Mounted;
    MountStore(st, key, i);
    MountLive(st, key, i, Live(log));
    MountPending(st, key, i, pending);
    MountDeps(st, key, i, log, pending);
  }

  lemma MountStore(st: Store, key: string, i: nat)
    requires WellFormedStore(st) && i !in st.records && key !in st.components
    ensures WellFormedStore(Mount(st, key, i)) && !Mounted(st, i)
    ensures forall j :: Mounted(Mount(st, key, i), j) <==> j == i || Mounted(st, j)
  {
    MountedAfter(st.components, key, i);
  }

  lemma MountLive(st: Store, key: string, i: nat, live: map<Place, nat>)
    requires LiveAgrees(st, live, {}) && !Mounted(st, i)
    requires forall j :: Mounted(Mount(st, key, i), j) <==> j == i || Mounted(st, j)
    ensures LiveAgrees(Mount(st, key, i), live, {})
  {
    hide Mounted;
  }

  lemma MountPending(st: Store, key: string, i: nat, pending: seq<Pending>)
    requires PendingOk(st, pending) && !Mounted(st, i)
    requires forall j :: Mounted(Mount(st, key, i), j) <==> j == i || Mounted(st, j)
    ensures PendingOk(Mount(st, key, i), pending) && forall p :: p in pending ==> p.instance != i
  {
    hide Mounted, Mount;
  }

  lemma MountDeps(st: Store, key: string, i: nat, log: Log, pending: seq<Pending>)
    requires DepsAgree(st, log, pending) && i !in st.records
    requires forall j :: Mounted(Mount(st, key, i), j) <==> j == i || Mounted(st, j)
    requires forall p :: p in pending ==> p.instance != i
    ensures DepsAgree(Mount(st, key, i), log, pending)
  {
    hide Mounted, LastDeps, DepsAt;
    var after := Mount(st, key, i);
    forall j, t | Mounted(after, j) && j in after.records ensures DepsAt(after.records[j], log, pending, j, t) {
      if j == i { FreshDeps(log, pending, i, t); }
    }
  }

  lemma FreshDeps(log: Log, pending: seq<Pending>, i: nat, t: nat)
    requires LastDeps(log, i, t).None? && forall p :: p in pending ==> p.instance != i
    ensures DepsAt(Record(map[], map[]), log, pending, i, t)
  {
  }

  lemma MountedAfter(components: map<string, nat>, key: string, i: nat)
    requires key !in components
    ensures forall j :: j in components[key := i].Values <==> j == i || j in components.Values
  {
    var after := components[key := i];
    assert after[key] == i;
    forall j | j in components.Values ensures j in after.Values {
      var k :| k in components && components[k] == j;
      assert after[k] == j;
    }
  }

  /** Calling a waiting cleanup function. */
  lemma CleanConsistent(st: Store, log: Log, pending: seq<Pending>, cleaned: set<Place>, i: nat, s: nat)
    requires Consistent(st, log, pending, cleaned)
    requires Mounted(st, i) && i in st.records && s in st.records[i].cleanups && (i, s) !in cleaned
    ensures Consistent(st, log + [Cleaned(i, s, st.records[i].cleanups[s])], pending, cleaned + {(i, s)})
  {
    hide Lawful, Live, LastDeps, DepsChanged;
    var e := Cleaned(i, s, st.records[i].cleanups[s]);
    Extend(log, e);
    assert (i, s) in Live(log);
    forall j, t ensures LastDeps(log + [e], j, t) == LastDeps(log, j, t) {
      ExtendLast(log, e, j, t);
    }
    assert DepsAgree(st, log + [e], pending) by {
      forall j, t | Mounted(st, j) && j in st.records ensures DepsAt(st.records[j], log + [e], pending, j, t) {
        assert DepsAt(st.records[j], log, pending, j, t);
      }
    }
  }

  function Unmount(st: Store, key: string): Store { st.(components := st.components - {key}) }

  lemma MountedWithout(st: Store, key: string)
    requires WellFormedStore(st) && key in st.components
    ensures forall j :: Mounted(Unmount(st, key), j) <==> Mounted(st, j) && j != st.components[key]
  {
    var after := Unmount(st, key);
    forall j | Mounted(st, j) && j != st.components[key] ensures Mounted(after, j) {
      var k :| k in st.components && st.components[k] == j;
      assert after.components[k] == j;
    }
  }

  /** Dropping a component all of whose cleanup functions have been called. */
  lemma UnmountConsistent(st: Store, log: Log, pending: seq<Pending>, cleaned: set<Place>, key: string)
    requires Consistent(st, log, pending, cleaned) && key in st.components
    requires forall s :: s in st.records[st.components[key]].cleanups ==> (st.components[key], s) in cleaned
    requires forall p :: p in cleaned ==> p.0 == st.components[key]
    requires forall p :: p in pending ==> p.instance != st.components[key]
    ensures Consistent(Unmount(st, key), log, pending, {})
  {
    hide Lawful, Live, LastDeps, DepsChanged, DepsAt;
    MountedWithout(st, key);
  }

  /** The record after an effect run: its cleanup function, or none. */
  function AfterRun(rec: Record, s: nat, run: nat, returned: bool): Record {
    rec.(cleanups := if returned then rec.cleanups[s := run] else rec.cleanups - {s})
  }

  lemma RunDeps(rec: Record, log: Log, pending: seq<Pending>, e: Event, j: nat, t: nat)
    requires pending != [] && e.Ran? && e.instance == pending[0].instance && e.slot == pending[0].slot
    requires e.deps == pending[0].deps
    requires forall b :: 0 < b < |pending| ==>
      (pending[0].instance, pending[0].slot) != (pending[b].instance, pending[b].slot)
    requires DepsAt(rec, log, pending, j, t)
    ensures DepsAt(rec, log + [e], pending[1..], j, t)
  {
    hide LastDeps, DepsChanged;
    ExtendLast(log, e, j, t);
    assert pending[0] in pending;
    assert forall p :: p in pending <==> p == pending[0] || p in pending[1..];
  }

  lemma PendingTail(st: Store, pending: seq<Pending>)
    requires PendingOk(st, pending) && pending != []
    ensures PendingOk(st, pending[1..])
  {
    assert forall p :: p in pending[1..] ==> p in pending;
  }

  lemma RunLive(st: Store, live: map<Place, nat>, cleaned: set<Place>, e: Event)
    requires e.Ran? && e.instance in st.records && Mounted(st, e.instance) && LiveAgrees(st, live, cleaned)
    requires cleaned == if e.slot in st.records[e.instance].cleanups then {(e.instance, e.slot)} else {}
    ensures (e.instance, e.slot) !in live
    ensures LiveAgrees(WithRecord(st, e.instance, AfterRun(st.records[e.instance], e.slot, e.run, e.returned)),
                       LiveAfter(live, e), {})
  {
    hide LiveAgrees, AfterRun, LiveAfter, Mounted;
    CleanedIsNotLive(st, live, cleaned, e);
    RunLiveKept(st, live, cleaned, e);
    RunLiveFound(st, live, cleaned, e);
    LiveIntro(WithRecord(st, e.instance, AfterRun(st.records[e.instance], e.slot, e.run, e.returned)),
              LiveAfter(live, e));
  }

  lemma CleanedIsNotLive(st: Store, live: map<Place, nat>, cleaned: set<Place>, e: Event)
    requires e.instance in st.records && LiveAgrees(st, live, cleaned)
    requires cleaned == if e.slot in st.records[e.instance].cleanups then {(e.instance, e.slot)} else {}
    ensures (e.instance, e.slot) !in live
  {
    hide Mounted;
  }

  /** What waits is in the records. */
  ghost predicate LiveKept(st: Store, live: map<Place, nat>) {
    forall p :: p in live ==>
      Mounted(st, p.0) && p.0 in st.records && p.1 in st.records[p.0].cleanups
        && live[p] == st.records[p.0].cleanups[p.1]
  }

  /** What is in the records of mounted components waits. */
  ghost predicate LiveFound(st: Store, live: map<Place, nat>) {
    forall i, s :: Mounted(st, i) && i in st.records && s in st.records[i].cleanups ==> (i, s) in live
  }

  lemma LiveIntro(st: Store, live: map<Place, nat>)
    requires LiveKept(st, live) && LiveFound(st, live)
    ensures LiveAgrees(st, live, {})
  {
    hide Mounted;
  }

  lemma RunLiveKept(st: Store, live: map<Place, nat>, cleaned: set<Place>, e: Event)
    requires e.Ran? && e.instance in st.records && Mounted(st, e.instance) && LiveAgrees(st, live, cleaned)
    ensures LiveKept(WithRecord(st, e.instance, AfterRun(st.records[e.instance], e.slot, e.run, e.returned)),
                     LiveAfter(live, e))
  {
    hide Mounted;
    SameMounted(st, e.instance, AfterRun(st.records[e.instance], e.slot, e.run, e.returned));
  }

  lemma RunLiveFound(st: Store, live: map<Place, nat>, cleaned: set<Place>, e: Event)
    requires e.Ran? && e.instance in st.records && LiveAgrees(st, live, cleaned)
    requires forall p :: p in cleaned ==> p == (e.instance, e.slot)
    ensures LiveFound(WithRecord(st, e.instance, AfterRun(st.records[e.instance], e.slot, e.run, e.returned)),
                      LiveAfter(live, e))
  {
    hide Mounted;
    SameMounted(st, e.instance, AfterRun(st.records[e.instance], e.slot, e.run, e.returned));
  }

  lemma SameMounted(st: Store, i: nat, rec: Record)
    ensures forall j :: Mounted(WithRecord(st, i, rec), j) <==> Mounted(st, j)
  {
  }

  /** Running the next queued effect, its old cleanup function called if there was one. */
  lemma RunConsistent(st: Store, log: Log, pending: seq<Pending>, cleaned: set<Place>, e: Event)
    requires pending != [] && Consistent(st, log, pending, cleaned)
    requires e.Ran? && e.instance == pending[0].instance && e.slot == pending[0].slot && e.deps == pending[0].deps
    requires !RunIn(log, e.run) && e.instance in st.records
    requires cleaned == if e.slot in st.records[e.instance].cleanups then {(e.instance, e.slot)} else {}
    ensures Consistent(WithRecord(st, e.instance, AfterRun(st.records[e.instance], e.slot, e.run, e.returned)),
                       log + [e], pending[1..], {})
  {
    hide Lawful, Live, LastDeps, DepsChanged, LiveAgrees, DepsAgree, AfterRun, RunIn;
    assert pending[0] in pending;
    var after := WithRecord(st, e.instance, AfterRun(st.records[e.instance], e.slot, e.run, e.returned));
    Extend(log, e);
    RunLive(st, Live(log), cleaned, e);
    RunIsLawful(st, log, pending, e);
    assert after.records.Keys == st.records.Keys;
    AfterRunHooks(st.records[e.instance], e.slot, e.run, e.returned);
    RunDepsAgree(st, log, pending, e, after);
    PendingTail(st, pending);
  }

  lemma AfterRunHooks(rec: Record, s: nat, run: nat, returned: bool)
    ensures AfterRun(rec, s, run, returned).hooks == rec.hooks
  {
  }

  lemma RunIsLawful(st: Store, log: Log, pending: seq<Pending>, e: Event)
    requires pending != [] && e.Ran? && e.instance == pending[0].instance && e.slot == pending[0].slot
    requires e.deps == pending[0].deps
    requires DepsAgree(st, log, pending) && Mounted(st, e.instance) && e.instance in st.records
    requires (e.instance, e.slot) !in Live(log) && !RunIn(log, e.run)
    ensures LawfulEvent(log, e)
  {
    hide Lawful, Live, LastDeps, DepsChanged, RunIn;
    assert pending[0] in pending;
    assert DepsAt(st.records[e.instance], log, pending, e.instance, e.slot);
  }

  lemma RunDepsAgree(st: Store, log: Log, pending: seq<Pending>, e: Event, after: Store)
    requires pending != [] && e.Ran? && e.instance == pending[0].instance && e.slot == pending[0].slot
    requires e.deps == pending[0].deps
    requires DepsAgree(st, log, pending) && PendingOk(st, pending) && e.instance in st.records
    requires after.components == st.components && after.records.Keys == st.records.Keys
    requires forall i :: i in st.records ==> after.records[i].hooks == st.records[i].hooks
    ensures DepsAgree(after, log + [e], pending[1..])
  {
    hide LastDeps, DepsChanged, DepsAt;
    forall j, t | Mounted(after, j) && j in after.records
      ensures DepsAt(after.records[j], log + [e], pending[1..], j, t)
    {
      SameHooksDeps(st.records[j], after.records[j], log, pending, j, t);
      RunDeps(after.records[j], log, pending, e, j, t);
    }
    forall j, t | j !in after.records ensures LastDeps(log + [e], j, t).None? {
      ExtendLast(log, e, j, t);
    }
  }

  lemma SameHooksDeps(a: Record, b: Record, log: Log, pending: seq<Pending>, j: nat, t: nat)
    requires a.hooks == b.hooks && DepsAt(a, log, pending, j, t)
    ensures DepsAt(b, log, pending, j, t)
  {
  }
}
