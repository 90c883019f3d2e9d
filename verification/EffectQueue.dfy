/** Which effects a render runs, and in what order. */
module EffectQueue {
  import opened Prelude
  import opened VirtualTree
  import opened PathKeys
  import opened EffectLog
  import opened HookState
  import opened HookReplay

  /** The effect runs in a log, in order. */
  function Runs(log: Log): seq<Pending> {
    if log == [] then []
    else
      var e := log[|log| - 1];
      Runs(log[..|log| - 1]) + if e.Ran? then [Pending(e.instance, e.slot, e.deps)] else []
  }

  lemma RunsGrow(log: Log, e: Event)
    ensures Runs(log + [e]) == Runs(log) + if e.Ran? then [Pending(e.instance, e.slot, e.deps)] else []
  {
    assert (log + [e])[..|log|] == log;
  }

  /** From place `n` on only cleanup functions were called. */
  predicate OnlyCleanups(log: Log, n: nat) { forall a :: n <= a < |log| ==> log[a].Cleaned? }

  /** From place `n` on only effects and cleanup functions of these components were called. */
  predicate OnlyOf(log: Log, n: nat, components: map<string, nat>) {
    forall a :: n <= a < |log| ==> log[a].instance in components.Values
  }

  /** From place `n` on, once an effect has run, only components on the page have theirs called. */
  predicate CleanupsFirst(log: Log, n: nat, components: map<string, nat>) {
    forall a, b :: n <= a <= b < |log| && log[a].Ran? ==> log[b].instance in components.Values
  }

  lemma FirstThenOf(early: Log, log: Log, n: nat, components: map<string, nat>)
    requires early <= log && OnlyCleanups(early, n) && OnlyOf(log, |early|, components)
    ensures CleanupsFirst(log, n, components)
  {
    assert forall a :: 0 <= a < |early| ==> early[a] == log[a];
  }

  /** What the hook calls of one component queue. */
  function QueuedHooks(rec: Record, i: nat, calls: seq<HookCall>): seq<Pending> {
    if calls == [] then []
    else
      var n := |calls| - 1;
      QueuedHooks(rec, i, calls[..n]) + QueuedBy(AfterHooks(rec, calls[..n]), i, n, calls[n])
  }

  function QueuedVisit(records: Records, ids: map<string, nat>, before: seq<Visit>, w: Visit): seq<Pending> {
    if w.key in ids then QueuedHooks(RecordOf(RenderedAll(records, ids, before), ids[w.key]), ids[w.key], w.calls)
    else []
  }

  function QueuedAll(records: Records, ids: map<string, nat>, visits: seq<Visit>): seq<Pending> {
    if visits == [] then []
    else
      var n := |visits| - 1;
      QueuedAll(records, ids, visits[..n]) + QueuedVisit(records, ids, visits[..n], visits[n])
  }

  lemma QueuedLast(records: Records, ids: map<string, nat>, visits: seq<Visit>, w: Visit)
    ensures QueuedAll(records, ids, visits + [w]) ==
      QueuedAll(records, ids, visits) + QueuedVisit(records, ids, visits, w)
  {
    hide QueuedVisit;
    assert (visits + [w])[..|visits|] == visits;
  }

  lemma {:induction false} QueuedAllIds(records: Records, a: map<string, nat>, b: map<string, nat>, visits: seq<Visit>)
    requires forall w :: w in visits ==> w.key in a && w.key in b && a[w.key] == b[w.key]
    ensures QueuedAll(records, a, visits) == QueuedAll(records, b, visits)
  {
    hide RenderedAll, RecordOf, QueuedHooks;
    if visits == [] {
    } else {
      var n := |visits| - 1;
      QueuedAllIds(records, a, b, visits[..n]);
      RenderedAllIds(records, a, b, visits[..n]);
      assert visits[n] in visits;
    }
  }

  // ---------- One component ----------

  /** An effect has to run: it gives no dependencies, or it ran without any, with others, or never. */
  predicate Due(rec: Record, s: nat, deps: Deps) {
    deps == None || s !in rec.hooks || !rec.hooks[s].DepsSlot? || rec.hooks[s].deps == None
    || rec.hooks[s].deps != deps
  }

  predicate IsDue(rec: Record, calls: seq<HookCall>, s: nat) {
    s < |calls| && calls[s].UseEffect? && Due(rec, s, calls[s].deps)
  }

  /** Hook calls touch no slot beyond their own. */
  lemma {:induction false} HooksBelow(rec: Record, calls: seq<HookCall>, s: nat)
    requires s >= |calls|
    ensures s in AfterHooks(rec, calls).hooks <==> s in rec.hooks
    ensures s in rec.hooks ==> AfterHooks(rec, calls).hooks[s] == rec.hooks[s]
  {
    if calls == [] {
    } else {
      HooksBelow(rec, calls[..|calls| - 1], s);
    }
  }

  lemma CallQueues(rec: Record, after: Record, i: nat, s: nat, call: HookCall)
    requires s in after.hooks <==> s in rec.hooks
    requires s in rec.hooks ==> after.hooks[s] == rec.hooks[s]
    ensures QueuedBy(after, i, s, call) ==
      if call.UseEffect? && Due(rec, s, call.deps) then [Pending(i, s, call.deps)] else []
  {
    if call.UseEffect? {
      UnchangedDepsAreEqual(if HasDeps(after, s) then after.hooks[s].deps else None, call.deps);
    }
  }

  ghost predicate Listed(at: seq<nat>, queued: seq<Pending>, rec: Record, i: nat, calls: seq<HookCall>) {
    && |at| == |queued|
    && (forall s: nat :: s in at <==> IsDue(rec, calls, s))
    && (forall q, r :: 0 <= q < r < |at| ==> at[q] < at[r])
    && forall q :: 0 <= q < |at| ==> IsDue(rec, calls, at[q]) && queued[q] == Pending(i, at[q], calls[at[q]].deps)
  }

  /** A component queues the effects that have to run, in the order of its calls. */
  lemma {:induction false} HooksQueue(rec: Record, i: nat, calls: seq<HookCall>) returns (at: seq<nat>)
    ensures Listed(at, QueuedHooks(rec, i, calls), rec, i, calls)
  {
    hide AfterHooks, QueuedBy, Due;
    if calls == [] {
      at := [];
    } else {
      var n := |calls| - 1;
      at := HooksQueue(rec, i, calls[..n]);
      HooksBelow(rec, calls[..n], n);
      CallQueues(rec, AfterHooks(rec, calls[..n]), i, n, calls[n]);
      forall s: nat ensures IsDue(rec, calls, s) <==> IsDue(rec, calls[..n], s) || (s == n && IsDue(rec, calls, n)) {}
      if IsDue(rec, calls, n) { at := at + [n]; }
    }
  }

  // ---------- The whole tree ----------

  /** The stored dependencies are the same. */
  ghost predicate SameDeps(a: Record, b: Record) {
    forall s :: (HasDeps(a, s) <==> HasDeps(b, s)) && (HasDeps(a, s) ==> a.hooks[s].deps == b.hooks[s].deps)
  }

  lemma SameDue(a: Record, b: Record, calls: seq<HookCall>)
    requires SameDeps(a, b)
    ensures forall s: nat :: IsDue(a, calls, s) <==> IsDue(b, calls, s)
  {
    forall s: nat ensures IsDue(a, calls, s) <==> IsDue(b, calls, s) {
      assert HasDeps(a, s) <==> HasDeps(b, s);
    }
  }

  /** Setters and other components leave a component's dependencies alone. */
  lemma {:induction false} OthersKeepDeps(records: Records, ids: map<string, nat>, visits: seq<Visit>, i: nat)
    requires forall w :: w in visits ==> w.key in ids && ids[w.key] != i
    ensures SameDeps(RecordOf(records, i), RecordOf(RenderedAll(records, ids, visits), i))
  {
    hide AfterHooks, AppliedAll;
    if visits == [] {
    } else {
      var n := |visits| - 1;
      OthersKeepDeps(records, ids, visits[..n], i);
      assert visits[n] in visits;
      var before, j := RenderedAll(records, ids, visits[..n]), ids[visits[n].key];
      SettersKeepDeps(before[j := AfterHooks(RecordOf(before, j), visits[n].calls)], visits[n].updates, i);
    }
  }

  lemma SettersKeepDeps(records: Records, us: seq<Update>, i: nat)
    ensures SameDeps(RecordOf(records, i), RecordOf(AppliedAll(records, us), i))
  {
    hide AppliedAll;
    AppliedShape(map[], records, us);
    if i in records {
      assert SameRecord(records[i], AppliedAll(records, us)[i]);
      forall s
        ensures HasDeps(records[i], s) <==> HasDeps(AppliedAll(records, us)[i], s)
        ensures HasDeps(records[i], s) ==> records[i].hooks[s].deps == AppliedAll(records, us)[i].hooks[s].deps
      {
        if s in records[i].hooks {
          assert SameSlot(records[i].hooks[s], AppliedAll(records, us)[i].hooks[s]);
        }
      }
    }
  }

  /** The effect call of a visit and its slot. */
  datatype CallAt = CallAt(visit: nat, slot: nat)

  predicate Comes(a: CallAt, b: CallAt) { a.visit < b.visit || (a.visit == b.visit && a.slot < b.slot) }

  /** The effect called there has to run, given what its component's record held before the render. */
  predicate DueAt(records: Records, ids: map<string, nat>, visits: seq<Visit>, c: CallAt) {
    && c.visit < |visits| && visits[c.visit].key in ids
    && IsDue(RecordOf(records, ids[visits[c.visit].key]), visits[c.visit].calls, c.slot)
  }

  predicate RunFor(ids: map<string, nat>, visits: seq<Visit>, c: CallAt, p: Pending) {
    && c.visit < |visits| && visits[c.visit].key in ids && c.slot < |visits[c.visit].calls|
    && visits[c.visit].calls[c.slot].UseEffect?
    && p == Pending(ids[visits[c.visit].key], c.slot, visits[c.visit].calls[c.slot].deps)
  }

  /** No two visited components share a record. */
  predicate OwnRecords(ids: map<string, nat>, visits: seq<Visit>) {
    && (forall w :: w in visits ==> w.key in ids)
    && forall m, n :: 0 <= m < n < |visits| ==> ids[visits[m].key] != ids[visits[n].key]
  }

  ghost predicate AllListed(at: seq<CallAt>, queued: seq<Pending>, records: Records, ids: map<string, nat>,
                            visits: seq<Visit>) {
    && |at| == |queued|
    && (forall c :: c in at <==> DueAt(records, ids, visits, c))
    && (forall q, r :: 0 <= q < r < |at| ==> Comes(at[q], at[r]))
    && forall q :: 0 <= q < |at| ==> RunFor(ids, visits, at[q], queued[q])
  }

  function AtVisit(m: nat, slots: seq<nat>): (r: seq<CallAt>)
    ensures |r| == |slots| && forall q :: 0 <= q < |r| ==> r[q] == CallAt(m, slots[q])
  {
    seq(|slots|, q requires 0 <= q < |slots| => CallAt(m, slots[q]))
  }

  /** A render runs exactly the effects that have to run, each once: component after component in the order of the
      visits, and within one in the order of its calls. */
  lemma {:induction false} QueueMeans(records: Records, ids: map<string, nat>, visits: seq<Visit>)
    returns (at: seq<CallAt>)
    requires OwnRecords(ids, visits)
    ensures AllListed(at, QueuedAll(records, ids, visits), records, ids, visits)
  {
    hide IsDue, RenderedAll, RecordOf, QueuedHooks, Listed, SameDeps;
    if visits == [] {
      at := [];
    } else {
      var n := |visits| - 1;
      var before, i := visits[..n], ids[visits[n].key];
      assert visits[n] in visits && forall m :: 0 <= m < n ==> visits[m] in visits;
      at := QueueMeans(records, ids, before);
      OthersKeepDeps(records, ids, before, i);
      var rec := RecordOf(RenderedAll(records, ids, before), i);
      var slots := HooksQueue(rec, i, visits[n].calls);
      SameDue(RecordOf(records, i), rec, visits[n].calls);
      var late := LastVisit(records, ids, visits, rec, slots);
      JoinListed(at, late, QueuedAll(records, ids, before), QueuedHooks(rec, i, visits[n].calls), records, ids, visits);
      at := at + late;
    }
  }

  /** The last visit's part of the list. */
  ghost predicate LastListed(late: seq<CallAt>, queued: seq<Pending>, records: Records, ids: map<string, nat>,
                             visits: seq<Visit>)
    requires visits != []
  {
    && |late| == |queued|
    && (forall c :: c in late <==> c.visit == |visits| - 1 && DueAt(records, ids, visits, c))
    && (forall q, r :: 0 <= q < r < |late| ==> Comes(late[q], late[r]))
    && forall q :: 0 <= q < |late| ==> RunFor(ids, visits, late[q], queued[q])
  }

  lemma LastVisit(records: Records, ids: map<string, nat>, visits: seq<Visit>, rec: Record, slots: seq<nat>)
    returns (late: seq<CallAt>)
    requires visits != [] && visits[|visits| - 1].key in ids
    requires var w := visits[|visits| - 1]; var i := ids[w.key];
      && Listed(slots, QueuedHooks(rec, i, w.calls), rec, i, w.calls)
      && forall s: nat :: IsDue(RecordOf(records, i), w.calls, s) <==> IsDue(rec, w.calls, s)
    ensures var w := visits[|visits| - 1];
      LastListed(late, QueuedHooks(rec, ids[w.key], w.calls), records, ids, visits)
  {
    hide Due, RecordOf, QueuedHooks;
    var n := |visits| - 1;
    late := AtVisit(n, slots);
    forall c ensures c in late <==> c.visit == n && DueAt(records, ids, visits, c) {
      if c.visit == n && c.slot in slots {
        var q :| 0 <= q < |slots| && slots[q] == c.slot;
        assert late[q] == c;
      }
    }
  }

  lemma JoinListed(at: seq<CallAt>, late: seq<CallAt>, early: seq<Pending>, more: seq<Pending>, records: Records,
                   ids: map<string, nat>, visits: seq<Visit>)
    requires visits != []
    requires AllListed(at, early, records, ids, visits[..|visits| - 1]) && LastListed(late, more, records, ids, visits)
    ensures AllListed(at + late, early + more, records, ids, visits)
  {
    hide IsDue, RecordOf;
    var n := |visits| - 1;
    forall c ensures DueAt(records, ids, visits[..n], c) <==> c.visit < n && DueAt(records, ids, visits, c) {}
    forall q | 0 <= q < |at| ensures at[q].visit < n && RunFor(ids, visits, at[q], early[q]) {}
    forall q, r | 0 <= q < |at| && 0 <= r < |late| ensures Comes(at[q], late[r]) { assert late[r] in late; }
  }
}
