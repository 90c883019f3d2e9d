/** The audit log's hash chain: appending, checking, and what one hash pins down. */
module AuditChain {
  import opened Prelude
  import opened CanonicalJson
  import opened JsonEquality
  import opened JsonTrip

  datatype AuditEvent = AuditEvent(
    id: Text, actor: Text, action: Text, target: Option<Text>, createdAt: Text, tenantId: Option<Text>,
    ip: Option<Text>, metadata: Json, previousEventHash: Option<Text>, eventHash: Option<Text>)

  type Hash = Text -> Text

  /** SHA-256 in hexadecimal, taken as injective; its digests are never empty. */
  ghost predicate IdealHash(sha: Hash) {
    (forall x, y :: sha(x) == sha(y) ==> x == y) && forall x :: sha(x) != []
  }

  // ---------- computeEventHash ----------

  function EventFields(e: AuditEvent, previous: Option<Text>): seq<Field> {
    [Field(Name("id"), String(e.id)), Field(Name("actor"), String(e.actor)), Field(Name("action"), String(e.action)),
     Field(Name("target"), Optional(e.target)), Field(Name("createdAt"), String(e.createdAt)),
     Field(Name("tenantId"), Optional(e.tenantId)),
     Field(Name("previousEventHash"), if previous.Some? then String(previous.value) else Null)]
  }

  function EventHash(sha: Hash, e: AuditEvent, previous: Option<Text>): Text {
    sha(Print(Object(EventFields(e, previous)), Stringify))
  }

  lemma NamesDiffer()
    ensures |Name("id")| == 2 && |Name("actor")| == 5 && |Name("createdAt")| == 9 && |Name("tenantId")| == 8
    ensures |Name("action")| == 6 && |Name("target")| == 6 && Name("action") != Name("target")
    ensures |Name("previousEventHash")| == 17
  {
    assert Name("action")[0] == 0x61 && Name("target")[0] == 0x74;
  }

  lemma EventWellFormed(e: AuditEvent, previous: Option<Text>)
    ensures WellFormed(Object(EventFields(e, previous)))
  {
    hide Name;
    NamesDiffer();
  }

  /** The value printed under a field's key can be read off the trip. */
  lemma FieldAt(fields: seq<Field>, n: nat)
    requires DistinctKeys(fields) && n < |fields|
    ensures Has(Trip(Object(fields)).fields, fields[n].key) <==> !fields[n].value.Undefined?
    ensures !fields[n].value.Undefined? ==>
      var r := Trip(Object(fields)).fields; r[IndexOf(r, fields[n].key)].value == Trip(fields[n].value)
  {
    TripHas(fields, fields[n].key);
    if Has(fields, fields[n].key) {
      var i := IndexOf(fields, fields[n].key);
      assert i == n;
    } else {
      assert fields[n].value.Undefined?;
    }
  }

  lemma SameFieldAt(f: seq<Field>, g: seq<Field>, n: nat)
    requires DistinctKeys(f) && DistinctKeys(g) && n < |f| && n < |g| && f[n].key == g[n].key
    requires Trip(Object(f)) == Trip(Object(g))
    ensures f[n].value.Undefined? <==> g[n].value.Undefined?
    ensures Trip(f[n].value) == Trip(g[n].value)
  {
    hide Trip, Has;
    FieldAt(f, n);
    FieldAt(g, n);
    TripDefined(f[n].value);
    TripDefined(g[n].value);
  }

  /** The hashed text determines the six fields and the previous hash. */
  lemma EventTextInjective(a: AuditEvent, p: Option<Text>, b: AuditEvent, q: Option<Text>)
    requires Print(Object(EventFields(a, p)), Stringify) == Print(Object(EventFields(b, q)), Stringify)
    ensures SameEvent(a, b) && p == q
  {
    hide Print, Normal, Name;
    var f, g := EventFields(a, p), EventFields(b, q);
    EventWellFormed(a, p);
    EventWellFormed(b, q);
    PrintOfNormal(Object(f), Object(g), Stringify);
    forall n | 0 <= n < 7 ensures Trip(f[n].value) == Trip(g[n].value) {
      SameFieldAt(f, g, n);
    }
    PlainTrip(a, p);
    PlainTrip(b, q);
    EqualFields(a, p, b, q);
  }

  lemma EqualFields(a: AuditEvent, p: Option<Text>, b: AuditEvent, q: Option<Text>)
    requires forall n :: 0 <= n < 7 ==> EventFields(a, p)[n].value == EventFields(b, q)[n].value
    ensures SameEvent(a, b) && p == q
  {
    hide Name;
    var f, g := EventFields(a, p), EventFields(b, q);
    assert f[0].value == g[0].value && f[1].value == g[1].value && f[2].value == g[2].value && f[3].value == g[3].value;
    assert f[4].value == g[4].value && f[5].value == g[5].value && f[6].value == g[6].value;
  }

  lemma PlainTrip(e: AuditEvent, p: Option<Text>)
    ensures forall n :: 0 <= n < 7 ==> Trip(EventFields(e, p)[n].value) == EventFields(e, p)[n].value
  {
    hide Name;
  }

  /** Agreement on what the hash covers. */
  predicate SameEvent(a: AuditEvent, b: AuditEvent) {
    a.id == b.id && a.actor == b.actor && a.action == b.action && a.target == b.target &&
    a.createdAt == b.createdAt && a.tenantId == b.tenantId
  }

  predicate SameHistory(a: seq<AuditEvent>, b: seq<AuditEvent>) {
    |a| == |b| && forall i :: 0 <= i < |a| ==> SameEvent(a[i], b[i])
  }

  // ---------- The chain, oldest event first ----------

  /** `previousHash` after checking the given events. */
  function Head(sha: Hash, events: seq<AuditEvent>): Option<Text> {
    if events == [] then None
    else
      var e := events[|events| - 1];
      if e.eventHash.Some? then e.eventHash else Some(EventHash(sha, e, Head(sha, events[..|events| - 1])))
  }

  /** What the loop demands of one event. An event hash that is missing or empty is not compared. */
  predicate HashOk(sha: Hash, e: AuditEvent, previous: Option<Text>) {
    e.eventHash.None? || e.eventHash.value == [] || e.eventHash.value == EventHash(sha, e, previous)
  }

  predicate LinkOk(e: AuditEvent, previous: Option<Text>) {
    previous.None? || e.previousEventHash == previous
  }

  predicate Accepted(sha: Hash, events: seq<AuditEvent>) {
    forall i :: 0 <= i < |events| ==>
      HashOk(sha, events[i], Head(sha, events[..i])) && LinkOk(events[i], Head(sha, events[..i]))
  }

  lemma AcceptedPrefix(sha: Hash, events: seq<AuditEvent>, n: nat)
    requires Accepted(sha, events) && n <= |events|
    ensures Accepted(sha, events[..n])
    ensures n < |events| ==> HashOk(sha, events[n], Head(sha, events[..n])) && LinkOk(events[n], Head(sha, events[..n]))
  {
    hide Head, HashOk;
    forall i | 0 <= i < n
      ensures HashOk(sha, events[..n][i], Head(sha, events[..n][..i]))
      ensures LinkOk(events[..n][i], Head(sha, events[..n][..i]))
    {
      assert events[..n][..i] == events[..i];
    }
  }

  lemma AcceptedStep(sha: Hash, events: seq<AuditEvent>, n: nat)
    requires n < |events| && Accepted(sha, events[..n])
    ensures Accepted(sha, events[..n + 1]) <==>
      HashOk(sha, events[n], Head(sha, events[..n])) && LinkOk(events[n], Head(sha, events[..n]))
  {
    hide Head, HashOk;
    var longer := events[..n + 1];
    assert longer[..n] == events[..n];
    if HashOk(sha, events[n], Head(sha, events[..n])) && LinkOk(events[n], Head(sha, events[..n])) {
      forall i | 0 <= i < |longer|
        ensures HashOk(sha, longer[i], Head(sha, longer[..i])) && LinkOk(longer[i], Head(sha, longer[..i]))
      {
        if i < n { assert longer[..i] == events[..n][..i]; assert events[..n][i] == longer[i]; }
      }
    }
  }

  /** No stored event hash is the empty string. */
  predicate NoEmptyHash(events: seq<AuditEvent>) {
    forall i :: 0 <= i < |events| ==> events[i].eventHash != Some([])
  }

  /** The head of an accepted log without empty hashes is the hash of its newest event. */
  lemma HeadIsHash(sha: Hash, events: seq<AuditEvent>)
    requires events != [] && Accepted(sha, events) && events[|events| - 1].eventHash != Some([])
    ensures Head(sha, events) == Some(EventHash(sha, events[|events| - 1], Head(sha, events[..|events| - 1])))
  {
    hide EventHash;
    AcceptedPrefix(sha, events, |events| - 1);
  }

  /** One hash fixes history. */
  lemma {:induction false} HeadFixesHistory(sha: Hash, a: seq<AuditEvent>, b: seq<AuditEvent>)
    requires IdealHash(sha) && Accepted(sha, a) && Accepted(sha, b)
    requires NoEmptyHash(a) && Head(sha, a) == Head(sha, b)
    ensures SameHistory(a, b)
  {
    hide IdealHash, Accepted, EventHash, SameEvent;
    if a == [] {
    } else {
      var n, m := |a| - 1, |b| - 1;
      var p, q := Head(sha, a[..n]), Head(sha, b[..m]);
      HeadIsHash(sha, a);
      NeverEmpty(sha, a[n], p);
      HeadIsHash(sha, b);
      HashInjective(sha, a[n], p, b[m], q);
      AcceptedPrefix(sha, a, n);
      AcceptedPrefix(sha, b, m);
      HeadFixesHistory(sha, a[..n], b[..m]);
      forall i | 0 <= i < |a| ensures SameEvent(a[i], b[i]) {
        if i < n { assert a[..n][i] == a[i] && b[..m][i] == b[i]; }
      }
    }
  }

  lemma HashInjective(sha: Hash, a: AuditEvent, p: Option<Text>, b: AuditEvent, q: Option<Text>)
    requires IdealHash(sha) && EventHash(sha, a, p) == EventHash(sha, b, q)
    ensures SameEvent(a, b) && p == q
  {
    hide Print;
    EventTextInjective(a, p, b, q);
  }

  // ---------- An empty event hash unpins everything before it ----------

  /** Two logs that share all events after one with an empty hash have the same heads from there on. */
  lemma {:induction false} HeadsMeet(sha: Hash, a: seq<AuditEvent>, b: seq<AuditEvent>, k: nat, l: nat, n: nat)
    requires k < |a| && l < |b| && a[k].eventHash == Some([]) && b[l].eventHash == Some([])
    requires a[k + 1..] == b[l + 1..] && k + 1 + n <= |a|
    ensures Head(sha, a[..k + 1 + n]) == Head(sha, b[..l + 1 + n])
    decreases n
  {
    hide EventHash;
    var x, y := a[..k + 1 + n], b[..l + 1 + n];
    assert l + 1 + n <= |b| by { assert |a[k + 1..]| == |b[l + 1..]|; }
    if n == 0 {
    } else {
      HeadsMeet(sha, a, b, k, l, n - 1);
      assert x[..|x| - 1] == a[..k + n] && y[..|y| - 1] == b[..l + n];
      assert a[k + n] == a[k + 1..][n - 1] == b[l + 1..][n - 1] == b[l + n];
    }
  }

  lemma RestAccepted(sha: Hash, a: seq<AuditEvent>, b: seq<AuditEvent>, k: nat)
    requires Accepted(sha, a) && k < |a| && b != [] && a[k].eventHash == Some([]) && b[0].eventHash == Some([])
    requires a[k + 1..] == b[1..]
    ensures Accepted(sha, b) && Head(sha, b) == Head(sha, a)
  {
    hide EventHash, Head, HashOk, LinkOk;
    forall i | 0 <= i < |b| ensures HashOk(sha, b[i], Head(sha, b[..i])) && LinkOk(b[i], Head(sha, b[..i])) {
      if i == 0 {
        FirstUnchecked(sha, b[0]);
        assert b[..0] == [];
      } else {
        LaterAccepted(sha, a, b, k, i);
      }
    }
    HeadsEnd(sha, a, b, k);
  }

  lemma HeadsEnd(sha: Hash, a: seq<AuditEvent>, b: seq<AuditEvent>, k: nat)
    requires k < |a| && b != [] && a[k].eventHash == Some([]) && b[0].eventHash == Some([])
    requires a[k + 1..] == b[1..]
    ensures Head(sha, b) == Head(sha, a)
  {
    hide Head;
    var rest := |a| - k - 1;
    assert |b| == rest + 1 by { assert |a[k + 1..]| == |b[1..]|; }
    HeadsMeet(sha, a, b, k, 0, rest);
    assert a[..k + 1 + rest] == a && b[..1 + rest] == b;
  }

  /** An event after the one with the empty hash passes in both logs. */
  lemma LaterAccepted(sha: Hash, a: seq<AuditEvent>, b: seq<AuditEvent>, k: nat, i: nat)
    requires Accepted(sha, a) && k < |a| && b != [] && a[k].eventHash == Some([]) && b[0].eventHash == Some([])
    requires a[k + 1..] == b[1..] && 0 < i < |b|
    ensures HashOk(sha, b[i], Head(sha, b[..i])) && LinkOk(b[i], Head(sha, b[..i]))
  {
    hide EventHash, Head, HashOk, LinkOk, Accepted;
    assert k + i < |a| by { assert |a[k + 1..]| == |b[1..]|; }
    HeadsMeet(sha, a, b, k, 0, i - 1);
    AcceptedPrefix(sha, a, k + i);
    assert b[i] == b[1..][i - 1] == a[k + 1..][i - 1] == a[k + i];
  }

  lemma FirstUnchecked(sha: Hash, e: AuditEvent)
    requires e.eventHash == Some([])
    ensures HashOk(sha, e, Head(sha, [])) && LinkOk(e, Head(sha, []))
  {
  }

  /** An accepted log with an empty event hash shares its head with a different accepted log. */
  lemma EmptyHashUnpins(sha: Hash, a: seq<AuditEvent>) returns (b: seq<AuditEvent>)
    requires Accepted(sha, a) && !NoEmptyHash(a)
    ensures Accepted(sha, b) && Head(sha, b) == Head(sha, a) && !SameHistory(a, b)
  {
    hide Accepted, Head;
    var k :| 0 <= k < |a| && a[k].eventHash == Some([]);
    if k > 0 {
      b := a[k..];
      assert b[0] == a[k] && b[1..] == a[k + 1..];
    } else {
      b := a[0 := a[0].(actor := a[0].actor + [0x2A])];
      assert b[1..] == a[1..];
      assert b[0].actor != a[0].actor;
    }
    RestAccepted(sha, a, b, k);
  }

  /** Exactly when the newest hash of an accepted log fixes its length and the covered fields of every
      event: when no event hash in it is the empty string. */
  lemma HeadFixesHistoryIff(sha: Hash, a: seq<AuditEvent>)
    requires IdealHash(sha) && Accepted(sha, a)
    ensures NoEmptyHash(a) <==> forall b :: Accepted(sha, b) && Head(sha, b) == Head(sha, a) ==> SameHistory(a, b)
  {
    hide Accepted, Head, SameHistory, NoEmptyHash, IdealHash;
    if NoEmptyHash(a) {
      forall b | Accepted(sha, b) && Head(sha, b) == Head(sha, a) ensures SameHistory(a, b) {
        HeadFixesHistory(sha, a, b);
      }
    } else {
      var b := EmptyHashUnpins(sha, a);
    }
  }

  /** A chain of one event whose stored hash is the given one. */
  function Lone(actor: Text, stored: Option<Text>): seq<AuditEvent> {
    [AuditEvent([0x31], actor, [0x32], None, [0x33], None, None, Undefined, None, stored)]
  }

  /** At a concrete input: two logs of one event, with different actors and an empty hash, are both accepted
      with the same head. */
  lemma EmptyHashExample(sha: Hash)
    ensures var a, b := Lone([0x41], Some([])), Lone([0x42], Some([]));
      Accepted(sha, a) && Accepted(sha, b) && Head(sha, a) == Head(sha, b) && !SameHistory(a, b)
  {
    hide EventHash;
    var a, b := Lone([0x41], Some([])), Lone([0x42], Some([]));
    assert a[..0] == [] && b[..0] == [];
    assert !SameEvent(a[0], b[0]);
  }

  // ---------- Appending ----------

  /** `createAudit`: the event appended to a log given oldest first. */
  function Appended(sha: Hash, events: seq<AuditEvent>, draft: AuditEvent): AuditEvent {
    var previous := if events == [] then None else events[|events| - 1].eventHash;
    draft.(previousEventHash := previous, eventHash := Some(EventHash(sha, draft, previous)))
  }

  /** Appending keeps a log accepted, exactly when the log is empty or its newest event has a hash. */
  lemma AppendAccepted(sha: Hash, events: seq<AuditEvent>, draft: AuditEvent)
    requires IdealHash(sha) && Accepted(sha, events)
    ensures Accepted(sha, events + [Appended(sha, events, draft)]) <==>
      (events == [] || events[|events| - 1].eventHash.Some?)
  {
    hide Accepted, IdealHash, Print;
    var e := Appended(sha, events, draft);
    var longer := events + [e];
    var n := |events|;
    assert longer[..n] == events && longer[..n + 1] == longer;
    AcceptedStep(sha, longer, n);
    var previous := if events == [] then None else events[n - 1].eventHash;
    SameHashed(sha, e, draft, previous);
    if events != [] && events[n - 1].eventHash.None? && HashOk(sha, e, Head(sha, events)) {
      var head := Head(sha, events);
      NeverEmpty(sha, draft, previous);
      HashInjective(sha, draft, previous, e, head);
    }
  }

  /** At a concrete input: a log of one event without a hash is accepted, and appending to it breaks it. */
  lemma MissingHashExample(sha: Hash, draft: AuditEvent)
    requires IdealHash(sha)
    ensures var a := Lone([0x41], None); Accepted(sha, a) && !Accepted(sha, a + [Appended(sha, a, draft)])
  {
    hide EventHash, IdealHash;
    var a := Lone([0x41], None);
    assert a[..0] == [];
    AppendAccepted(sha, a, draft);
  }

  lemma SameHashed(sha: Hash, e: AuditEvent, draft: AuditEvent, previous: Option<Text>)
    requires SameEvent(e, draft)
    ensures EventHash(sha, e, previous) == EventHash(sha, draft, previous)
  {
  }

  lemma NeverEmpty(sha: Hash, e: AuditEvent, previous: Option<Text>)
    requires IdealHash(sha)
    ensures EventHash(sha, e, previous) != []
  {
  }

  /** A log built by appending alone is accepted, and each of its events carries a hash. */
  lemma {:induction false} BuiltAccepted(sha: Hash, drafts: seq<AuditEvent>)
    requires IdealHash(sha)
    ensures Accepted(sha, Built(sha, drafts)) && |Built(sha, drafts)| == |drafts|
    ensures forall i :: 0 <= i < |drafts| ==>
      Built(sha, drafts)[i].eventHash.Some? && SameEvent(Built(sha, drafts)[i], drafts[i])
    ensures NoEmptyHash(Built(sha, drafts))
  {
    hide Accepted, IdealHash, EventHash;
    if drafts != [] {
      var n := |drafts| - 1;
      BuiltAccepted(sha, drafts[..n]);
      AppendAccepted(sha, Built(sha, drafts[..n]), drafts[n]);
      var before := Built(sha, drafts[..n]);
      NeverEmpty(sha, drafts[n], if before == [] then None else before[|before| - 1].eventHash);
    } else {
      EmptyAccepted(sha);
    }
  }

  lemma EmptyAccepted(sha: Hash)
    ensures Accepted(sha, [])
  {
  }

  function Built(sha: Hash, drafts: seq<AuditEvent>): seq<AuditEvent> {
    if drafts == [] then []
    else
      var before := Built(sha, drafts[..|drafts| - 1]);
      before + [Appended(sha, before, drafts[|drafts| - 1])]
  }

  // ---------- The service ----------

  datatype Verdict = Valid | HashMismatch(brokenAt: Text, stored: Text, computed: Text)
    | LinkMismatch(brokenAt: Text, storedLink: Option<Text>, expected: Text)

  /** The answer about one event, given the hash carried over from the events before it. */
  function CheckOne(sha: Hash, e: AuditEvent, previous: Option<Text>): Verdict {
    if e.eventHash.Some? && e.eventHash.value != [] && e.eventHash.value != EventHash(sha, e, previous) then
      HashMismatch(e.id, e.eventHash.value, EventHash(sha, e, previous))
    else if previous.Some? && e.previousEventHash != previous then
      LinkMismatch(e.id, e.previousEventHash, previous.value)
    else Valid
  }

  /** The answer about a log given oldest first: that about its oldest failing event. */
  function Check(sha: Hash, events: seq<AuditEvent>): Verdict {
    if events == [] then Valid
    else
      var n := |events| - 1;
      var before := Check(sha, events[..n]);
      if before.Valid? then CheckOne(sha, events[n], Head(sha, events[..n])) else before
  }

  function Reversed<T>(s: seq<T>): (r: seq<T>)
    ensures |r| == |s| && forall i :: 0 <= i < |s| ==> r[i] == s[|s| - 1 - i]
  {
    seq(|s|, i requires 0 <= i < |s| => s[|s| - 1 - i])
  }

  class AuditService {
    const sha: Hash
    /** Newest first, as stored. */
    var auditEvents: seq<AuditEvent>

    constructor (sha: Hash)
      ensures auditEvents == [] && this.sha == sha
    {
      this.sha := sha;
      auditEvents := [];
    }

    /** `draft` carries the fields of the call with a fresh id and the current time. */
    method Record(draft: AuditEvent)
      modifies this
      ensures Reversed(auditEvents) == Reversed(old(auditEvents)) + [Appended(sha, Reversed(old(auditEvents)), draft)]
    {
      var previous := if auditEvents == [] then None else auditEvents[0].eventHash;
      var event := draft.(previousEventHash := previous, eventHash := Some(EventHash(sha, draft, previous)));
      auditEvents := [event] + auditEvents;
      ghost var before := Reversed(old(auditEvents));
      assert before == [] <==> old(auditEvents) == [];
      assert before != [] ==> before[|before| - 1] == old(auditEvents)[0];
      assert Reversed(auditEvents) == before + [event];
    }

    /** Accepts exactly the intact logs; a rejection names the oldest failing event, and all older events
        form an accepted chain. */
    method VerifyChain() returns (r: Verdict, ghost at: nat)
      ensures r == Check(sha, Reversed(auditEvents))
      ensures r.Valid? <==> Accepted(sha, Reversed(auditEvents))
      ensures !r.Valid? ==> at < |auditEvents| && var events := Reversed(auditEvents);
        && r.brokenAt == events[at].id && Accepted(sha, events[..at])
        && (r.HashMismatch? <==> !HashOk(sha, events[at], Head(sha, events[..at])))
        && (r.LinkMismatch? ==> !LinkOk(events[at], Head(sha, events[..at])))
    {
      hide Accepted, EventHash;
      var events := Reversed(auditEvents);
      var previousHash: Option<Text> := None;
      EmptyAccepted(sha);
      assert events[..0] == [];
      at := 0;
      var n := 0;
      while n < |events|
        invariant n <= |events| && Accepted(sha, events[..n]) && previousHash == Head(sha, events[..n])
        invariant Check(sha, events[..n]) == Valid
      {
        var event := events[n];
        at := n;
        var expected := EventHash(sha, event, previousHash);
        AcceptedStep(sha, events, n);
        assert events[..n + 1][..n] == events[..n];
        if event.eventHash.Some? && event.eventHash.value != [] && event.eventHash.value != expected {
          Broken(sha, events, n);
          CheckStops(sha, events, n);
          r := HashMismatch(event.id, event.eventHash.value, expected);
          return;
        }
        if previousHash.Some? && event.previousEventHash != previousHash {
          Broken(sha, events, n);
          CheckStops(sha, events, n);
          r := LinkMismatch(event.id, event.previousEventHash, previousHash.value);
          return;
        }
        previousHash := if event.eventHash.Some? then event.eventHash else Some(expected);
        n := n + 1;
      }
      assert events[..n] == events;
      r := Valid;
    }
  }

  /** Once an event fails, nothing after it changes the answer. */
  lemma {:induction false} CheckStops(sha: Hash, events: seq<AuditEvent>, n: nat)
    requires n < |events| && Check(sha, events[..n]) == Valid
    requires CheckOne(sha, events[n], Head(sha, events[..n])) != Valid
    ensures Check(sha, events) == CheckOne(sha, events[n], Head(sha, events[..n]))
  {
    hide Head, CheckOne;
    var last := |events| - 1;
    assert events[..last + 1] == events;
    if n < last {
      var before := events[..last];
      assert before[..n] == events[..n] && before[n] == events[n];
      CheckStops(sha, before, n);
    }
  }

  lemma Broken(sha: Hash, events: seq<AuditEvent>, n: nat)
    requires n < |events|
    requires !(HashOk(sha, events[n], Head(sha, events[..n])) && LinkOk(events[n], Head(sha, events[..n])))
    ensures !Accepted(sha, events)
  {
  }
}
