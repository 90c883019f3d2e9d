/** What an accepted audit log is and where a broken one breaks, on the fields of its events. */
module AuditVerdicts {
  import opened Prelude
  import opened CanonicalJson
  import opened AuditChain

  /** The text the hash of an event is taken of. */
  function HashedText(e: AuditEvent, link: Option<Text>): Text {
    Print(Object([
      Field(Name("id"), String(e.id)), Field(Name("actor"), String(e.actor)), Field(Name("action"), String(e.action)),
      Field(Name("target"), if e.target.Some? then String(e.target.value) else Undefined),
      Field(Name("createdAt"), String(e.createdAt)),
      Field(Name("tenantId"), if e.tenantId.Some? then String(e.tenantId.value) else Undefined),
      Field(Name("previousEventHash"), if link.Some? then String(link.value) else Null)]), Stringify)
  }

  /** What is carried from event to event: nothing before the first, then the stored hash of the last event, or
      the computed one where none is stored. */
  predicate Carries(sha: Hash, events: seq<AuditEvent>, carried: seq<Option<Text>>) {
    && |carried| == |events| + 1 && carried[0] == None
    && forall i :: 0 <= i < |events| ==>
         carried[i + 1] ==
         if events[i].eventHash.Some? then events[i].eventHash else Some(sha(HashedText(events[i], carried[i])))
  }

  /** A hash that is stored and not empty is the right one. */
  predicate HashStands(sha: Hash, e: AuditEvent, carried: Option<Text>) {
    e.eventHash in [None, Some([]), Some(sha(HashedText(e, carried)))]
  }

  /** The event names the hash carried to it, when there is one. */
  predicate LinkStands(e: AuditEvent, carried: Option<Text>) {
    carried == None || e.previousEventHash == carried
  }

  predicate Stands(sha: Hash, events: seq<AuditEvent>, carried: seq<Option<Text>>, i: nat)
    requires i < |events| == |carried| - 1
  {
    HashStands(sha, events[i], carried[i]) && LinkStands(events[i], carried[i])
  }

  lemma {:induction false} HeadsCarried(sha: Hash, events: seq<AuditEvent>) returns (carried: seq<Option<Text>>)
    ensures |carried| == |events| + 1 && Carries(sha, events, carried)
    ensures forall i :: 0 <= i <= |events| ==> carried[i] == Head(sha, events[..i])
  {
    hide HashedText;
    if events == [] {
      carried := [None];
    } else {
      var n := |events| - 1;
      carried := HeadsCarried(sha, events[..n]);
      forall i | 0 <= i <= n ensures carried[i] == Head(sha, events[..i]) {
        assert events[..n][..i] == events[..i];
      }
      assert events[..n + 1] == events;
      HashOf(sha, events[n], carried[n]);
      carried := carried + [Head(sha, events)];
    }
  }

  lemma HashOf(sha: Hash, e: AuditEvent, link: Option<Text>)
    ensures EventHash(sha, e, link) == sha(HashedText(e, link))
  {
  }

  lemma OneMeans(sha: Hash, e: AuditEvent, carried: Option<Text>)
    ensures CheckOne(sha, e, carried) ==
      if !HashStands(sha, e, carried) then HashMismatch(e.id, e.eventHash.value, sha(HashedText(e, carried)))
      else if !LinkStands(e, carried) then LinkMismatch(e.id, e.previousEventHash, carried.value)
      else Valid
    ensures CheckOne(sha, e, carried) == Valid <==> HashOk(sha, e, carried) && LinkOk(e, carried)
  {
    hide HashedText, EventHash;
    HashOf(sha, e, carried);
  }

  /** The answer about a log: valid exactly when every event stands, and otherwise about the oldest event that
      does not, its hash before its link. */
  lemma VerdictMeans(sha: Hash, events: seq<AuditEvent>)
    returns (carried: seq<Option<Text>>, at: nat)
    ensures Carries(sha, events, carried) && at <= |events|
    ensures Check(sha, events).Valid? <==> at == |events|
    ensures Check(sha, events).Valid? <==> Accepted(sha, events)
    ensures forall i :: 0 <= i < at ==> Stands(sha, events, carried, i)
    ensures at < |events| ==> !Stands(sha, events, carried, at) && var e := events[at];
      Check(sha, events) ==
        if HashStands(sha, e, carried[at]) then LinkMismatch(e.id, e.previousEventHash, carried[at].value)
        else HashMismatch(e.id, e.eventHash.value, sha(HashedText(e, carried[at])))
  {
    hide HashStands, LinkStands, CheckOne, HashOk, LinkOk, Head, HashedText, Carries, Check, Accepted;
    carried := HeadsCarried(sha, events);
    EmptyCheck(sha);
    assert events[..0] == [];
    at := 0;
    while at < |events|
      invariant at <= |events| && Check(sha, events[..at]) == Valid && Accepted(sha, events[..at])
      invariant forall i :: 0 <= i < at ==> Stands(sha, events, carried, i)
    {
      OneMeans(sha, events[at], carried[at]);
      CheckStep(sha, events, at);
      AcceptedStep(sha, events, at);
      if !Stands(sha, events, carried, at) {
        CheckStops(sha, events, at);
        Broken(sha, events, at);
        return;
      }
      at := at + 1;
    }
    assert events[..at] == events;
  }

  lemma EmptyCheck(sha: Hash)
    ensures Check(sha, []) == Valid && Accepted(sha, [])
  {
  }

  lemma CheckStep(sha: Hash, events: seq<AuditEvent>, n: nat)
    requires n < |events| && Check(sha, events[..n]) == Valid
    ensures Check(sha, events[..n + 1]) == CheckOne(sha, events[n], Head(sha, events[..n]))
  {
    hide CheckOne, Head;
    assert events[..n + 1][..n] == events[..n];
  }

  /** In an accepted log each event after one with a stored hash names that hash. */
  lemma AcceptedLinks(sha: Hash, events: seq<AuditEvent>, i: nat)
    requires Accepted(sha, events) && i + 1 < |events| && events[i].eventHash.Some?
    ensures events[i + 1].previousEventHash == events[i].eventHash
  {
    hide HashedText;
    var carried, at := VerdictMeans(sha, events);
    assert Stands(sha, events, carried, i + 1);
  }

  // ---------- What an appended event is ----------

  /** Appending keeps the fields of the call, links to the newest stored hash, and hashes the event with it. */
  lemma AppendedMeans(sha: Hash, events: seq<AuditEvent>, draft: AuditEvent)
    ensures var e := Appended(sha, events, draft);
      && e.id == draft.id && e.actor == draft.actor && e.action == draft.action && e.target == draft.target
      && e.createdAt == draft.createdAt && e.tenantId == draft.tenantId && e.ip == draft.ip
      && e.metadata == draft.metadata
      && e.previousEventHash == (if |events| == 0 then None else events[|events| - 1].eventHash)
      && e.eventHash == Some(sha(HashedText(e, e.previousEventHash)))
  {
    hide Print;
  }

  // ---------- A log built by appending, then changed ----------

  lemma {:induction false} BuiltPrefix(sha: Hash, drafts: seq<AuditEvent>, n: nat)
    requires n <= |drafts|
    ensures |Built(sha, drafts)| == |drafts| && Built(sha, drafts)[..n] == Built(sha, drafts[..n])
  {
    hide Appended;
    if drafts == [] {
    } else {
      var last := |drafts| - 1;
      BuiltPrefix(sha, drafts[..last], if n <= last then n else last);
      if n <= last {
        assert drafts[..last][..n] == drafts[..n];
        assert Built(sha, drafts)[..n] == Built(sha, drafts[..last])[..n];
      } else {
        assert drafts[..n] == drafts;
      }
    }
  }

  /** In a log built by appending, an event that is replaced is the first to fail, if it fails with the hash
      that is carried to it. */
  lemma ReplacedFound(sha: Hash, drafts: seq<AuditEvent>, i: nat, e: AuditEvent)
    requires IdealHash(sha) && i < |drafts|
    ensures |Built(sha, drafts)| == |drafts|
    ensures var log := Built(sha, drafts); var link := if i == 0 then None else log[i - 1].eventHash;
      CheckOne(sha, e, link) != Valid ==> Check(sha, log[i := e]) == CheckOne(sha, e, link)
  {
    hide CheckOne, EventHash, IdealHash, Built, Accepted, Check;
    var log := Built(sha, drafts);
    BuiltPrefix(sha, drafts, i);
    BuiltAccepted(sha, drafts);
    BuiltAccepted(sha, drafts[..i]);
    var carried, at := VerdictMeans(sha, log[..i]);
    var changed := log[i := e];
    assert changed[..i] == log[..i];
    var link := if i == 0 then None else log[i - 1].eventHash;
    HeadOfHashed(sha, log[..i]);
    if CheckOne(sha, e, link) != Valid { CheckStops(sha, changed, i); }
  }

  lemma HeadOfHashed(sha: Hash, events: seq<AuditEvent>)
    requires events != [] ==> events[|events| - 1].eventHash.Some?
    ensures Head(sha, events) == if events == [] then None else events[|events| - 1].eventHash
  {
  }

  /** Changing the link of any event but the first is found at that event. */
  lemma RelinkedFound(sha: Hash, drafts: seq<AuditEvent>, i: nat, link: Option<Text>)
    requires IdealHash(sha) && 0 < i < |drafts| && |Built(sha, drafts)| == |drafts|
    requires link != Built(sha, drafts)[i].previousEventHash
    ensures var log := Built(sha, drafts);
      log[i - 1].eventHash.Some? &&
      Check(sha, log[i := log[i].(previousEventHash := link)]) ==
        LinkMismatch(log[i].id, link, log[i - 1].eventHash.value)
  {
    hide HashedText, IdealHash, Built, Check, Accepted;
    var log := Built(sha, drafts);
    var e := log[i].(previousEventHash := link);
    BuiltAccepted(sha, drafts);
    AcceptedLinks(sha, log, i - 1);
    var carried, at := VerdictMeans(sha, log);
    assert Stands(sha, log, carried, i) && carried[i] == log[i - 1].eventHash;
    SameText(log[i], e, carried[i]);
    OneMeans(sha, e, carried[i]);
    ReplacedFound(sha, drafts, i, e);
  }

  lemma SameText(a: AuditEvent, b: AuditEvent, link: Option<Text>)
    requires SameEvent(a, b)
    ensures HashedText(a, link) == HashedText(b, link)
  {
  }

  /** Changing what an event says, with its stored hash left as it was, is found at that event. */
  lemma RewrittenFound(sha: Hash, drafts: seq<AuditEvent>, i: nat, e: AuditEvent)
    requires IdealHash(sha) && i < |drafts| && |Built(sha, drafts)| == |drafts|
    requires e.eventHash == Built(sha, drafts)[i].eventHash
    requires !(e.id == drafts[i].id && e.actor == drafts[i].actor && e.action == drafts[i].action &&
               e.target == drafts[i].target && e.createdAt == drafts[i].createdAt && e.tenantId == drafts[i].tenantId)
    ensures Check(sha, Built(sha, drafts)[i := e]).HashMismatch? &&
            Check(sha, Built(sha, drafts)[i := e]).brokenAt == e.id
  {
    hide HashedText, IdealHash, Built, Check, Accepted, EventHash;
    var log := Built(sha, drafts);
    BuiltAccepted(sha, drafts);
    var carried, at := VerdictMeans(sha, log);
    assert Stands(sha, log, carried, i);
    var link := if i == 0 then None else log[i - 1].eventHash;
    assert carried[i] == link;
    HashOf(sha, log[i], link);
    HashOf(sha, e, link);
    if EventHash(sha, e, link) == EventHash(sha, log[i], link) { HashInjective(sha, e, link, log[i], link); }
    OneMeans(sha, e, link);
    ReplacedFound(sha, drafts, i, e);
  }
}
