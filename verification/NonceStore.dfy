/** Challenge nonces for nodes: a bounded list, newest first, each nonce good for one use. */
module NonceStore {
  import opened Prelude
  import opened CanonicalJson
  import opened Signing

  const CAPACITY := 5000
  const LIFETIME := 300_000
  const CLOCK_SKEW := 300_000

  datatype Challenge = Challenge(id: Text, nodeId: Text, purpose: Text, createdAt: int, expiresAt: int,
                                 consumedAt: Option<int>)

  datatype Rejection =
    | BadAlgorithm | WrongNode | WrongType | BadTimestamps | OutsideWindow | Expired | NoKey | HashMismatch
    | NoPayload | UnknownNonce | UsedNonce | ExpiredNonce | BadKey | BadSignature

  // ---------- One step ----------

  /** What the service does to its list: issue a nonce, or try to consume one. */
  datatype Op =
    | Issue(id: Text, nodeId: Text, purpose: Text, now: int)
    | Consume(nodeId: Text, purpose: Text, id: Text, now: int)

  function Newest(s: seq<Challenge>): seq<Challenge> { if |s| <= CAPACITY then s else s[..CAPACITY] }

  function Issued(op: Op): Challenge
    requires op.Issue?
  {
    Challenge(op.id, op.nodeId, op.purpose, op.now, op.now + LIFETIME, None)
  }

  /** A challenge is found by nonce, node and purpose together. */
  predicate Matches(c: Challenge, nodeId: Text, purpose: Text, id: Text) {
    c.id == id && c.nodeId == nodeId && c.purpose == purpose
  }

  /** `find`: the first index that matches, or the length. */
  function Find(s: seq<Challenge>, nodeId: Text, purpose: Text, id: Text): (k: nat)
    ensures k <= |s|
    ensures k < |s| ==> Matches(s[k], nodeId, purpose, id)
    ensures forall j :: 0 <= j < k ==> !Matches(s[j], nodeId, purpose, id)
  {
    if s == [] || Matches(s[0], nodeId, purpose, id) then 0 else 1 + Find(s[1..], nodeId, purpose, id)
  }

  /** `consumeNonce`'s verdict. */
  function Judge(s: seq<Challenge>, op: Op): Result<nat, Rejection>
    requires op.Consume?
  {
    var k := Find(s, op.nodeId, op.purpose, op.id);
    if k == |s| then Err(UnknownNonce)
    else if s[k].consumedAt.Some? then Err(UsedNonce)
    else if s[k].expiresAt <= op.now then Err(ExpiredNonce)
    else Ok(k)
  }

  function Step(s: seq<Challenge>, op: Op): seq<Challenge> {
    if op.Issue? then Newest([Issued(op)] + s)
    else
      var k := Judge(s, op);
      if k.Ok? then s[k.value := s[k.value].(consumedAt := Some(op.now))] else s
  }

  // ---------- The service ----------

  datatype NodeEnvelope = NodeEnvelope(
    algorithm: Text, nodeId: Text, payloadType: Text, issuedAt: Text, expiresAt: Text, nonce: Text, payloadHash: Text,
    payload: Json, signature: Text)

  function NodeFields(e: NodeEnvelope): seq<Field> {
    [Field(Name("algorithm"), String(e.algorithm)), Field(Name("nodeId"), String(e.nodeId)),
     Field(Name("payloadType"), String(e.payloadType)), Field(Name("issuedAt"), String(e.issuedAt)),
     Field(Name("expiresAt"), String(e.expiresAt)), Field(Name("nonce"), String(e.nonce)),
     Field(Name("payloadHash"), String(e.payloadHash)), Field(Name("payload"), e.payload)]
  }

  /** The checks made before the nonce is touched. */
  function Admit(c: Platform, keys: map<Text, Text>, e: NodeEnvelope, nodeId: Text, payloadType: Text,
                 now: int): Option<Rejection> {
    if e.algorithm != ES256 then Some(Rejection.BadAlgorithm)
    else if e.nodeId != nodeId then Some(WrongNode)
    else if e.payloadType != payloadType then Some(WrongType)
    else if c.parseDate(e.issuedAt).None? || c.parseDate(e.expiresAt).None? then Some(Rejection.BadTimestamps)
    else
      var age := now - c.parseDate(e.issuedAt).value;
      if age > CLOCK_SKEW || -age > CLOCK_SKEW then Some(OutsideWindow)
      else if c.parseDate(e.expiresAt).value <= now then Some(Rejection.Expired)
      else if nodeId !in keys || keys[nodeId] == [] then Some(NoKey)
      else if e.payload.Undefined? then Some(Rejection.NoPayload)
      else if e.payloadHash == [] || PayloadHash(c, e.payload) != e.payloadHash then Some(Rejection.HashMismatch)
      else None
  }

  predicate Signs(c: Platform, pem: Text, e: NodeEnvelope) {
    c.readPublic(pem).Some? && c.verify(c.readPublic(pem).value, CanonicalText(Object(NodeFields(e))), e.signature)
  }

  class NodeCryptoService {
    var nodeChallengeNonces: seq<Challenge>
    const keys: map<Text, Text>

    constructor (keys: map<Text, Text>)
      ensures nodeChallengeNonces == Run([]) && this.keys == keys
    {
      nodeChallengeNonces := [];
      this.keys := keys;
    }

    method IssueNonce(nodeId: Text, purpose: Text, id: Text, now: int) returns (expiresAt: int)
      modifies this
      ensures nodeChallengeNonces == Step(old(nodeChallengeNonces), Issue(id, nodeId, purpose, now))
      ensures expiresAt == now + 300_000
    {
      expiresAt := now + LIFETIME;
      var all := [Challenge(id, nodeId, purpose, now, expiresAt, None)] + nodeChallengeNonces;
      nodeChallengeNonces := if |all| <= CAPACITY then all else all[..CAPACITY];
    }

    method ConsumeNonce(nodeId: Text, purpose: Text, id: Text, now: int) returns (r: Result<(), Rejection>)
      modifies this
      ensures nodeChallengeNonces == Step(old(nodeChallengeNonces), Consume(nodeId, purpose, id, now))
      ensures r == Verdict(old(nodeChallengeNonces), Consume(nodeId, purpose, id, now))
    {
      var k := 0;
      while k < |nodeChallengeNonces| && !Matches(nodeChallengeNonces[k], nodeId, purpose, id)
        invariant k <= |nodeChallengeNonces|
        invariant forall j :: 0 <= j < k ==> !Matches(nodeChallengeNonces[j], nodeId, purpose, id)
      {
        k := k + 1;
      }
      assert k == Find(nodeChallengeNonces, nodeId, purpose, id);
      if k == |nodeChallengeNonces| { return Err(UnknownNonce); }
      var challenge := nodeChallengeNonces[k];
      if challenge.consumedAt.Some? { return Err(UsedNonce); }
      if challenge.expiresAt <= now { return Err(ExpiredNonce); }
      nodeChallengeNonces := nodeChallengeNonces[k := challenge.(consumedAt := Some(now))];
      r := Ok(());
    }

    /** The nonce is spent after the hash is checked and before the signature is: an envelope that fails
        on its signature has used its nonce up. */
    method VerifyEnvelope(c: Platform, e: NodeEnvelope, nodeId: Text, payloadType: Text, now: int)
      returns (r: Result<Json, Rejection>)
      modifies this
      ensures Admit(c, keys, e, nodeId, payloadType, now).Some? ==>
        r.Err? && nodeChallengeNonces == old(nodeChallengeNonces)
      ensures Admit(c, keys, e, nodeId, payloadType, now).None? ==>
        && nodeChallengeNonces == Step(old(nodeChallengeNonces), Consume(nodeId, payloadType, e.nonce, now))
        && (r.Ok? <==>
          Judge(old(nodeChallengeNonces), Consume(nodeId, payloadType, e.nonce, now)).Ok? && Signs(c, keys[nodeId], e))
      ensures r.Ok? ==> r.value == e.payload && e.nodeId == nodeId && e.payloadType == payloadType
    {
      hide Step, Judge, CanonicalText, Name;
      var failed := Admit(c, keys, e, nodeId, payloadType, now);
      if failed.Some? { return Err(failed.value); }
      var spent := ConsumeNonce(e.nodeId, e.payloadType, e.nonce, now);
      if spent.Err? { return Err(spent.error); }
      var key := c.readPublic(keys[nodeId]);
      if key.None? { return Err(BadKey); }
      if !c.verify(key.value, CanonicalText(Object(NodeFields(e))), e.signature) { return Err(Rejection.BadSignature); }
      r := Ok(e.payload);
    }
  }

  /** After the nonce step of any admitted envelope, with a right signature or a wrong one, a second envelope
      with that nonce is refused. */
  lemma AskedTwice(s: seq<Challenge>, op: Op)
    requires op.Consume?
    ensures Judge(Step(s, op), op).Err?
  {
    if Judge(s, op).Ok? {
      var k := Find(s, op.nodeId, op.purpose, op.id);
      SameFind(s, k, op);
    }
  }

  lemma {:induction false} SameFind(s: seq<Challenge>, k: nat, op: Op)
    requires op.Consume? && k < |s| && k == Find(s, op.nodeId, op.purpose, op.id)
    ensures Find(s[k := s[k].(consumedAt := Some(op.now))], op.nodeId, op.purpose, op.id) == k
  {
    var t := s[k := s[k].(consumedAt := Some(op.now))];
    if k == 0 {
    } else {
      SameFind(s[1..], k - 1, op);
      assert t[1..] == s[1..][k - 1 := s[1..][k - 1].(consumedAt := Some(op.now))];
    }
  }

  const TOY := Platform(t => [1] + t, n => [], t => Some(0), t => Some(0), t => Some(0), k => k, (k, m, r) => m,
                        (p, m, s) => m == s)

  /** At a concrete input: an envelope with an empty signature is admitted, does not verify, and its nonce step
      spends the nonce. */
  lemma BurntNonce(node: Text, kind: Text, nonce: Text)
    ensures
      var e := NodeEnvelope(ES256, node, kind, [], [], nonce, PayloadHash(TOY, Null), Null, []);
      var challenge := Challenge(nonce, node, kind, -2, 1, None);
      && Admit(TOY, map[node := [1]], e, node, kind, -1).None? && !Signs(TOY, [1], e)
      && Step([challenge], Consume(node, kind, nonce, -1)) == [challenge.(consumedAt := Some(-1))]
  {
    hide Name;
    var e := NodeEnvelope(ES256, node, kind, [], [], nonce, PayloadHash(TOY, Null), Null, []);
    assert CanonicalText(Object(NodeFields(e))) != [] by { ObjectPrints(NodeFields(e)); }
  }

  lemma ObjectPrints(fields: seq<Field>)
    ensures CanonicalText(Object(fields)) != []
  {
  }

  function Verdict(s: seq<Challenge>, op: Op): Result<(), Rejection>
    requires op.Consume?
  {
    if Judge(s, op).Ok? then Ok(()) else Err(Judge(s, op).error)
  }

  // ---------- Runs ----------

  function Run(ops: seq<Op>): seq<Challenge> {
    if ops == [] then [] else Step(Run(ops[..|ops| - 1]), ops[|ops| - 1])
  }

  function Issues(ops: seq<Op>): nat {
    if ops == [] then 0 else Issues(ops[..|ops| - 1]) + if ops[|ops| - 1].Issue? then 1 else 0
  }

  /** How many nonces were issued after the one at `j`. */
  function Rank(ops: seq<Op>, j: nat): nat
    requires j < |ops|
  {
    Issues(ops[j + 1..])
  }

  /** The consume at `i` went through. */
  predicate Succeeds(ops: seq<Op>, i: nat)
    requires i < |ops|
  {
    ops[i].Consume? && Judge(Run(ops[..i]), ops[i]).Ok?
  }

  /** The consume at `i` asks for the nonce issued at `j`. */
  predicate AsksFor(ops: seq<Op>, i: nat, j: nat)
    requires i < |ops| && j < |ops|
  {
    ops[i].Consume? && ops[j].Issue? && ops[i].id == ops[j].id && ops[i].nodeId == ops[j].nodeId
      && ops[i].purpose == ops[j].purpose
  }

  /** Some consume since has spent the nonce issued at `j`. */
  predicate Spent(ops: seq<Op>, j: nat)
    requires j < |ops|
  {
    exists i :: j < i < |ops| && AsksFor(ops, i, j) && Succeeds(ops, i)
  }

  /** Generated identifiers never repeat. */
  predicate FreshIds(ops: seq<Op>) {
    forall i, j :: 0 <= i < j < |ops| && ops[i].Issue? && ops[j].Issue? ==> ops[i].id != ops[j].id
  }

  /** The list shows the nonce issued at `j`, in its place, with its mark. */
  ghost predicate Shown(ops: seq<Op>, s: seq<Challenge>, j: nat)
    requires j < |ops| && ops[j].Issue?
  {
    && Rank(ops, j) < |s|
    && s[Rank(ops, j)].(consumedAt := None) ==
         Challenge(ops[j].id, ops[j].nodeId, ops[j].purpose, ops[j].now, ops[j].now + 300_000, None)
    && (s[Rank(ops, j)].consumedAt.Some? <==> Spent(ops, j))
  }

  /** Some nonce was issued just before the last k issues. */
  predicate HasRank(ops: seq<Op>, k: nat) { exists j :: 0 <= j < |ops| && ops[j].Issue? && Rank(ops, j) == k }

  /** The list is the newest issues, newest first, with their marks. */
  ghost predicate Faithful(ops: seq<Op>, s: seq<Challenge>) {
    && |s| == (if Issues(ops) <= CAPACITY then Issues(ops) else CAPACITY)
    && (forall j :: 0 <= j < |ops| && ops[j].Issue? && Rank(ops, j) < CAPACITY ==> Shown(ops, s, j))
    && (forall k :: 0 <= k < |s| ==> HasRank(ops, k))
  }

  // ---------- Growing a run by one step ----------

  lemma {:induction false} IssuesSplit(a: seq<Op>, b: seq<Op>)
    ensures Issues(a + b) == Issues(a) + Issues(b)
  {
    if b == [] { assert a + b == a; }
    else {
      IssuesSplit(a, b[..|b| - 1]);
      assert (a + b)[..|a + b| - 1] == a + b[..|b| - 1];
    }
  }

  lemma RankGrows(ops: seq<Op>, op: Op, j: nat)
    requires j < |ops|
    ensures Rank(ops + [op], j) == Rank(ops, j) + if op.Issue? then 1 else 0
    ensures ops[j].Issue? ==> Rank(ops, j) < Issues(ops)
  {
    hide Issues;
    assert (ops + [op])[j + 1..] == ops[j + 1..] + [op];
    IssuesSplit(ops[j + 1..], [op]);
    IssuesOne(op);
    RankBelow(ops, j);
  }

  lemma RankBelow(ops: seq<Op>, j: nat)
    requires j < |ops|
    ensures ops[j].Issue? ==> Rank(ops, j) < Issues(ops)
  {
    hide Issues;
    assert ops == ops[..j] + ([ops[j]] + ops[j + 1..]);
    IssuesSplit(ops[..j], [ops[j]] + ops[j + 1..]);
    IssuesSplit([ops[j]], ops[j + 1..]);
    IssuesOne(ops[j]);
  }

  lemma IssuesOne(op: Op)
    ensures Issues([op]) == if op.Issue? then 1 else 0
  {
    assert [op][..0] == [];
  }

  lemma RunGrows(ops: seq<Op>, op: Op)
    ensures Run(ops + [op]) == Step(Run(ops), op)
    ensures Issues(ops + [op]) == Issues(ops) + if op.Issue? then 1 else 0
  {
    assert (ops + [op])[..|ops|] == ops;
  }

  lemma SpentGrows(ops: seq<Op>, op: Op, j: nat)
    requires j < |ops|
    ensures Spent(ops + [op], j) <==> Spent(ops, j) || (AsksFor(ops + [op], |ops|, j) && Judge(Run(ops), op).Ok?)
  {
    hide Run, Judge;
    var grown := ops + [op];
    assert grown[..|ops|] == ops;
    forall i | j < i < |ops| ensures Succeeds(grown, i) <==> Succeeds(ops, i) { assert grown[..i] == ops[..i]; }
    if Spent(ops, j) {
      var i :| j < i < |ops| && AsksFor(ops, i, j) && Succeeds(ops, i);
      assert AsksFor(grown, i, j) && Succeeds(grown, i);
    }
    if Spent(grown, j) {
      var i :| j < i < |grown| && AsksFor(grown, i, j) && Succeeds(grown, i);
      if i < |ops| { assert AsksFor(ops, i, j) && Succeeds(ops, i); }
    }
    if AsksFor(grown, |ops|, j) && Judge(Run(ops), op).Ok? { assert Succeeds(grown, |ops|); }
  }

  lemma NotYetSpent(ops: seq<Op>, op: Op)
    ensures !Spent(ops + [op], |ops|)
  {
  }

  // ---------- The list is the newest issues ----------

  lemma {:induction false} RunFaithful(ops: seq<Op>)
    requires FreshIds(ops)
    ensures Faithful(ops, Run(ops))
  {
    hide Faithful;
    if ops == [] {
      FaithfulEmpty();
    } else {
      var before, op := ops[..|ops| - 1], ops[|ops| - 1];
      assert ops == before + [op];
      RunFaithful(before);
      RunGrows(before, op);
      if op.Issue? { FaithfulIssue(before, op); } else { FaithfulConsume(before, op); }
    }
  }

  lemma FaithfulEmpty()
    ensures Faithful([], [])
  {
  }

  lemma FaithfulIssue(ops: seq<Op>, op: Op)
    requires op.Issue? && Faithful(ops, Run(ops))
    ensures Faithful(ops + [op], Step(Run(ops), op))
  {
    hide Run, Issues, Rank, Spent, AsksFor;
    var s, grown := Run(ops), ops + [op];
    var t := Step(s, op);
    RunGrows(ops, op);
    RankOfLast(ops, op);
    assert t[0] == Issued(op);
    forall j | 0 <= j < |grown| && grown[j].Issue? && Rank(grown, j) < CAPACITY ensures Shown(grown, t, j) {
      if j == |ops| { NotYetSpent(ops, op); }
      else {
        RankGrows(ops, op, j);
        SpentGrows(ops, op, j);
        assert grown[j] == ops[j] && Shown(ops, s, j);
        assert t[Rank(grown, j)] == s[Rank(ops, j)];
        IssueAsksNothing(ops, op, j);
      }
    }
    forall k | 0 <= k < |t| ensures HasRank(grown, k) {
      if k == 0 { assert grown[|ops|].Issue? && Rank(grown, |ops|) == 0; }
      else {
        assert HasRank(ops, k - 1);
        var j :| 0 <= j < |ops| && ops[j].Issue? && Rank(ops, j) == k - 1;
        RankGrows(ops, op, j);
        assert grown[j].Issue? && Rank(grown, j) == k;
      }
    }
  }

  lemma RankOfLast(ops: seq<Op>, op: Op)
    ensures Rank(ops + [op], |ops|) == 0
  {
    assert (ops + [op])[|ops| + 1..] == [];
  }

  lemma IssueAsksNothing(ops: seq<Op>, op: Op, j: nat)
    requires op.Issue? && j < |ops|
    ensures !AsksFor(ops + [op], |ops|, j)
  {
  }

  lemma FaithfulConsume(ops: seq<Op>, op: Op)
    requires op.Consume? && FreshIds(ops) && Faithful(ops, Run(ops))
    ensures Faithful(ops + [op], Step(Run(ops), op))
  {
    hide Run, Issues, Rank, Spent, AsksFor, Step, FreshIds;
    var s, grown := Run(ops), ops + [op];
    var t := Step(s, op);
    RunGrows(ops, op);
    ConsumeKeepsLength(s, op);
    forall j | 0 <= j < |grown| && grown[j].Issue? && Rank(grown, j) < CAPACITY ensures Shown(grown, t, j) {
      RankGrows(ops, op, j);
      SpentGrows(ops, op, j);
      assert grown[j] == ops[j] && Shown(ops, s, j);
      AskedAt(ops, op, j);
      ConsumeAt(s, op, Rank(ops, j));
    }
    forall k | 0 <= k < |t| ensures HasRank(grown, k) {
      assert HasRank(ops, k);
      var j :| 0 <= j < |ops| && ops[j].Issue? && Rank(ops, j) == k;
      RankGrows(ops, op, j);
      assert grown[j].Issue? && Rank(grown, j) == k;
    }
  }

  lemma ConsumeKeepsLength(s: seq<Challenge>, op: Op)
    requires op.Consume?
    ensures |Step(s, op)| == |s|
  {
  }

  lemma ConsumeAt(s: seq<Challenge>, op: Op, k: nat)
    requires op.Consume? && k < |s|
    ensures Step(s, op)[k].(consumedAt := None) == s[k].(consumedAt := None)
    ensures Step(s, op)[k].consumedAt.Some? <==> s[k].consumedAt.Some? || Judge(s, op) == Ok(k)
  {
  }

  /** What the search finds is the issue asked for. */
  lemma AskedAt(ops: seq<Op>, op: Op, j: nat)
    requires op.Consume? && FreshIds(ops) && Faithful(ops, Run(ops)) && j < |ops| && ops[j].Issue?
    requires Rank(ops, j) < CAPACITY
    ensures Judge(Run(ops), op) == Ok(Rank(ops, j)) <==> AsksFor(ops + [op], |ops|, j) && Judge(Run(ops), op).Ok?
  {
    hide Run, Issues, Rank, Spent, Judge, Faithful, Shown, FreshIds;
    var s := Run(ops);
    ShownAt(ops, s, j);
    if Judge(s, op).Ok? {
      var k := Judge(s, op).value;
      JudgedMatches(s, op);
      var i := IssueAt(ops, s, k);
      ShownAt(ops, s, i);
      ShownMatches(ops, s, i, op);
      ShownMatches(ops, s, j, op);
      if AsksFor(ops + [op], |ops|, j) { OneIssue(ops, i, j); }
    }
  }

  lemma ShownAt(ops: seq<Op>, s: seq<Challenge>, j: nat)
    requires Faithful(ops, s) && j < |ops| && ops[j].Issue? && Rank(ops, j) < CAPACITY
    ensures Shown(ops, s, j) && Rank(ops, j) < |s|
  {
    hide Issues, Rank, Spent;
  }

  lemma JudgedMatches(s: seq<Challenge>, op: Op)
    requires op.Consume? && Judge(s, op).Ok?
    ensures Judge(s, op).value < |s| && Matches(s[Judge(s, op).value], op.nodeId, op.purpose, op.id)
  {
  }

  lemma IssueAt(ops: seq<Op>, s: seq<Challenge>, k: nat) returns (i: nat)
    requires Faithful(ops, s) && k < |s|
    ensures i < |ops| && ops[i].Issue? && Rank(ops, i) == k < CAPACITY
  {
    hide Issues, Rank, Shown;
    assert HasRank(ops, k);
    i :| 0 <= i < |ops| && ops[i].Issue? && Rank(ops, i) == k;
  }

  /** A challenge shown matches exactly the requests for its issue. */
  lemma ShownMatches(ops: seq<Op>, s: seq<Challenge>, j: nat, op: Op)
    requires op.Consume? && j < |ops| && ops[j].Issue? && Shown(ops, s, j)
    ensures Rank(ops, j) < |s|
    ensures Matches(s[Rank(ops, j)], op.nodeId, op.purpose, op.id) <==> AsksFor(ops + [op], |ops|, j)
  {
    hide Rank, Spent;
    assert s[Rank(ops, j)].id == Issued(ops[j]).id;
  }

  lemma OneIssue(ops: seq<Op>, i: nat, j: nat)
    requires FreshIds(ops) && i < |ops| && j < |ops| && ops[i].Issue? && ops[j].Issue? && ops[i].id == ops[j].id
    ensures i == j
  {
  }

  // ---------- The main claims ----------

  /** At every point of a run the list is the newest 5000 nonces issued, newest first, with their marks. */
  lemma StoreHoldsNewest(ops: seq<Op>)
    requires FreshIds(ops)
    ensures |Run(ops)| == if Issues(ops) <= 5000 then Issues(ops) else 5000
    ensures forall j :: 0 <= j < |ops| && ops[j].Issue? && Rank(ops, j) < 5000 ==> Shown(ops, Run(ops), j)
    ensures forall k :: 0 <= k < |Run(ops)| ==> HasRank(ops, k)
  {
    hide Run, Issues, Rank, Shown;
    RunFaithful(ops);
  }

  /** The nonce asked for was issued to that node and purpose before, is among the newest 5000, is unspent
      and has not expired. */
  ghost predicate Redeemable(ops: seq<Op>, i: nat, j: nat)
    requires j < i < |ops|
  {
    AsksFor(ops, i, j) && Rank(ops[..i], j) < 5000 && !Spent(ops[..i], j) && ops[i].now < ops[j].now + 300_000
  }

  /** A nonce is consumed exactly when it is redeemable. */
  lemma ConsumeSucceedsIff(ops: seq<Op>, i: nat)
    requires FreshIds(ops) && i < |ops| && ops[i].Consume?
    ensures Succeeds(ops, i) <==> exists j :: 0 <= j < i && Redeemable(ops, i, j)
  {
    hide Run, Issues, Rank, Spent, AsksFor;
    var before := ops[..i];
    RunFaithful(before);
    if Succeeds(ops, i) {
      var k := Judge(Run(before), ops[i]).value;
      assert HasRank(before, k);
      var j :| 0 <= j < i && before[j].Issue? && Rank(before, j) == k;
      assert Shown(before, Run(before), j);
      FoundIsRedeemable(ops, i, j);
    }
    if exists j :: 0 <= j < i && Redeemable(ops, i, j) {
      var j :| 0 <= j < i && Redeemable(ops, i, j);
      RedeemableIsFound(ops, i, j);
    }
  }

  lemma FoundIsRedeemable(ops: seq<Op>, i: nat, j: nat)
    requires j < i < |ops| && ops[i].Consume? && ops[j].Issue?
    requires Rank(ops[..i], j) < CAPACITY && Shown(ops[..i], Run(ops[..i]), j)
    requires Judge(Run(ops[..i]), ops[i]) == Ok(Rank(ops[..i], j))
    ensures Redeemable(ops, i, j)
  {
    hide Run, Issues, Rank, Spent;
  }

  lemma RedeemableIsFound(ops: seq<Op>, i: nat, j: nat)
    requires j < i < |ops| && Redeemable(ops, i, j) && FreshIds(ops) && Faithful(ops[..i], Run(ops[..i]))
    ensures Succeeds(ops, i)
  {
    hide Run, Issues, Rank, Spent;
    var before := ops[..i];
    var s := Run(before);
    assert before[j] == ops[j];
    assert Shown(before, s, j);
    var k := Find(s, ops[i].nodeId, ops[i].purpose, ops[i].id);
    assert Matches(s[Rank(before, j)], ops[i].nodeId, ops[i].purpose, ops[i].id);
    assert HasRank(before, k);
    var m :| 0 <= m < i && before[m].Issue? && Rank(before, m) == k;
    assert before[m] == ops[m];
    assert Shown(before, s, m);
    assert ops[m].id == ops[j].id;
  }

  /** No nonce is consumed twice, even after it was evicted. */
  lemma SingleUse(ops: seq<Op>, i: nat, k: nat)
    requires FreshIds(ops) && i < |ops| && k < |ops| && Succeeds(ops, i) && Succeeds(ops, k) && ops[i].id == ops[k].id
    ensures i == k
  {
    hide Succeeds, FreshIds;
    if i < k { SpentStaysSpent(ops, i, k); }
    if k < i { SpentStaysSpent(ops, k, i); }
  }

  lemma SpentStaysSpent(ops: seq<Op>, i: nat, k: nat)
    requires FreshIds(ops) && i < k < |ops| && Succeeds(ops, i) && ops[i].id == ops[k].id
    ensures !Succeeds(ops, k)
  {
    hide Run, Issues, Rank, Judge;
    ConsumeSucceedsIff(ops, i);
    var a :| 0 <= a < i && Redeemable(ops, i, a);
    if ops[k].Consume? {
      ConsumeSucceedsIff(ops, k);
      var before := ops[..k];
      assert before[..i] == ops[..i];
      assert AsksFor(before, i, a) && Succeeds(before, i);
      forall b | 0 <= b < k ensures !Redeemable(ops, k, b) {
        assert AsksFor(ops, k, b) ==> a == b;
      }
    }
  }

  // ---------- What the checks ask for ----------

  /** Everything an envelope has to satisfy before its nonce is looked at. */
  predicate Presentable(c: Platform, keys: map<Text, Text>, e: NodeEnvelope, nodeId: Text, payloadType: Text,
                        now: int) {
    && e.algorithm == Name("ES256") && e.nodeId == nodeId && e.payloadType == payloadType
    && c.parseDate(e.issuedAt).Some? && now - 300_000 <= c.parseDate(e.issuedAt).value <= now + 300_000
    && c.parseDate(e.expiresAt).Some? && now < c.parseDate(e.expiresAt).value
    && nodeId in keys && |keys[nodeId]| > 0
    && !e.payload.Undefined? && |e.payloadHash| > 0 && e.payloadHash == c.sha(CanonicalText(e.payload))
  }

  lemma AdmittedWhen(c: Platform, keys: map<Text, Text>, e: NodeEnvelope, nodeId: Text, payloadType: Text, now: int)
    ensures Admit(c, keys, e, nodeId, payloadType, now).None? <==> Presentable(c, keys, e, nodeId, payloadType, now)
  {
    hide CanonicalText, Name;
  }

  /** The signature is over the eight other properties of the envelope, under the node's own key. */
  lemma SignedOver(c: Platform, pem: Text, e: NodeEnvelope)
    ensures Signs(c, pem, e) <==> c.readPublic(pem).Some? && c.verify(c.readPublic(pem).value, CanonicalText(Object([
      Field(Name("algorithm"), String(e.algorithm)), Field(Name("nodeId"), String(e.nodeId)),
      Field(Name("payloadType"), String(e.payloadType)), Field(Name("issuedAt"), String(e.issuedAt)),
      Field(Name("expiresAt"), String(e.expiresAt)), Field(Name("nonce"), String(e.nonce)),
      Field(Name("payloadHash"), String(e.payloadHash)), Field(Name("payload"), e.payload)])), e.signature)
  {
    hide CanonicalText, Name;
  }

  /** The challenge at `k` is the first for that nonce, node and purpose. */
  predicate FirstFor(s: seq<Challenge>, op: Op, k: nat)
    requires op.Consume?
  {
    && k < |s| && s[k].id == op.id && s[k].nodeId == op.nodeId && s[k].purpose == op.purpose
    && forall j :: 0 <= j < k ==> s[j].id != op.id || s[j].nodeId != op.nodeId || s[j].purpose != op.purpose
  }

  /** Consuming answers for the first challenge asked for: unspent and unexpired it is marked with the time of the
      call, and otherwise nothing changes. */
  lemma ConsumeMeans(s: seq<Challenge>, op: Op, k: nat)
    requires op.Consume? && FirstFor(s, op, k)
    ensures var c := s[k];
      if c.consumedAt.Some? then Judge(s, op) == Err(UsedNonce) && Step(s, op) == s
      else if op.now >= c.expiresAt then Judge(s, op) == Err(ExpiredNonce) && Step(s, op) == s
      else
        && Judge(s, op) == Ok(k)
        && Step(s, op) ==
             s[..k] + [Challenge(c.id, c.nodeId, c.purpose, c.createdAt, c.expiresAt, Some(op.now))] + s[k + 1..]
  {
    assert Find(s, op.nodeId, op.purpose, op.id) == k;
  }

  lemma UnknownMeans(s: seq<Challenge>, op: Op)
    requires op.Consume? && forall k: nat :: !FirstFor(s, op, k)
    ensures Judge(s, op) == Err(UnknownNonce) && Step(s, op) == s
  {
    var k := Find(s, op.nodeId, op.purpose, op.id);
    assert !FirstFor(s, op, k);
  }

  /** The rank of a nonce counts the issues after it. */
  lemma {:induction false} IssuesCount(ops: seq<Op>)
    ensures Issues(ops) == |set i | 0 <= i < |ops| && ops[i].Issue?|
  {
    var issues := set i | 0 <= i < |ops| && ops[i].Issue?;
    if ops == [] {
      assert issues == {};
    } else {
      var n := |ops| - 1;
      IssuesCount(ops[..n]);
      var before := set i | 0 <= i < n && ops[..n][i].Issue?;
      assert issues == before + if ops[n].Issue? then {n} else {};
    }
  }
}
