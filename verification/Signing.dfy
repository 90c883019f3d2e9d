/** The scoped signing service: key configuration, signing, and its two verifiers. */
module Signing {
  import opened Prelude
  import opened CanonicalJson

  // ---------- Foreign primitives ----------

  type PrivateKey = nat
  type PublicKey = nat

  /** Node's crypto and Date, as functions. `sign` takes the randomness of one call. */
  datatype Platform = Platform(
    sha: Text -> Text,
    iso: int -> Text,
    parseDate: Text -> Option<int>,
    readPrivate: Text -> Option<PrivateKey>,
    readPublic: Text -> Option<PublicKey>,
    publicOf: PrivateKey -> PublicKey,
    sign: (PrivateKey, Text, nat) -> Text,
    verify: (PublicKey, Text, Text) -> bool)

  /** The instants a JavaScript Date can hold, in milliseconds. */
  predicate InDateRange(t: int) { -8_640_000_000_000_000 <= t <= 8_640_000_000_000_000 }

  /** SHA-256 is injective with non-empty digests, a printed date parses back, a signature verifies under
      the matching public key, and a signature verifies for one message only. */
  ghost predicate Ideal(c: Platform) {
    && (forall x, y :: c.sha(x) == c.sha(y) ==> x == y)
    && (forall x :: c.sha(x) != [])
    && (forall t :: InDateRange(t) ==> c.parseDate(c.iso(t)) == Some(t))
    && (forall k, m, r :: c.verify(c.publicOf(k), m, c.sign(k, m, r)))
    && (forall p, m, n, s :: c.verify(p, m, s) && c.verify(p, n, s) ==> m == n)
  }

  // ---------- Scopes and keys ----------

  const SCOPES: seq<Text> := [Name("bootstrap_manifest"), Name("rule_bundle"), Name("task_bundle"), Name("task_ledger"),
                              Name("kill_switch"), Name("recovery_task"), Name("node_update")]
  const WILDCARD: Text := Name("*")
  const ES256: Text := Name("ES256")

  predicate KnownScope(s: Text) { s in SCOPES }

  datatype Status = Active | Trusted | Retired | Revoked

  datatype KeyMetadata = KeyMetadata(
    keyId: Text, scope: Text, status: Status, publicKeyPem: Text, issuedAt: Text,
    retirementDeadline: Option<Text>, isDev: bool, algorithm: Text, allowedTenants: Option<seq<Text>>)

  /** The service's maps, and whether development compatibility is on. */
  datatype Keys = Keys(
    active: map<Text, Text>, private: map<Text, PrivateKey>, metadata: map<Text, KeyMetadata>,
    trusted: map<Text, PublicKey>, devMode: bool)

  datatype Error =
    | BadPrivateKey | BadMetadata | BadPublicKey | UnknownScope | BadActiveKey
    | DuplicateKeys | NoActiveKey | NoMetadata | WildcardKey | ScopeMismatch | NotActive | NoPrivateKey | DevKey
    | BadAlgorithm
    | BadTimestamps | Expired | TenantMismatch | MissingHash | HashMismatch
    | UnknownKey | RevokedKey | RetiredKey | TenantNotAllowed | BadSignature | NoPayload

  // ---------- Signing ----------

  /** `scope` and `payloadType` may be missing from an envelope that did not come from `signPayload`. */
  datatype Envelope = Envelope(
    algorithm: Text, keyId: Text, scope: Option<Text>, payloadType: Option<Text>, tenantId: Text, issuedAt: Text,
    expiresAt: Text, nonce: Text, payloadHash: Text, payload: Json, signature: Text)

  /** The envelope without its signature, as an object. */
  function UnsignedFields(e: Envelope): seq<Field> {
    [Field(Name("algorithm"), String(e.algorithm)), Field(Name("keyId"), String(e.keyId)),
     Field(Name("scope"), Optional(e.scope)),
     Field(Name("payloadType"), Optional(e.payloadType)), Field(Name("tenantId"), String(e.tenantId)),
     Field(Name("issuedAt"), String(e.issuedAt)), Field(Name("expiresAt"), String(e.expiresAt)),
     Field(Name("nonce"), String(e.nonce)),
     Field(Name("payloadHash"), String(e.payloadHash)), Field(Name("payload"), e.payload)]
  }

  function SignedText(e: Envelope): Text { CanonicalText(Object(UnsignedFields(e))) }

  function PayloadHash(c: Platform, payload: Json): Text { c.sha(CanonicalText(payload)) }

  /** `signPayload`, at an instant, with the nonce and randomness of the call. */
  function SignPayload(c: Platform, keys: Keys, scope: Text, tenantId: Text, payload: Json, ttlSeconds: int,
                       now: int, nonce: Text, random: nat): Result<Envelope, Error>
  {
    if !KnownScope(scope) then Err(UnknownScope)
    else if scope !in keys.active || keys.active[scope] == [] then Err(NoActiveKey)
    else
      var keyId := keys.active[scope];
      if keyId !in keys.private then Err(NoPrivateKey)
      else if keyId !in keys.metadata then Err(NoMetadata)
      else if keys.metadata[keyId].scope != scope && !(keys.devMode && keys.metadata[keyId].scope == WILDCARD) then
        Err(ScopeMismatch)
      else if payload.Undefined? then Err(NoPayload)
      else if !InDateRange(now) || !InDateRange(now + ttlSeconds * 1000) then Err(BadTimestamps)
      else
        var unsigned := Envelope(ES256, keyId, Some(scope), Some(scope), tenantId, c.iso(now),
                                 c.iso(now + ttlSeconds * 1000),
                                 nonce, PayloadHash(c, payload), payload, []);
        Ok(unsigned.(signature := c.sign(keys.private[keyId], SignedText(unsigned), random)))
  }

  // ---------- Verifying ----------

  function CheckTimestamps(c: Platform, issuedAt: Text, expiresAt: Text, now: int): Result<(), Error> {
    if c.parseDate(expiresAt).None? || c.parseDate(issuedAt).None? then Err(BadTimestamps)
    else if c.parseDate(expiresAt).value <= now then Err(Expired)
    else Ok(())
  }

  /** `resolvePublicKey`. */
  function ResolvePublicKey(c: Platform, keys: Keys, production: bool, keyId: Text, scope: Text, tenantId: Text,
                            now: int): Result<PublicKey, Error> {
    if keyId !in keys.metadata then Err(UnknownKey)
    else
      var meta := keys.metadata[keyId];
      if meta.scope == WILDCARD && (production || !keys.devMode) then Err(WildcardKey)
      else if meta.scope != WILDCARD && meta.scope != scope then Err(ScopeMismatch)
      else if meta.status == Revoked then Err(RevokedKey)
      else if meta.status == Retired && !WithinDeadline(c, meta.retirementDeadline, now) then Err(RetiredKey)
      else if meta.isDev && production then Err(DevKey)
      else if meta.allowedTenants.Some? && meta.allowedTenants.value != [] && tenantId !in meta.allowedTenants.value
      then
        Err(TenantNotAllowed)
      else if keyId !in keys.trusted then Err(UnknownKey)
      else Ok(keys.trusted[keyId])
  }

  /** A retired key needs a deadline that parses and has not passed. */
  predicate WithinDeadline(c: Platform, deadline: Option<Text>, now: int) {
    && deadline.Some? && deadline.value != []
    && c.parseDate(deadline.value).Some? && now <= c.parseDate(deadline.value).value
  }

  /** `verifyEnvelopeMetadata`: the scope, when every check passes. An empty expected value is not checked. */
  function CheckMetadata(c: Platform, e: Envelope, expectedScope: Option<Text>, expectedTenant: Option<Text>,
                         now: int): Result<Text, Error> {
    if e.algorithm != ES256 then Err(BadAlgorithm)
    else if e.scope.None? && e.payloadType.None? then Err(UnknownScope)
    else
      var scope := if e.scope.Some? then e.scope.value else e.payloadType.value;
      if !KnownScope(scope) then Err(UnknownScope)
      else if e.scope.Some? && e.payloadType.Some? && e.payloadType.value != [] && e.scope != e.payloadType then
        Err(ScopeMismatch)
      else if expectedScope.Some? && expectedScope.value != [] && scope != expectedScope.value then Err(ScopeMismatch)
      else if expectedTenant.Some? && expectedTenant.value != [] && e.tenantId != expectedTenant.value then
        Err(TenantMismatch)
      else
        var times := CheckTimestamps(c, e.issuedAt, e.expiresAt, now);
        if times.Err? then Err(times.error)
        else if e.payloadHash == [] then Err(MissingHash)
        else if e.payload.Undefined? then Err(NoPayload)
        else if PayloadHash(c, e.payload) != e.payloadHash then Err(HashMismatch)
        else Ok(scope)
  }

  /** `verifyEnvelope`. */
  function VerifyEnvelope(c: Platform, keys: Keys, production: bool, e: Envelope, expectedScope: Option<Text>,
                          expectedTenant: Option<Text>, now: int): Result<Json, Error>
  {
    var scope := CheckMetadata(c, e, expectedScope, expectedTenant, now);
    if scope.Err? then Err(scope.error)
    else
      var key := ResolvePublicKey(c, keys, production, e.keyId, scope.value, e.tenantId, now);
      if key.Err? then Err(key.error)
      else if !c.verify(key.value, SignedText(e), e.signature) then Err(BadSignature)
      else Ok(e.payload)
  }

  datatype Detached = Detached(
    expectedScope: Text, tenantId: Text, keyId: Text, payload: Json, signature: Text, issuedAt: Text, expiresAt: Text,
    nonce: Text, payloadHash: Text, algorithm: Option<Text>)

  /** The object the detached verifier builds for itself. */
  function DetachedFields(d: Detached): seq<Field> {
    [Field(Name("algorithm"), String(if d.algorithm.Some? then d.algorithm.value else ES256)),
     Field(Name("keyId"), String(d.keyId)),
     Field(Name("scope"), String(d.expectedScope)), Field(Name("payloadType"), String(d.expectedScope)),
     Field(Name("tenantId"), String(d.tenantId)), Field(Name("issuedAt"), String(d.issuedAt)),
     Field(Name("expiresAt"), String(d.expiresAt)),
     Field(Name("nonce"), String(d.nonce)), Field(Name("payloadHash"), String(d.payloadHash)),
     Field(Name("payload"), d.payload)]
  }

  /** `verifyDetachedSignature`. */
  function VerifyDetached(c: Platform, keys: Keys, production: bool, d: Detached, now: int): Result<(), Error> {
    if !KnownScope(d.expectedScope) then Err(UnknownScope)
    else
      var times := CheckTimestamps(c, d.issuedAt, d.expiresAt, now);
      if times.Err? then times
      else if d.payload.Undefined? then Err(NoPayload)
      else if d.payloadHash == [] || PayloadHash(c, d.payload) != d.payloadHash then Err(HashMismatch)
      else
        var key := ResolvePublicKey(c, keys, production, d.keyId, d.expectedScope, d.tenantId, now);
        if key.Err? then Err(key.error)
        else if !c.verify(key.value, CanonicalText(Object(DetachedFields(d))), d.signature) then Err(BadSignature)
        else Ok(())
  }

  /** The envelope's own fields handed to the detached verifier. */
  function FieldsOf(e: Envelope, scope: Text): Detached {
    Detached(scope, e.tenantId, e.keyId, e.payload, e.signature, e.issuedAt, e.expiresAt, e.nonce, e.payloadHash,
             Some(e.algorithm))
  }

  // ---------- The two verifiers agree ----------

  lemma VerifiersAgree(c: Platform, keys: Keys, production: bool, e: Envelope, scope: Text, now: int)
    requires e.scope == Some(scope) && e.payloadType == Some(scope) && e.algorithm == ES256
    ensures VerifyDetached(c, keys, production, FieldsOf(e, scope), now).Ok? <==>
            VerifyEnvelope(c, keys, production, e, Some(scope), Some(e.tenantId), now).Ok?
  {
    hide CanonicalText, Name, KnownScope, ResolvePublicKey, CheckTimestamps, PayloadHash;
    assert DetachedFields(FieldsOf(e, scope)) == UnsignedFields(e);
  }

  // ---------- Accepted configurations ----------

  /** The scope has an active key of its own, fit to sign. */
  predicate ServesScope(keys: Keys, production: bool, s: Text) {
    s in keys.active && keys.active[s] != []
    && keys.active[s] in keys.metadata && keys.active[s] in keys.private && keys.active[s] in keys.trusted
    && keys.metadata[keys.active[s]].scope == s && keys.metadata[keys.active[s]].status == Active
    && !(production && keys.metadata[keys.active[s]].isDev)
  }

  /** What an accepted configuration guarantees. */
  ghost predicate Usable(keys: Keys, production: bool) {
    && !keys.devMode
    && (forall s :: KnownScope(s) ==> ServesScope(keys, production, s))
    && (forall k :: k in keys.metadata ==> KnownScope(keys.metadata[k].scope) && keys.metadata[k].algorithm == ES256)
    && (forall s :: s in keys.active ==> KnownScope(s))
  }

  /** In an accepted configuration no two scopes share a key, in production or not. */
  lemma ActiveKeysDistinct(keys: Keys, production: bool, s: Text, t: Text)
    requires Usable(keys, production) && s in keys.active && t in keys.active && keys.active[s] == keys.active[t]
    ensures s == t
  {
  }

  /** Signing then reaches no configuration error, for any of the seven scopes: it fails only on a payload
      or an expiry date that cannot be written down. */
  lemma SigningTotal(c: Platform, keys: Keys, production: bool, scope: Text, tenantId: Text, payload: Json, ttl: int,
                     now: int, nonce: Text, random: nat)
    requires Usable(keys, production) && KnownScope(scope)
    ensures var r := SignPayload(c, keys, scope, tenantId, payload, ttl, now, nonce, random);
      && (r.Ok? <==> !payload.Undefined? && InDateRange(now) && InDateRange(now + ttl * 1000))
      && (r.Err? ==> r.error == NoPayload || r.error == BadTimestamps)
      && (r.Ok? ==> r.value.keyId == keys.active[scope] && keys.metadata[r.value.keyId].scope == scope)
  {
    hide CanonicalText, Name, KnownScope;
  }

  // ---------- Sign, then verify ----------

  /** The active key's published half belongs to its private half, and the tenant may use it. */
  predicate KeyServes(c: Platform, keys: Keys, scope: Text, tenantId: Text) {
    scope in keys.active && keys.active[scope] in keys.private && keys.active[scope] in keys.trusted
      && keys.active[scope] in keys.metadata
    && keys.trusted[keys.active[scope]] == c.publicOf(keys.private[keys.active[scope]])
    && var tenants := keys.metadata[keys.active[scope]].allowedTenants;
       (tenants.None? || tenants.value == [] || tenantId in tenants.value)
  }

  lemma SignedFacts(c: Platform, keys: Keys, production: bool, scope: Text, tenantId: Text, payload: Json, ttl: int,
                    now: int, nonce: Text, random: nat, e: Envelope)
    requires Ideal(c) && Usable(keys, production) && KeyServes(c, keys, scope, tenantId)
    requires SignPayload(c, keys, scope, tenantId, payload, ttl, now, nonce, random) == Ok(e)
    ensures KnownScope(scope) && !payload.Undefined? && e.payload == payload
    ensures e.payloadHash == PayloadHash(c, payload) != []
    ensures e.algorithm == ES256 && e.scope == Some(scope) && e.payloadType == Some(scope) && e.tenantId == tenantId
    ensures c.parseDate(e.issuedAt) == Some(now) && c.parseDate(e.expiresAt) == Some(now + ttl * 1000)
    ensures c.verify(keys.trusted[e.keyId], SignedText(e), e.signature)
    ensures forall t :: ResolvePublicKey(c, keys, production, e.keyId, scope, tenantId, t) == Ok(keys.trusted[e.keyId])
  {
    hide CanonicalText, Name, WithinDeadline;
    WildcardIsNoScope();
    assert UnsignedFields(e) == UnsignedFields(e.(signature := []));
  }

  lemma WildcardIsNoScope()
    ensures !KnownScope(WILDCARD) && !KnownScope([])
  {
    assert |WILDCARD| == 1;
    assert forall s :: s in SCOPES ==> |s| > 1;
  }

  /** A signed envelope is accepted at exactly the instants before it expires, and gives back its payload. */
  lemma SignThenVerify(c: Platform, keys: Keys, production: bool, scope: Text, tenantId: Text, payload: Json, ttl: int,
                       now: int, nonce: Text, random: nat, e: Envelope, t: int)
    requires Ideal(c) && Usable(keys, production) && KeyServes(c, keys, scope, tenantId)
    requires SignPayload(c, keys, scope, tenantId, payload, ttl, now, nonce, random) == Ok(e)
    ensures VerifyEnvelope(c, keys, production, e, Some(scope), Some(tenantId), t) ==
            if t < now + ttl * 1000 then Ok(payload) else Err(Expired)
    ensures VerifyEnvelope(c, keys, production, e, None, None, t) ==
      VerifyEnvelope(c, keys, production, e, Some(scope), Some(tenantId), t)
    ensures VerifyDetached(c, keys, production, FieldsOf(e, scope), t).Ok? <==> t < now + ttl * 1000
  {
    hide SignPayload, SignedText, Ideal, Usable, KeyServes, Name, KnownScope, ResolvePublicKey, PayloadHash,
      VerifyDetached, FieldsOf;
    SignedFacts(c, keys, production, scope, tenantId, payload, ttl, now, nonce, random, e);
    VerifiersAgree(c, keys, production, e, scope, t);
  }

  /** For any other expected scope it is rejected, at any time. */
  lemma OtherScopeRejected(c: Platform, keys: Keys, production: bool, scope: Text, tenantId: Text, payload: Json,
                           ttl: int,
                           now: int, nonce: Text, random: nat, e: Envelope, other: Text, tenant: Option<Text>, t: int)
    requires SignPayload(c, keys, scope, tenantId, payload, ttl, now, nonce, random) == Ok(e) && other != scope
    requires other != []
    ensures VerifyEnvelope(c, keys, production, e, Some(other), tenant, t).Err?
  {
    hide CanonicalText, Name, KnownScope, ResolvePublicKey;
  }

  /** A key of one scope never makes an envelope of another scope acceptable. */
  lemma ScopeIsolated(c: Platform, keys: Keys, production: bool, e: Envelope, scope: Option<Text>, tenant: Option<Text>,
                      t: int)
    requires Usable(keys, production) && VerifyEnvelope(c, keys, production, e, scope, tenant, t).Ok?
    ensures e.keyId in keys.metadata
    ensures Some(keys.metadata[e.keyId].scope) == if e.scope.Some? then e.scope else e.payloadType
    ensures scope.Some? && scope.value != [] ==> keys.metadata[e.keyId].scope == scope.value
  {
    hide CanonicalText, Name;
    WildcardIsNoScope();
  }
}
