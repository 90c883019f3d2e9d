/** What each of the two verifiers and the signer demand, condition by condition, for any configuration: nothing
    here is stated with the checks they call. */
module SigningRules {
  import opened Prelude
  import opened CanonicalJson
  import opened Signing

  const SEVEN: seq<Text> := [
    Name("bootstrap_manifest"), Name("rule_bundle"), Name("task_bundle"), Name("task_ledger"), Name("kill_switch"),
    Name("recovery_task"), Name("node_update")]

  /** The ten properties a signature covers. */
  function Covered(algorithm: Text, keyId: Text, scope: Json, payloadType: Json, tenantId: Text, issuedAt: Text,
                   expiresAt: Text, nonce: Text, payloadHash: Text, payload: Json): Json {
    Object([Field(Name("algorithm"), String(algorithm)), Field(Name("keyId"), String(keyId)),
            Field(Name("scope"), scope), Field(Name("payloadType"), payloadType),
            Field(Name("tenantId"), String(tenantId)), Field(Name("issuedAt"), String(issuedAt)),
            Field(Name("expiresAt"), String(expiresAt)), Field(Name("nonce"), String(nonce)),
            Field(Name("payloadHash"), String(payloadHash)), Field(Name("payload"), payload)])
  }

  function OrUndefined(t: Option<Text>): Json { match t case Some(text) => String(text) case None => Undefined }

  /** The key may vouch for the scope and the tenant at this instant. */
  predicate KeyAdmits(c: Platform, keys: Keys, production: bool, keyId: Text, scope: Text, tenantId: Text, now: int) {
    && keyId in keys.metadata && keyId in keys.trusted
    && var meta := keys.metadata[keyId];
    && (meta.scope == scope || (meta.scope == Name("*") && keys.devMode && !production))
    && meta.status != Revoked
    && (meta.status == Retired ==> DeadlineAhead(c, meta.retirementDeadline, now))
    && !(meta.isDev && production)
    && (meta.allowedTenants.None? || meta.allowedTenants.value == [] || tenantId in meta.allowedTenants.value)
  }

  predicate DeadlineAhead(c: Platform, deadline: Option<Text>, now: int) {
    deadline.Some? && deadline.value != [] && c.parseDate(deadline.value).Some? &&
    c.parseDate(deadline.value).value >= now
  }

  /** Both dates are dates and the second is still ahead; the hash is that of the payload. */
  predicate Current(c: Platform, issuedAt: Text, expiresAt: Text, payload: Json, payloadHash: Text, now: int) {
    && c.parseDate(issuedAt).Some? && c.parseDate(expiresAt).Some? && c.parseDate(expiresAt).value > now
    && !payload.Undefined? && payloadHash == c.sha(CanonicalText(payload)) && |payloadHash| > 0
  }

  /** Nothing, or nothing but the empty text, is expected, or exactly this. */
  predicate Meets(t: Text, expected: Option<Text>) { expected.None? || expected.value == [] || expected.value == t }

  /** The scope an envelope speaks for: its `scope`, or its `payloadType` when it has none. */
  predicate SpeaksFor(e: Envelope, scope: Text) {
    || (e.scope == Some(scope) && (e.payloadType.None? || e.payloadType.value in [[], scope]))
    || (e.scope.None? && e.payloadType == Some(scope))
  }

  ghost predicate EnvelopeAdmitted(c: Platform, keys: Keys, production: bool, e: Envelope,
                                   expectedScope: Option<Text>, expectedTenant: Option<Text>, now: int) {
    && e.algorithm == Name("ES256")
    && (exists scope :: scope in SEVEN && SpeaksFor(e, scope) && Meets(scope, expectedScope) &&
                        KeyAdmits(c, keys, production, e.keyId, scope, e.tenantId, now))
    && Meets(e.tenantId, expectedTenant)
    && Current(c, e.issuedAt, e.expiresAt, e.payload, e.payloadHash, now)
    && c.verify(keys.trusted[e.keyId],
                CanonicalText(Covered(e.algorithm, e.keyId, OrUndefined(e.scope), OrUndefined(e.payloadType),
                                      e.tenantId, e.issuedAt, e.expiresAt, e.nonce, e.payloadHash, e.payload)),
                e.signature)
  }

  lemma ScopesAre(s: Text)
    ensures KnownScope(s) <==> s in SEVEN
    ensures s in SEVEN ==> s != Name("*") && s != []
  {
    WildcardIsNoScope();
  }

  lemma KeyResolved(c: Platform, keys: Keys, production: bool, keyId: Text, scope: Text, tenantId: Text, now: int)
    requires scope in SEVEN
    ensures var r := ResolvePublicKey(c, keys, production, keyId, scope, tenantId, now);
      && (r.Ok? <==> KeyAdmits(c, keys, production, keyId, scope, tenantId, now))
      && (r.Ok? ==> r.value == keys.trusted[keyId])
  {
    hide Name, SEVEN;
    ScopesAre(scope);
  }

  lemma MetadataChecked(c: Platform, e: Envelope, expectedScope: Option<Text>, expectedTenant: Option<Text>,
                        now: int, scope: Text)
    ensures CheckMetadata(c, e, expectedScope, expectedTenant, now) == Ok(scope) <==>
      && e.algorithm == Name("ES256") && scope in SEVEN && SpeaksFor(e, scope) && Meets(scope, expectedScope)
      && Meets(e.tenantId, expectedTenant) && Current(c, e.issuedAt, e.expiresAt, e.payload, e.payloadHash, now)
  {
    hide CanonicalText, Name, KnownScope, SEVEN;
    ScopesAre(scope);
  }

  /** An envelope is accepted if and only if every condition holds, and acceptance gives its payload. */
  lemma EnvelopeAccepted(c: Platform, keys: Keys, production: bool, e: Envelope, expectedScope: Option<Text>,
                         expectedTenant: Option<Text>, now: int)
    ensures var r := VerifyEnvelope(c, keys, production, e, expectedScope, expectedTenant, now);
      && (r.Ok? <==> EnvelopeAdmitted(c, keys, production, e, expectedScope, expectedTenant, now))
      && (r.Ok? ==> r.value == e.payload)
  {
    hide CanonicalText, Name, SEVEN, CheckMetadata, ResolvePublicKey, KeyAdmits, Current, Meets, SpeaksFor;
    var r := CheckMetadata(c, e, expectedScope, expectedTenant, now);
    if r.Ok? {
      MetadataChecked(c, e, expectedScope, expectedTenant, now, r.value);
      KeyResolved(c, keys, production, e.keyId, r.value, e.tenantId, now);
    }
    if EnvelopeAdmitted(c, keys, production, e, expectedScope, expectedTenant, now) {
      var scope :| scope in SEVEN && SpeaksFor(e, scope) && Meets(scope, expectedScope) &&
                   KeyAdmits(c, keys, production, e.keyId, scope, e.tenantId, now);
      MetadataChecked(c, e, expectedScope, expectedTenant, now, scope);
    }
  }

  predicate DetachedAdmitted(c: Platform, keys: Keys, production: bool, d: Detached, now: int) {
    && d.expectedScope in SEVEN
    && Current(c, d.issuedAt, d.expiresAt, d.payload, d.payloadHash, now)
    && KeyAdmits(c, keys, production, d.keyId, d.expectedScope, d.tenantId, now)
    && c.verify(keys.trusted[d.keyId],
                CanonicalText(Covered(if d.algorithm.Some? then d.algorithm.value else Name("ES256"), d.keyId,
                                      String(d.expectedScope), String(d.expectedScope), d.tenantId, d.issuedAt,
                                      d.expiresAt, d.nonce, d.payloadHash, d.payload)),
                d.signature)
  }

  /** A detached signature is accepted if and only if every condition holds. */
  lemma DetachedAccepted(c: Platform, keys: Keys, production: bool, d: Detached, now: int)
    ensures VerifyDetached(c, keys, production, d, now).Ok? <==> DetachedAdmitted(c, keys, production, d, now)
  {
    hide CanonicalText, Name, KnownScope, SEVEN, ResolvePublicKey, KeyAdmits;
    ScopesAre(d.expectedScope);
    if d.expectedScope in SEVEN {
      KeyResolved(c, keys, production, d.keyId, d.expectedScope, d.tenantId, now);
    }
  }

  /** The scope has an active key with a private half and metadata that lets it sign for the scope. */
  predicate CanSign(keys: Keys, scope: Text) {
    && scope in SEVEN && scope in keys.active && keys.active[scope] != []
    && keys.active[scope] in keys.private && keys.active[scope] in keys.metadata
    && var meta := keys.metadata[keys.active[scope]];
    && (meta.scope == scope || (meta.scope == Name("*") && keys.devMode))
  }

  /** An instant `Date` can write: within a hundred million days of the epoch. */
  predicate Writable(t: int) { -100_000_000 * 86_400_000 <= t <= 100_000_000 * 86_400_000 }

  /** Signing succeeds if and only if a key can sign and payload and dates can be written; the envelope holds
      what it was asked to sign, and its signature is the active key's, over the ten properties. */
  lemma SignedWhen(c: Platform, keys: Keys, scope: Text, tenantId: Text, payload: Json, ttlSeconds: int, now: int,
                   nonce: Text, random: nat)
    ensures var r := SignPayload(c, keys, scope, tenantId, payload, ttlSeconds, now, nonce, random);
      && (r.Ok? <==> CanSign(keys, scope) && !payload.Undefined? && Writable(now) && Writable(now + ttlSeconds * 1000))
      && (r.Ok? ==>
            && var hash := c.sha(CanonicalText(payload));
            && var covered := Covered(Name("ES256"), keys.active[scope], String(scope), String(scope), tenantId,
                                      c.iso(now), c.iso(now + ttlSeconds * 1000), nonce, hash, payload);
            && r.value == Envelope(Name("ES256"), keys.active[scope], Some(scope), Some(scope), tenantId, c.iso(now),
                                   c.iso(now + ttlSeconds * 1000), nonce, hash, payload,
                                   c.sign(keys.private[keys.active[scope]], CanonicalText(covered), random)))
  {
    hide CanonicalText, Name, KnownScope, SEVEN;
    ScopesAre(scope);
  }
}
