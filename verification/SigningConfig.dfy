/** Loading and validating the scoped signing configuration. */
module SigningConfig {
  import opened Prelude
  import opened CanonicalJson
  import opened Signing
  import SigningRules

  /** A metadata entry as parsed: its members may be missing. */
  datatype RawMetadata =
    | NotAnObject
    | Candidate(keyId: Option<Text>, scope: Option<Text>, status: Option<Text>, publicKeyPem: Option<Text>,
                issuedAt: Option<Text>,
                retirementDeadline: Option<Text>, isDev: bool, algorithm: Option<Text>,
                allowedTenants: Option<seq<Text>>)

  /** A present member that is not the empty string. */
  predicate Given(t: Option<Text>) { t.Some? && t.value != [] }

  function ReadStatus(t: Text): Option<Status> {
    if t == Name("active") then Some(Active)
    else if t == Name("trusted") then Some(Trusted)
    else if t == Name("retired") then Some(Retired)
    else if t == Name("revoked") then Some(Revoked)
    else None
  }

  /** `normalizeMetadata`. */
  function Normalize(c: Platform, keyId: Text, raw: RawMetadata): Result<KeyMetadata, Error> {
    if raw.NotAnObject? then Err(BadMetadata)
    else if Given(raw.keyId) && raw.keyId.value != keyId then Err(BadMetadata)
    else if !Given(raw.scope) || !KnownScope(raw.scope.value) then Err(UnknownScope)
    else if !Given(raw.status) || ReadStatus(raw.status.value).None? then Err(BadMetadata)
    else if !Given(raw.publicKeyPem) then Err(BadMetadata)
    else if !Given(raw.issuedAt) || c.parseDate(raw.issuedAt.value).None? then Err(BadTimestamps)
    else if Given(raw.algorithm) && raw.algorithm.value != ES256 then Err(BadAlgorithm)
    else
      Ok(KeyMetadata(keyId, raw.scope.value, ReadStatus(raw.status.value).value, raw.publicKeyPem.value,
                     raw.issuedAt.value,
                     raw.retirementDeadline, raw.isDev, ES256, raw.allowedTenants))
  }

  /** White space and line terminators, as `trim` removes them. */
  predicate IsSpace(u: CodeUnit) {
    || 0x09 <= u <= 0x0D || u == 0x20 || u == 0xA0 || u == 0x1680 || 0x2000 <= u <= 0x200A
    || u == 0x2028 || u == 0x2029 || u == 0x202F || u == 0x205F || u == 0x3000 || u == 0xFEFF
  }

  predicate BlankText(t: Text) { forall i :: 0 <= i < |t| ==> IsSpace(t[i]) }

  // ---------- What one entry becomes ----------

  /** The four statuses there are. */
  predicate StatusReads(t: Option<Text>, status: Status) {
    match status
    case Active => t == Some(Name("active"))
    case Trusted => t == Some(Name("trusted"))
    case Retired => t == Some(Name("retired"))
    case Revoked => t == Some(Name("revoked"))
  }

  predicate Present(t: Option<Text>) { t.Some? && |t.value| > 0 }

  /** Missing, or empty, or just this. */
  predicate MissingOr(t: Option<Text>, s: Text) { t.None? || |t.value| == 0 || t.value == s }

  /** The entry is complete and well named, and the metadata is what it says. */
  predicate EntryReads(c: Platform, keyId: Text, raw: RawMetadata, meta: KeyMetadata) {
    && raw.Candidate? && MissingOr(raw.keyId, keyId) && meta.keyId == keyId
    && raw.scope == Some(meta.scope) && meta.scope in SigningRules.SEVEN
    && StatusReads(raw.status, meta.status)
    && Present(raw.publicKeyPem) && meta.publicKeyPem == raw.publicKeyPem.value
    && Present(raw.issuedAt) && c.parseDate(raw.issuedAt.value).Some? && meta.issuedAt == raw.issuedAt.value
    && MissingOr(raw.algorithm, Name("ES256")) && meta.algorithm == Name("ES256")
    && meta.retirementDeadline == raw.retirementDeadline && meta.allowedTenants == raw.allowedTenants
    && (meta.isDev <==> raw.isDev)
  }

  lemma StatusMeans(t: Text, status: Status)
    ensures ReadStatus(t) == Some(status) <==> StatusReads(Some(t), status)
    ensures StatusReads(Some(t), status) ==> t != []
  {
    assert |Name("active")| == 6 && |Name("trusted")| == |Name("retired")| == |Name("revoked")| == 7;
    assert Name("trusted")[0] == 0x74 && Name("retired")[2] == 0x74 && Name("revoked")[2] == 0x76;
    assert Name("retired")[0] == 0x72 && Name("revoked")[0] == 0x72;
  }

  /** An entry is taken exactly when it is complete and well named, and then as it stands. */
  lemma NormalizeMeans(c: Platform, keyId: Text, raw: RawMetadata, meta: KeyMetadata)
    ensures Normalize(c, keyId, raw) == Ok(meta) <==> EntryReads(c, keyId, raw, meta)
  {
    hide KnownScope, Name, SigningRules.SEVEN, ReadStatus, StatusReads;
    if raw.Candidate? {
      if raw.scope.Some? { SigningRules.ScopesAre(raw.scope.value); }
      if raw.status.Some? { StatusMeans(raw.status.value, meta.status); }
      NoStatus(meta.status);
    }
  }

  lemma NoStatus(status: Status)
    ensures !StatusReads(None, status)
  {
  }

  /** The characters `trim` removes. */
  lemma SpacesAre(u: CodeUnit)
    ensures IsSpace(u) <==> u in [
      0x09, 0x0A, 0x0B, 0x0C, 0x0D, 0x20, 0xA0, 0x1680, 0x2000, 0x2001, 0x2002, 0x2003, 0x2004, 0x2005, 0x2006, 0x2007,
      0x2008, 0x2009, 0x200A, 0x2028, 0x2029, 0x202F, 0x205F, 0x3000, 0xFEFF]
  {
  }

  // ---------- What is accepted ----------

  /** `Object.entries` of a parsed object: no key twice. A value that is not a string is `None`. */
  predicate DistinctEntries<T>(entries: seq<(Text, T)>) {
    forall i, j :: 0 <= i < j < |entries| ==> entries[i].0 != entries[j].0
  }

  predicate PrivateLoads(c: Platform, entry: (Text, Option<Text>)) {
    entry.1.Some? && c.readPrivate(entry.1.value).Some?
  }

  predicate MetadataLoads(c: Platform, entry: (Text, RawMetadata)) {
    && Normalize(c, entry.0, entry.1).Ok?
    && c.readPublic(Normalize(c, entry.0, entry.1).value.publicKeyPem).Some?
  }

  predicate ActiveLoads(entry: (Text, Option<Text>)) {
    KnownScope(entry.0) && entry.1.Some? && !BlankText(entry.1.value)
  }

  /** Entry `a` names the active key of `scope`, and metadata entry `m` and private key `p` are that key's. */
  predicate Backs(c: Platform, production: bool, scope: Text, a: (Text, Option<Text>), m: (Text, RawMetadata),
                  p: (Text, Option<Text>)) {
    && a.0 == scope && a.1 == Some(m.0) && p.0 == m.0
    && m.1.Candidate? && m.1.scope == Some(scope) && m.1.status == Some(Name("active"))
    && !(production && m.1.isDev)
  }

  /** Every entry can be read, and every scope has an active key of its own. Nothing is said of two scopes
      sharing a key, of wildcards or of the algorithm: these follow. */
  ghost predicate Acceptable(c: Platform, production: bool, activeKeys: seq<(Text, Option<Text>)>,
                             privateKeys: seq<(Text, Option<Text>)>, metadata: seq<(Text, RawMetadata)>)
  {
    && (forall i :: 0 <= i < |privateKeys| ==> PrivateLoads(c, privateKeys[i]))
    && (forall i :: 0 <= i < |metadata| ==> MetadataLoads(c, metadata[i]))
    && (forall i :: 0 <= i < |activeKeys| ==> ActiveLoads(activeKeys[i]))
    && (forall s :: KnownScope(s) ==>
          exists i, j, k :: 0 <= i < |activeKeys| && 0 <= j < |metadata| && 0 <= k < |privateKeys|
                            && Backs(c, production, s, activeKeys[i], metadata[j], privateKeys[k]))
  }

  // ---------- Two scopes never share a key ----------

  lemma {:induction false} InjectiveSizes(m: map<Text, Text>)
    requires forall s, t :: s in m && t in m && m[s] == m[t] ==> s == t
    ensures |m.Values| == |m|
  {
    if m != map[] {
      var s :| s in m;
      var rest := m - {s};
      assert m.Values == rest.Values + {m[s]} by {
        forall v | v in m.Values ensures v in rest.Values + {m[s]} {
          var t :| t in m && m[t] == v;
          if t != s { assert t in rest && rest[t] == v; }
        }
      }
      assert m[s] !in rest.Values;
      assert m == rest[s := m[s]];
      InjectiveSizes(rest);
    }
  }

  /** So the test for a key active in two scopes never rejects a configuration the other tests accept. */
  lemma DuplicateTestIsRedundant(keys: Keys, production: bool)
    requires forall s :: s in keys.active ==> KnownScope(s)
    requires forall s :: KnownScope(s) ==> ServesScope(keys, production, s)
    ensures |keys.active.Values| == |keys.active|
  {
    hide KnownScope;
    InjectiveSizes(keys.active);
  }

  // ---------- The service ----------

  class SigningService {
    var activeKeyIdsByScope: map<Text, Text>
    var privateKeysByKeyId: map<Text, PrivateKey>
    var keyMetadata: map<Text, KeyMetadata>
    var trustedPublicKeys: map<Text, PublicKey>
    var developmentCompatibilityMode: bool

    function Keys(): Keys
      reads this
    {
      Signing.Keys(activeKeyIdsByScope, privateKeysByKeyId, keyMetadata, trustedPublicKeys,
                   developmentCompatibilityMode)
    }

    constructor ()
      ensures Keys() == Signing.Keys(map[], map[], map[], map[], false)
    {
      activeKeyIdsByScope, privateKeysByKeyId, keyMetadata, trustedPublicKeys := map[], map[], map[], map[];
      developmentCompatibilityMode := false;
    }

    method LoadPrivateKeys(c: Platform, privateKeys: seq<(Text, Option<Text>)>) returns (ok: bool)
      requires DistinctEntries(privateKeys) && privateKeysByKeyId == map[]
      modifies this`privateKeysByKeyId
      ensures ok <==> forall i :: 0 <= i < |privateKeys| ==> PrivateLoads(c, privateKeys[i])
      ensures ok ==> PrivateLoaded(c, privateKeys, |privateKeys|, privateKeysByKeyId)
    {
      for i := 0 to |privateKeys|
        invariant forall j :: 0 <= j < i ==> PrivateLoads(c, privateKeys[j])
        invariant PrivateLoaded(c, privateKeys, i, privateKeysByKeyId)
      {
        var (keyId, raw) := privateKeys[i];
        if raw.None? { return false; }
        var key := c.readPrivate(raw.value);
        if key.None? { return false; }
        privateKeysByKeyId := privateKeysByKeyId[keyId := key.value];
      }
      ok := true;
    }

    method LoadMetadata(c: Platform, metadata: seq<(Text, RawMetadata)>) returns (ok: bool)
      requires DistinctEntries(metadata) && keyMetadata == map[] && trustedPublicKeys == map[]
      modifies this`keyMetadata, this`trustedPublicKeys
      ensures ok <==> forall i :: 0 <= i < |metadata| ==> MetadataLoads(c, metadata[i])
      ensures ok ==> MetadataLoaded(c, metadata, |metadata|, keyMetadata, trustedPublicKeys)
    {
      hide Normalize, MetadataLoaded, DistinctEntries;
      MetadataLoadedNone(c, metadata);
      for i := 0 to |metadata|
        invariant forall j :: 0 <= j < i ==> MetadataLoads(c, metadata[j])
        invariant MetadataLoaded(c, metadata, i, keyMetadata, trustedPublicKeys)
      {
        ghost var m, trusted := keyMetadata, trustedPublicKeys;
        var (keyId, raw) := metadata[i];
        var meta := Normalize(c, keyId, raw);
        if meta.Err? { return false; }
        keyMetadata := keyMetadata[keyId := meta.value];
        var key := c.readPublic(meta.value.publicKeyPem);
        if key.None? { return false; }
        trustedPublicKeys := trustedPublicKeys[keyId := key.value];
        MetadataLoadedNext(c, metadata, i, m, trusted, meta.value, key.value);
      }
      ok := true;
    }

    method LoadActiveKeys(activeKeys: seq<(Text, Option<Text>)>) returns (ok: bool)
      requires DistinctEntries(activeKeys) && activeKeyIdsByScope == map[]
      modifies this`activeKeyIdsByScope
      ensures ok <==> forall i :: 0 <= i < |activeKeys| ==> ActiveLoads(activeKeys[i])
      ensures ok ==> ActiveLoaded(activeKeys, |activeKeys|, activeKeyIdsByScope)
    {
      hide KnownScope, BlankText;
      for i := 0 to |activeKeys|
        invariant forall j :: 0 <= j < i ==> ActiveLoads(activeKeys[j])
        invariant ActiveLoaded(activeKeys, i, activeKeyIdsByScope)
      {
        var (scope, keyId) := activeKeys[i];
        if !KnownScope(scope) { return false; }
        if keyId.None? || BlankText(keyId.value) { return false; }
        activeKeyIdsByScope := activeKeyIdsByScope[scope := keyId.value];
      }
      ok := true;
    }

    /** `validateScopedConfiguration`, after the three loads. */
    method ValidateScopedConfiguration(production: bool) returns (ok: bool)
      requires forall s :: s in activeKeyIdsByScope ==> KnownScope(s) && activeKeyIdsByScope[s] != []
      requires forall k :: k in keyMetadata ==> KnownScope(keyMetadata[k].scope) && keyMetadata[k].algorithm == ES256
      requires keyMetadata.Keys == trustedPublicKeys.Keys
      ensures ok <==> forall s :: KnownScope(s) ==> ServesScope(Keys(), production, s)
    {
      hide Name;
      if production && |activeKeyIdsByScope.Values| != |activeKeyIdsByScope| {
        if forall s :: KnownScope(s) ==> ServesScope(Keys(), production, s) {
          DuplicateTestIsRedundant(Keys(), production);
        }
        return false;
      }
      WildcardIsNoScope();
      for i := 0 to |SCOPES|
        invariant forall j :: 0 <= j < i ==> ServesScope(Keys(), production, SCOPES[j])
      {
        var scope := SCOPES[i];
        assert KnownScope(scope);
        if scope !in activeKeyIdsByScope { return false; }
        var keyId := activeKeyIdsByScope[scope];
        if keyId !in keyMetadata { return false; }
        var meta := keyMetadata[keyId];
        if meta.scope == WILDCARD || meta.scope != scope || meta.status != Active { return false; }
        if keyId !in privateKeysByKeyId { return false; }
        if production && meta.isDev { return false; }
      }
      var todo := keyMetadata.Keys;
      while todo != {}
        invariant todo <= keyMetadata.Keys
        decreases |todo|
      {
        var keyId :| keyId in todo;
        todo := todo - {keyId};
        var meta := keyMetadata[keyId];
        if meta.scope != WILDCARD {
          if !KnownScope(meta.scope) { return false; }
          if meta.algorithm != ES256 { return false; }
        } else {
          if production { return false; }
        }
      }
      ok := true;
    }

    /** `initialiseScopedSigner`: it returns exactly for an acceptable configuration, and the service can
        then sign for every scope. */
    method InitialiseScopedSigner(c: Platform, production: bool, activeKeys: seq<(Text, Option<Text>)>,
                                  privateKeys: seq<(Text, Option<Text>)>,
                                  metadata: seq<(Text, RawMetadata)>) returns (ok: bool)
      requires DistinctEntries(activeKeys) && DistinctEntries(privateKeys) && DistinctEntries(metadata)
      modifies this
      ensures ok <==> Acceptable(c, production, activeKeys, privateKeys, metadata)
      ensures developmentCompatibilityMode == old(developmentCompatibilityMode)
      ensures ok && !developmentCompatibilityMode ==> Usable(Keys(), production)
      ensures ok ==> Loaded(c, activeKeys, privateKeys, metadata, Keys())
    {
      hide PrivateLoaded, MetadataLoaded, ActiveLoaded, ServesScope, Acceptable, Usable, KnownScope, PrivateLoads,
        MetadataLoads, ActiveLoads;
      activeKeyIdsByScope, privateKeysByKeyId, keyMetadata, trustedPublicKeys := map[], map[], map[], map[];
      ok := LoadPrivateKeys(c, privateKeys);
      if !ok { NotAcceptable(c, production, activeKeys, privateKeys, metadata); return; }
      ok := LoadMetadata(c, metadata);
      if !ok { NotAcceptable(c, production, activeKeys, privateKeys, metadata); return; }
      ok := LoadActiveKeys(activeKeys);
      if !ok { NotAcceptable(c, production, activeKeys, privateKeys, metadata); return; }
      LoadedKeysKnown(c, activeKeys, privateKeys, metadata, Keys());
      AcceptableIffServed(c, production, activeKeys, privateKeys, metadata, Keys());
      ok := ValidateScopedConfiguration(production);
      if ok { ServedIsUsable(Keys(), production); }
    }
  }

  // ---------- What the loops build ----------

  predicate PrivateLoaded(c: Platform, entries: seq<(Text, Option<Text>)>, n: nat, m: map<Text, PrivateKey>)
    requires n <= |entries|
  {
    && (forall i :: 0 <= i < n ==>
      entries[i].0 in m && entries[i].1.Some? && Some(m[entries[i].0]) == c.readPrivate(entries[i].1.value))
    && (forall k :: k in m ==> exists i :: 0 <= i < n && entries[i].0 == k)
  }

  predicate MetadataLoaded(c: Platform, entries: seq<(Text, RawMetadata)>, n: nat, m: map<Text, KeyMetadata>,
                           trusted: map<Text, PublicKey>)
    requires n <= |entries|
  {
    && (forall i :: 0 <= i < n ==> MetadataAt(c, entries[i], m, trusted))
    && (forall k :: k in m ==> exists i :: 0 <= i < n && entries[i].0 == k)
    && m.Keys == trusted.Keys
  }

  lemma MetadataLoadedNone(c: Platform, entries: seq<(Text, RawMetadata)>)
    ensures MetadataLoaded(c, entries, 0, map[], map[])
  {
  }

  lemma MetadataLoadedNext(c: Platform, entries: seq<(Text, RawMetadata)>, n: nat, m: map<Text, KeyMetadata>,
                           trusted: map<Text, PublicKey>,
                           meta: KeyMetadata, key: PublicKey)
    requires n < |entries| && DistinctEntries(entries) && MetadataLoaded(c, entries, n, m, trusted)
    requires Normalize(c, entries[n].0, entries[n].1) == Ok(meta) && c.readPublic(meta.publicKeyPem) == Some(key)
    ensures MetadataLoaded(c, entries, n + 1, m[entries[n].0 := meta], trusted[entries[n].0 := key])
  {
    hide Normalize;
  }

  predicate MetadataAt(c: Platform, entry: (Text, RawMetadata), m: map<Text, KeyMetadata>,
                       trusted: map<Text, PublicKey>) {
    && entry.0 in m && entry.0 in trusted
    && Normalize(c, entry.0, entry.1) == Ok(m[entry.0])
    && c.readPublic(m[entry.0].publicKeyPem) == Some(trusted[entry.0])
  }

  predicate ActiveLoaded(entries: seq<(Text, Option<Text>)>, n: nat, m: map<Text, Text>)
    requires n <= |entries|
  {
    && (forall i :: 0 <= i < n ==> entries[i].0 in m && entries[i].1 == Some(m[entries[i].0]))
    && (forall k :: k in m ==> exists i :: 0 <= i < n && entries[i].0 == k)
  }

  /** The maps hold what the entries say, and nothing else. */
  predicate Loaded(c: Platform, activeKeys: seq<(Text, Option<Text>)>, privateKeys: seq<(Text, Option<Text>)>,
                   metadata: seq<(Text, RawMetadata)>, keys: Keys)
  {
    && PrivateLoaded(c, privateKeys, |privateKeys|, keys.private)
    && MetadataLoaded(c, metadata, |metadata|, keys.metadata, keys.trusted)
    && ActiveLoaded(activeKeys, |activeKeys|, keys.active)
  }

  lemma NotAcceptable(c: Platform, production: bool, activeKeys: seq<(Text, Option<Text>)>,
                      privateKeys: seq<(Text, Option<Text>)>, metadata: seq<(Text, RawMetadata)>)
    requires
      || !(forall i :: 0 <= i < |privateKeys| ==> PrivateLoads(c, privateKeys[i]))
      || !(forall i :: 0 <= i < |metadata| ==> MetadataLoads(c, metadata[i]))
      || !(forall i :: 0 <= i < |activeKeys| ==> ActiveLoads(activeKeys[i]))
    ensures !Acceptable(c, production, activeKeys, privateKeys, metadata)
  {
    hide PrivateLoads, MetadataLoads, ActiveLoads, Backs;
  }

  lemma LoadedKeysKnown(c: Platform, activeKeys: seq<(Text, Option<Text>)>, privateKeys: seq<(Text, Option<Text>)>,
                        metadata: seq<(Text, RawMetadata)>, keys: Keys)
    requires Loaded(c, activeKeys, privateKeys, metadata, keys)
    requires forall i :: 0 <= i < |activeKeys| ==> ActiveLoads(activeKeys[i])
    ensures forall s :: s in keys.active ==> KnownScope(s) && keys.active[s] != []
    ensures forall k :: k in keys.metadata ==> KnownScope(keys.metadata[k].scope) && keys.metadata[k].algorithm == ES256
    ensures keys.metadata.Keys == keys.trusted.Keys
  {
    hide KnownScope, Name, PrivateLoaded;
    forall k | k in keys.metadata ensures KnownScope(keys.metadata[k].scope) && keys.metadata[k].algorithm == ES256 {
      var i :| 0 <= i < |metadata| && metadata[i].0 == k;
      assert MetadataAt(c, metadata[i], keys.metadata, keys.trusted);
    }
    forall s | s in keys.active ensures KnownScope(s) && keys.active[s] != [] {
      var i :| 0 <= i < |activeKeys| && activeKeys[i].0 == s;
      assert ActiveLoads(activeKeys[i]);
    }
  }

  lemma AcceptableIffServed(c: Platform, production: bool, activeKeys: seq<(Text, Option<Text>)>,
                            privateKeys: seq<(Text, Option<Text>)>, metadata: seq<(Text, RawMetadata)>, keys: Keys)
    requires Loaded(c, activeKeys, privateKeys, metadata, keys)
    requires forall i :: 0 <= i < |privateKeys| ==> PrivateLoads(c, privateKeys[i])
    requires forall i :: 0 <= i < |metadata| ==> MetadataLoads(c, metadata[i])
    requires forall i :: 0 <= i < |activeKeys| ==> ActiveLoads(activeKeys[i])
    ensures Acceptable(c, production, activeKeys, privateKeys, metadata) <==>
      forall s :: KnownScope(s) ==> ServesScope(keys, production, s)
  {
    hide KnownScope, Loaded, PrivateLoads, MetadataLoads, ActiveLoads, Backs, ServesScope;
    if Acceptable(c, production, activeKeys, privateKeys, metadata) {
      forall s | KnownScope(s) ensures ServesScope(keys, production, s) {
        var i, j, k :| 0 <= i < |activeKeys| && 0 <= j < |metadata| && 0 <= k < |privateKeys|
                       && Backs(c, production, s, activeKeys[i], metadata[j], privateKeys[k]);
        BackedIsServed(c, production, activeKeys, privateKeys, metadata, keys, s, i, j, k);
      }
    }
    if forall s :: KnownScope(s) ==> ServesScope(keys, production, s) {
      forall s | KnownScope(s)
        ensures exists i, j, k :: 0 <= i < |activeKeys| && 0 <= j < |metadata| && 0 <= k < |privateKeys|
                                  && Backs(c, production, s, activeKeys[i], metadata[j], privateKeys[k])
      {
        var i, j, k := ServedIsBacked(c, production, activeKeys, privateKeys, metadata, keys, s);
      }
    }
  }

  lemma BackedIsServed(c: Platform, production: bool, activeKeys: seq<(Text, Option<Text>)>,
                       privateKeys: seq<(Text, Option<Text>)>, metadata: seq<(Text, RawMetadata)>, keys: Keys, s: Text,
                       i: nat, j: nat, k: nat)
    requires Loaded(c, activeKeys, privateKeys, metadata, keys)
    requires i < |activeKeys| && j < |metadata| && k < |privateKeys| && ActiveLoads(activeKeys[i])
    requires Backs(c, production, s, activeKeys[i], metadata[j], privateKeys[k])
    ensures ServesScope(keys, production, s)
  {
    hide KnownScope, Name;
    assert MetadataAt(c, metadata[j], keys.metadata, keys.trusted);
  }

  lemma ServedIsBacked(c: Platform, production: bool, activeKeys: seq<(Text, Option<Text>)>,
                       privateKeys: seq<(Text, Option<Text>)>, metadata: seq<(Text, RawMetadata)>, keys: Keys, s: Text)
    returns (i: nat, j: nat, k: nat)
    requires Loaded(c, activeKeys, privateKeys, metadata, keys) && ServesScope(keys, production, s)
    ensures i < |activeKeys| && j < |metadata| && k < |privateKeys|
    ensures Backs(c, production, s, activeKeys[i], metadata[j], privateKeys[k])
  {
    hide KnownScope, Name, PrivateLoaded, MetadataLoaded, ActiveLoaded, ReadStatus, Normalize;
    i := ActiveEntry(activeKeys, keys.active, s);
    j := MetadataEntry(c, metadata, keys.metadata, keys.trusted, keys.active[s]);
    k := PrivateEntry(c, privateKeys, keys.private, keys.active[s]);
    NormalizedBacks(c, metadata[j].0, metadata[j].1);
  }

  lemma ActiveEntry(entries: seq<(Text, Option<Text>)>, m: map<Text, Text>, s: Text) returns (i: nat)
    requires ActiveLoaded(entries, |entries|, m) && s in m
    ensures i < |entries| && entries[i].0 == s && entries[i].1 == Some(m[s])
  {
    i :| 0 <= i < |entries| && entries[i].0 == s;
  }

  lemma MetadataEntry(c: Platform, entries: seq<(Text, RawMetadata)>, m: map<Text, KeyMetadata>,
                      trusted: map<Text, PublicKey>, k: Text)
    returns (j: nat)
    requires MetadataLoaded(c, entries, |entries|, m, trusted) && k in m
    ensures j < |entries| && entries[j].0 == k && Normalize(c, k, entries[j].1) == Ok(m[k])
  {
    hide Normalize;
    j :| 0 <= j < |entries| && entries[j].0 == k;
    assert MetadataAt(c, entries[j], m, trusted);
  }

  lemma PrivateEntry(c: Platform, entries: seq<(Text, Option<Text>)>, m: map<Text, PrivateKey>, k: Text)
    returns (i: nat)
    requires PrivateLoaded(c, entries, |entries|, m) && k in m
    ensures i < |entries| && entries[i].0 == k
  {
    i :| 0 <= i < |entries| && entries[i].0 == k;
  }

  /** Normalising copies scope, status and development mark. */
  lemma NormalizedBacks(c: Platform, keyId: Text, raw: RawMetadata)
    ensures Normalize(c, keyId, raw).Ok? ==>
      var meta := Normalize(c, keyId, raw).value;
      && raw.Candidate? && raw.scope == Some(meta.scope) && raw.isDev == meta.isDev
      && (meta.status == Active ==> raw.status == Some(Name("active")))
  {
    hide KnownScope, Name;
  }

  lemma ServedIsUsable(keys: Keys, production: bool)
    requires forall s :: KnownScope(s) ==> ServesScope(keys, production, s)
    requires forall s :: s in keys.active ==> KnownScope(s)
    requires forall k :: k in keys.metadata ==>
      KnownScope(keys.metadata[k].scope) && keys.metadata[k].algorithm == ES256
    ensures !keys.devMode ==> Usable(keys, production)
  {
    hide KnownScope, ServesScope;
  }
}
