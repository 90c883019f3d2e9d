/** Envelopes on the wire: what a JSON trip keeps, and what a signature pins down. */
module SigningTrip {
  import opened Prelude
  import opened CanonicalJson
  import opened JsonEquality
  import opened JsonTrip
  import opened Signing

  // ---------- Objects with the same keys in the same order ----------

  /** A property read: `undefined` when there is none. */
  function Lookup(fields: seq<Field>, key: Text): Json {
    if Has(fields, key) then fields[IndexOf(fields, key)].value else Undefined
  }

  lemma LookupAt(fields: seq<Field>, i: nat)
    requires DistinctKeys(fields) && i < |fields|
    ensures Lookup(fields, fields[i].key) == fields[i].value
  {
    if Has(fields, fields[i].key) {
      var j := IndexOf(fields, fields[i].key);
      assert j == i;
    }
  }

  ghost predicate SameKeys(f: seq<Field>, g: seq<Field>) {
    |f| == |g| && DistinctKeys(f) && forall i :: 0 <= i < |f| ==> f[i].key == g[i].key
  }

  /** Such objects print alike exactly when they agree value by value. */
  lemma SameRecords(f: seq<Field>, g: seq<Field>)
    requires SameKeys(f, g)
    ensures Same(Object(f), Object(g)) <==> forall i :: 0 <= i < |f| ==> Same(f[i].value, g[i].value)
  {
    if Same(Object(f), Object(g)) {
      forall i | 0 <= i < |f| ensures Same(f[i].value, g[i].value) { SameRecordAt(f, g, i); }
    }
    if forall i :: 0 <= i < |f| ==> Same(f[i].value, g[i].value) { RecordsSame(f, g); }
  }

  lemma SameRecordAt(f: seq<Field>, g: seq<Field>, i: nat)
    requires SameKeys(f, g) && i < |f| && Same(Object(f), Object(g))
    ensures Same(f[i].value, g[i].value)
  {
    LookupAt(f, i);
    LookupAt(g, i);
    assert Has(f, f[i].key) <==> Has(g, f[i].key);
  }

  lemma RecordsSame(f: seq<Field>, g: seq<Field>)
    requires SameKeys(f, g) && forall i :: 0 <= i < |f| ==> Same(f[i].value, g[i].value)
    ensures Same(Object(f), Object(g))
  {
    forall k ensures Has(f, k) <==> Has(g, k) {
      if Has(f, k) { assert g[IndexOf(f, k)].key == k; }
      if Has(g, k) { assert f[IndexOf(g, k)].key == k; }
    }
    forall k | Has(f, k) ensures IndexOf(f, k) == IndexOf(g, k) {
      assert f[IndexOf(f, k)].key == f[IndexOf(g, k)].key;
    }
  }

  // ---------- The envelope as an object ----------

  function EnvelopeFields(e: Envelope): seq<Field> {
    UnsignedFields(e) + [Field(Name("signature"), String(e.signature))]
  }

  lemma EnvelopeNamesDiffer()
    ensures |Name("algorithm")| == |Name("expiresAt")| == |Name("signature")| == 9
    ensures |Name("keyId")| == |Name("scope")| == |Name("nonce")| == 5
    ensures |Name("payloadType")| == |Name("payloadHash")| == 11 && |Name("tenantId")| == |Name("issuedAt")| == 8
    ensures |Name("payload")| == 7
    ensures Name("algorithm")[0] == 0x61 && Name("expiresAt")[0] == 0x65 && Name("signature")[0] == 0x73
    ensures Name("keyId")[0] == 0x6B && Name("scope")[0] == 0x73 && Name("nonce")[0] == 0x6E
    ensures Name("payloadType")[7] == 0x54 && Name("payloadHash")[7] == 0x48
    ensures Name("tenantId")[0] == 0x74 && Name("issuedAt")[0] == 0x69
  {
  }

  lemma EnvelopeWellFormed(e: Envelope)
    requires WellFormed(e.payload)
    ensures DistinctKeys(EnvelopeFields(e)) && DistinctKeys(UnsignedFields(e))
    ensures WellFormed(Object(EnvelopeFields(e))) && WellFormed(Object(UnsignedFields(e)))
  {
    hide Name;
    EnvelopeNamesDiffer();
  }

  // ---------- Over the wire ----------

  function TextOf(v: Json): Text { if v.String? then v.s else [] }
  function OptionalText(v: Json): Option<Text> { if v.String? then Some(v.s) else None }

  /** The envelope read from a parsed object. */
  function Received(fields: seq<Field>): Envelope {
    Envelope(TextOf(Lookup(fields, Name("algorithm"))), TextOf(Lookup(fields, Name("keyId"))),
             OptionalText(Lookup(fields, Name("scope"))), OptionalText(Lookup(fields, Name("payloadType"))),
             TextOf(Lookup(fields, Name("tenantId"))), TextOf(Lookup(fields, Name("issuedAt"))),
             TextOf(Lookup(fields, Name("expiresAt"))), TextOf(Lookup(fields, Name("nonce"))),
             TextOf(Lookup(fields, Name("payloadHash"))), Lookup(fields, Name("payload")),
             TextOf(Lookup(fields, Name("signature"))))
  }

  lemma TripLookup(fields: seq<Field>, i: nat)
    requires DistinctKeys(fields) && i < |fields|
    ensures Lookup(Trip(Object(fields)).fields, fields[i].key) == Trip(fields[i].value)
  {
    hide Trip;
    TripHas(fields, fields[i].key);
    TripDefined(fields[i].value);
    LookupAt(fields, i);
    if !Has(fields, fields[i].key) { TripOfUndefined(); }
  }

  lemma TripOfUndefined()
    ensures Trip(Undefined) == Undefined
  {
  }

  lemma TripOfText(t: Text, o: Option<Text>)
    ensures Trip(String(t)) == String(t) && Trip(Optional(o)) == Optional(o)
    ensures TextOf(String(t)) == t && OptionalText(Optional(o)) == o
  {
  }

  /** Stringifying an envelope and parsing it back changes nothing but the payload. */
  lemma EnvelopeTrip(e: Envelope)
    requires WellFormed(e.payload)
    ensures ReadValue(Print(Object(EnvelopeFields(e)), Stringify)) == Got(Trip(Object(EnvelopeFields(e))), [])
    ensures Received(Trip(Object(EnvelopeFields(e))).fields) == e.(payload := Trip(e.payload))
  {
    hide ReadValue, Print, Name, Trip, Lookup, DistinctKeys, WellFormed, TextOf, OptionalText, Optional, CanonicalText,
      Dense;
    var f := EnvelopeFields(e);
    EnvelopeWellFormed(e);
    StringifyTrip(Object(f));
    TripLookup(f, 0); TripLookup(f, 1); TripLookup(f, 2); TripLookup(f, 3); TripLookup(f, 4); TripLookup(f, 5);
    TripLookup(f, 6); TripLookup(f, 7); TripLookup(f, 8); TripLookup(f, 9); TripLookup(f, 10);
    TripOfText(e.algorithm, e.scope); TripOfText(e.keyId, e.payloadType); TripOfText(e.tenantId, None);
    TripOfText(e.issuedAt, None); TripOfText(e.expiresAt, None); TripOfText(e.nonce, None);
    TripOfText(e.payloadHash, None); TripOfText(e.signature, None);
  }

  /** Replacing the payload by one that prints alike keeps the signed text. */
  lemma SignedTextOfPayload(e: Envelope, payload: Json)
    requires WellFormed(e.payload) && WellFormed(payload) && Same(e.payload, payload)
    ensures SignedText(e.(payload := payload)) == SignedText(e)
  {
    hide CanonicalText, Name, WellFormed, DistinctKeys, Same;
    var r := e.(payload := payload);
    EnvelopeWellFormed(e);
    EnvelopeWellFormed(r);
    var f, g := UnsignedFields(e), UnsignedFields(r);
    forall i | 0 <= i < |f| ensures Same(f[i].value, g[i].value) {
      if i != 9 { SameText(f[i].value); }
    }
    SameRecords(f, g);
    CanonicalUnambiguous(Object(f), Object(g));
  }

  lemma SameText(v: Json)
    requires v.String? || v.Undefined?
    ensures Same(v, v)
  {
  }

  /** A signed envelope that went over the wire is accepted before it expires exactly when no array of
      its payload holds `undefined`; otherwise its payload no longer has the signed hash. */
  lemma SignTripVerify(c: Platform, keys: Keys, production: bool, scope: Text, tenantId: Text, payload: Json, ttl: int,
                       now: int, nonce: Text, random: nat, e: Envelope, t: int)
    requires Ideal(c) && Usable(keys, production) && KeyServes(c, keys, scope, tenantId) && WellFormed(payload)
    requires SignPayload(c, keys, scope, tenantId, payload, ttl, now, nonce, random) == Ok(e)
    ensures VerifyEnvelope(c, keys, production, Received(Trip(Object(EnvelopeFields(e))).fields), Some(scope),
                           Some(tenantId), t) ==
            if t >= now + ttl * 1000 then
              Err(Expired)
            else if Dense(payload) then Ok(Trip(payload)) else Err(HashMismatch)
  {
    hide SignPayload, SignedText, Usable, KeyServes, Name, KnownScope, ResolvePublicKey, Trip, Dense, CanonicalText,
      WellFormed, Received, Print, ReadValue;
    SignedFacts(c, keys, production, scope, tenantId, payload, ttl, now, nonce, random, e);
    EnvelopeTrip(e);
    StringifyTrip(payload);
    TripDefined(payload);
    TripSame(payload);
    if Dense(payload) { SignedTextOfPayload(e, Trip(payload)); }
  }

  // ---------- What a signature pins down ----------

  lemma SameTexts(v: Json, w: Json)
    requires (v.String? || v.Undefined?) && (w.String? || w.Undefined?) && Same(v, w)
    ensures v == w
  {
  }

  /** Whatever else was changed on the way, an accepted envelope with the key and signature of a signed
      one carries the signed fields, and a payload equal up to property order and `undefined` properties. */
  lemma AcceptedIsAsSigned(c: Platform, keys: Keys, production: bool, scope: Text, tenantId: Text, payload: Json,
                           ttl: int,
                           now: int, nonce: Text, random: nat, e: Envelope, r: Envelope,
                           expectedScope: Option<Text>, expectedTenant: Option<Text>, t: int)
    requires Ideal(c) && Usable(keys, production) && KeyServes(c, keys, scope, tenantId)
    requires SignPayload(c, keys, scope, tenantId, payload, ttl, now, nonce, random) == Ok(e)
    requires WellFormed(payload) && WellFormed(r.payload) && r.keyId == e.keyId && r.signature == e.signature
    requires VerifyEnvelope(c, keys, production, r, expectedScope, expectedTenant, t).Ok?
    ensures r == e.(payload := r.payload) && Same(r.payload, payload)
  {
    hide SignPayload, SignedText, Usable, KeyServes, Name, KnownScope, CheckMetadata, WellFormed, CanonicalText, Same,
      UnsignedFields;
    SignedFacts(c, keys, production, scope, tenantId, payload, ttl, now, nonce, random, e);
    SignedTextFixes(r, e);
  }

  /** Envelopes with the same signed text differ at most in how their payloads are written. */
  lemma SignedTextFixes(r: Envelope, e: Envelope)
    requires WellFormed(e.payload) && WellFormed(r.payload) && r.signature == e.signature
    ensures SignedText(r) == SignedText(e) ==> r == e.(payload := r.payload) && Same(r.payload, e.payload)
  {
    hide CanonicalText, Name, WellFormed, DistinctKeys, Same;
    EnvelopeWellFormed(e);
    EnvelopeWellFormed(r);
    var f, g := UnsignedFields(r), UnsignedFields(e);
    CanonicalUnambiguous(Object(f), Object(g));
    SameRecords(f, g);
    if SignedText(r) == SignedText(e) {
      assert Same(f[9].value, g[9].value);
      forall i | 0 <= i < 9 ensures f[i].value == g[i].value { SameTexts(f[i].value, g[i].value); }
      SameUnsigned(r, e);
    }
  }

  lemma SameUnsigned(r: Envelope, e: Envelope)
    requires forall i :: 0 <= i < 9 ==> UnsignedFields(r)[i].value == UnsignedFields(e)[i].value
    requires r.signature == e.signature
    ensures r == e.(payload := r.payload)
  {
    hide Name;
    var f, g := UnsignedFields(r), UnsignedFields(e);
    assert f[0].value == g[0].value && f[1].value == g[1].value && f[2].value == g[2].value && f[3].value == g[3].value;
    assert f[4].value == g[4].value && f[5].value == g[5].value && f[6].value == g[6].value && f[7].value == g[7].value;
    assert f[8].value == g[8].value;
  }
}
