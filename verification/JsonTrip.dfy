/** Values sent over the wire: `JSON.parse(JSON.stringify(v))`. */
module JsonTrip {
  import opened CanonicalJson
  import opened JsonRoundTrip
  import opened JsonEquality

  /** No array holds `undefined`. */
  predicate Dense(v: Json) {
    match v
    case Array(items) => forall i :: 0 <= i < |items| ==> !items[i].Undefined? && Dense(items[i])
    case Object(fields) => forall i :: 0 <= i < |fields| ==> Dense(fields[i].value)
    case _ => true
  }

  /** What `JSON.parse` makes of the text `JSON.stringify` prints for `v`. */
  function Trip(v: Json): Json { Normal(v, Stringify) }

  lemma {:induction false} TripDefined(v: Json)
    ensures Trip(v).Undefined? <==> v.Undefined?
  {
  }

  /** The fields of a printed object, looked up by key. */
  lemma TripHas(fields: seq<Field>, k: Text)
    requires DistinctKeys(fields)
    ensures Has(Trip(Object(fields)).fields, k) <==> Has(fields, k)
    ensures Has(fields, k) ==>
      var r := Trip(Object(fields)).fields;
      r[IndexOf(r, k)].value == Trip(fields[IndexOf(fields, k)].value)
  {
    hide DefinedKeys, Normal;
    var keys := PrintedKeys(fields, Stringify);
    var r := NormalMembers(fields, keys, Stringify);
    assert Trip(Object(fields)).fields == r by { TripOfObject(fields); }
    if Has(r, k) {
      var i := IndexOf(r, k);
      assert r[i] == NormalMember(fields, keys[i], Stringify) && keys[i] in keys;
    }
    if Has(fields, k) {
      assert k in keys;
      var i :| 0 <= i < |keys| && keys[i] == k;
      TripDefined(fields[IndexOf(fields, k)].value);
      assert r[i] == NormalMember(fields, k, Stringify);
      assert Has(r, k);
      var j := IndexOf(r, k);
      assert r[j] == NormalMember(fields, keys[j], Stringify) && keys[j] in keys;
    }
  }

  lemma TripOfObject(fields: seq<Field>)
    ensures Trip(Object(fields)) == Object(NormalMembers(fields, PrintedKeys(fields, Stringify), Stringify))
  {
  }

  lemma {:induction false} TripWellFormed(v: Json)
    requires WellFormed(v)
    ensures WellFormed(Trip(v))
    decreases v
  {
    match v
    case Array(items) =>
      forall i | 0 <= i < |items| ensures WellFormed(NormalItem(items[i], Stringify)) {
        TripWellFormed(items[i]);
      }
    case Object(fields) =>
      var keys := PrintedKeys(fields, Stringify);
      forall i | 0 <= i < |keys| ensures WellFormed(NormalMember(fields, keys[i], Stringify).value) {
        assert keys[i] in keys;
        TripWellFormed(fields[IndexOf(fields, keys[i])].value);
      }
      DefinedKeysDistinct(fields);
    case _ =>
  }

  /** The trip changes nothing that canonical text can show, exactly when no array holds `undefined`. */
  lemma {:induction false} TripSame(v: Json)
    requires WellFormed(v)
    ensures Same(v, Trip(v)) <==> Dense(v)
    decreases v
  {
    match v
    case Array(items) =>
      forall i | 0 <= i < |items|
        ensures !items[i].Undefined? ==> (Same(items[i], Trip(items[i])) <==> Dense(items[i]))
        ensures items[i].Undefined? ==> !Same(items[i], Null)
      {
        TripSame(items[i]);
      }
      TripSameItems(items);
    case Object(fields) =>
      forall i | 0 <= i < |fields| ensures Same(fields[i].value, Trip(fields[i].value)) <==> Dense(fields[i].value) {
        TripSame(fields[i].value);
      }
      TripSameFields(fields);
    case _ =>
  }

  lemma TripSameItems(items: seq<Json>)
    requires forall i :: 0 <= i < |items| && !items[i].Undefined? ==>
      (Same(items[i], Trip(items[i])) <==> Dense(items[i]))
    requires forall i :: 0 <= i < |items| && items[i].Undefined? ==> !Same(items[i], Null)
    ensures Same(Array(items), Trip(Array(items))) <==> Dense(Array(items))
  {
    var r := NormalItems(items, Stringify);
    assert Trip(Array(items)) == Array(r);
    forall i | 0 <= i < |items| ensures !r[i].Undefined? {
      assert r[i] == NormalItem(items[i], Stringify);
      TripDefined(items[i]);
    }
    assert Blank(r) <==> items == [];
    forall i | 0 <= i < |items| ensures Same(items[i], r[i]) <==> (!items[i].Undefined? && Dense(items[i])) {
      assert r[i] == NormalItem(items[i], Stringify);
    }
  }

  ghost predicate DenseAt(fields: seq<Field>, k: Text)
    requires Has(fields, k)
  {
    Dense(fields[IndexOf(fields, k)].value)
  }

  lemma TripSameFields(fields: seq<Field>)
    requires DistinctKeys(fields)
    requires forall i :: 0 <= i < |fields| ==>
      (Same(fields[i].value, Trip(fields[i].value)) <==> Dense(fields[i].value))
    ensures Same(Object(fields), Trip(Object(fields))) <==> Dense(Object(fields))
  {
    hide Trip, Has, Dense, DistinctKeys;
    TripOfObject(fields);
    var r := Trip(Object(fields)).fields;
    forall k ensures Has(r, k) <==> Has(fields, k) {
      TripHas(fields, k);
    }
    forall k | Has(fields, k)
      ensures Same(fields[IndexOf(fields, k)].value, r[IndexOf(r, k)].value) <==> DenseAt(fields, k)
    {
      TripHas(fields, k);
    }
    DenseByKey(fields);
  }

  lemma DenseByKey(fields: seq<Field>)
    requires DistinctKeys(fields)
    ensures Dense(Object(fields)) <==> forall k :: Has(fields, k) ==> DenseAt(fields, k)
  {
    if forall k :: Has(fields, k) ==> DenseAt(fields, k) {
      forall i | 0 <= i < |fields| ensures Dense(fields[i].value) {
        if !fields[i].value.Undefined? { OwnIndex(fields, i); assert DenseAt(fields, fields[i].key); }
      }
    }
  }

  lemma OwnIndex(fields: seq<Field>, i: nat)
    requires DistinctKeys(fields) && i < |fields| && !fields[i].value.Undefined?
    ensures Has(fields, fields[i].key) && IndexOf(fields, fields[i].key) == i
  {
    assert Has(fields, fields[i].key);
    var j := IndexOf(fields, fields[i].key);
    assert fields[j].key == fields[i].key;
  }

  /** Parsing what was stringified succeeds, and the parsed value has the same canonical text, so the
      same hash and signature, exactly when no array holds `undefined`. */
  lemma StringifyTrip(v: Json)
    requires WellFormed(v) && !v.Undefined?
    ensures ReadValue(Print(v, Stringify)) == Got(Trip(v), [])
    ensures WellFormed(Trip(v))
    ensures CanonicalText(Trip(v)) == CanonicalText(v) <==> Dense(v)
  {
    hide ReadValue, Print, Same, Dense, Normal;
    PrintReads(v, Stringify, []);
    assert Print(v, Stringify) + [] == Print(v, Stringify);
    TripWellFormed(v);
    TripSame(v);
    CanonicalUnambiguous(v, Trip(v));
  }
}
