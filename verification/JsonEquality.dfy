/** When two values print alike: the canonical text decides a value up to property order,
    `undefined` properties and the few values JSON has no text for. */
module JsonEquality {
  import opened CanonicalJson
  import opened JsonRoundTrip

  /** `join` cannot tell an array holding one `undefined` from an empty one. */
  predicate Blank(items: seq<Json>) { items == [] || items == [Undefined] }

  /** JSON text shows a number that is not finite as null and -0 as 0. */
  function Scalar(v: Json): Json {
    match v
    case NonFinite => Null
    case NegativeZero => Number(ZERO_TEXT)
    case _ => v
  }

  /** Equality that ignores property order and properties set to `undefined`. It does not mention
      sorting or text. */
  ghost predicate Same(a: Json, b: Json)
    decreases a
  {
    if a.Array? && b.Array? then
      || (Blank(a.items) && Blank(b.items))
      || (|a.items| == |b.items| && forall i :: 0 <= i < |a.items| ==> Same(a.items[i], b.items[i]))
    else if a.Object? && b.Object? then
      && (forall k :: Has(a.fields, k) <==> Has(b.fields, k))
      && (forall k :: Has(a.fields, k) ==>
            Same(a.fields[IndexOf(a.fields, k)].value, b.fields[IndexOf(b.fields, k)].value))
    else !a.Array? && !b.Array? && !a.Object? && !b.Object? && Scalar(a) == Scalar(b)
  }

  predicate Distinct(keys: seq<Text>) {
    forall i, j :: 0 <= i < j < |keys| ==> keys[i] != keys[j]
  }

  // ---------- The key order is a strict total order ----------

  lemma {:induction false} LessTotal(a: Text, b: Text)
    ensures Less(a, b) || Less(b, a) || a == b
    ensures !(Less(a, b) && Less(b, a))
    ensures !Less(a, a)
  {
    if a != [] && b != [] && a[0] == b[0] {
      LessTotal(a[1..], b[1..]);
      assert a == [a[0]] + a[1..] && b == [b[0]] + b[1..];
    }
    if a == [] {
    } else {
      LessIrreflexive(a);
    }
  }

  lemma {:induction false} LessIrreflexive(a: Text)
    ensures !Less(a, a)
  {
    if a == [] {
    } else {
      LessIrreflexive(a[1..]);
    }
  }

  lemma {:induction false} LessTransitive(a: Text, b: Text, c: Text)
    requires Less(a, b) && Less(b, c)
    ensures Less(a, c)
  {
    if a != [] && a[0] == b[0] && b[0] == c[0] {
      LessTransitive(a[1..], b[1..], c[1..]);
    }
  }

  lemma {:induction false} InsertSorts(key: Text, keys: seq<Text>)
    requires StrictlySorted(keys) && key !in keys
    ensures StrictlySorted(Insert(key, keys))
    ensures forall k :: k in Insert(key, keys) <==> k == key || k in keys
  {
    hide Less;
    if keys != [] && Less(keys[0], key) {
      InsertSorts(key, keys[1..]);
      var r := Insert(key, keys[1..]);
      assert forall j :: 0 <= j < |r| ==> r[j] in r;
    } else if keys != [] {
      LessTotal(key, keys[0]);
      forall j | 0 <= j < |keys| ensures Less(key, keys[j]) {
        if j > 0 { LessTransitive(key, keys[0], keys[j]); }
      }
    }
  }

  lemma {:induction false} SortSorts(keys: seq<Text>)
    requires Distinct(keys)
    ensures StrictlySorted(Sort(keys))
  {
    if keys == [] {
    } else {
      SortSorts(keys[1..]);
      InsertSorts(keys[0], Sort(keys[1..]));
    }
  }

  /** A strictly sorted list is determined by its elements. */
  lemma {:induction false} SortedUnique(a: seq<Text>, b: seq<Text>)
    requires StrictlySorted(a) && StrictlySorted(b)
    requires forall k :: k in a <==> k in b
    ensures a == b
  {
    hide Less;
    assert a != [] ==> a[0] in b;
    assert b != [] ==> b[0] in a;
    if a == [] {
    } else {
      LessTotal(a[0], b[0]);
      assert a[0] == b[0];
      forall k ensures k in a[1..] <==> k in b[1..] {
        LessTotal(k, k);
        assert k in a[1..] ==> Less(a[0], k) && k in a;
        assert k in b[1..] ==> Less(b[0], k) && k in b;
        assert a == [a[0]] + a[1..] && b == [b[0]] + b[1..];
      }
      SortedUnique(a[1..], b[1..]);
      assert a == [a[0]] + a[1..] && b == [b[0]] + b[1..];
    }
  }

  lemma {:induction false} DefinedKeysDistinct(fields: seq<Field>)
    requires DistinctKeys(fields)
    ensures Distinct(DefinedKeys(fields))
  {
    if fields == [] {
    } else {
      DefinedKeysDistinct(fields[1..]);
      assert fields[0].key !in DefinedKeys(fields[1..]);
    }
  }

  lemma SameKeysSameOrder(fs: seq<Field>, gs: seq<Field>)
    requires DistinctKeys(fs) && DistinctKeys(gs)
    requires forall k :: Has(fs, k) <==> Has(gs, k)
    ensures PrintedKeys(fs, Canonical) == PrintedKeys(gs, Canonical)
  {
    DefinedKeysDistinct(fs);
    DefinedKeysDistinct(gs);
    SortSorts(DefinedKeys(fs));
    SortSorts(DefinedKeys(gs));
    SortedUnique(PrintedKeys(fs, Canonical), PrintedKeys(gs, Canonical));
  }

  // ---------- Equal values, equal normal forms ----------

  lemma {:induction false} SameIsNormal(a: Json, b: Json)
    requires WellFormed(a) && WellFormed(b)
    ensures Same(a, b) <==> Normal(a, Canonical) == Normal(b, Canonical)
    decreases a
  {
    if a.Array? && b.Array? {
      forall i | 0 <= i < |a.items| && i < |b.items|
        ensures Same(a.items[i], b.items[i]) <==> Normal(a.items[i], Canonical) == Normal(b.items[i], Canonical)
      {
        SameIsNormal(a.items[i], b.items[i]);
      }
      SameItems(a.items, b.items);
    } else if a.Object? && b.Object? {
      forall k | Has(a.fields, k) && Has(b.fields, k)
        ensures MembersAgree(a.fields, b.fields, k) <==>
          NormalMember(a.fields, k, Canonical) == NormalMember(b.fields, k, Canonical)
      {
        SameIsNormal(a.fields[IndexOf(a.fields, k)].value, b.fields[IndexOf(b.fields, k)].value);
      }
      SameMembers(a.fields, b.fields);
    }
  }

  ghost predicate MembersAgree(fs: seq<Field>, gs: seq<Field>, k: Text)
    requires Has(fs, k) && Has(gs, k)
  {
    Same(fs[IndexOf(fs, k)].value, gs[IndexOf(gs, k)].value)
  }

  lemma SameItems(xs: seq<Json>, ys: seq<Json>)
    requires forall i :: 0 <= i < |xs| && i < |ys| ==>
      (Same(xs[i], ys[i]) <==> Normal(xs[i], Canonical) == Normal(ys[i], Canonical))
    ensures Same(Array(xs), Array(ys)) <==> Normal(Array(xs), Canonical) == Normal(Array(ys), Canonical)
  {
    hide Same, Normal;
    SameOfArrays(xs, ys);
    NormalOfArray(xs);
    NormalOfArray(ys);
    if |xs| == |ys| { SameLengthItems(xs, ys); } else { OtherLengthItems(xs, ys); }
  }

  lemma SameOfArrays(xs: seq<Json>, ys: seq<Json>)
    ensures Same(Array(xs), Array(ys)) <==>
      (Blank(xs) && Blank(ys)) || (|xs| == |ys| && forall i :: 0 <= i < |xs| ==> Same(xs[i], ys[i]))
  {
    hide Blank;
  }

  /** The items of an array's normal form. */
  function CanonicalItems(items: seq<Json>): seq<Json> {
    if items == [Undefined] then [] else NormalItems(items, Canonical)
  }

  lemma NormalOfArray(items: seq<Json>)
    ensures Normal(Array(items), Canonical) == Array(CanonicalItems(items))
  {
    hide NormalItems;
  }

  lemma NormalOfUndefined(v: Json)
    ensures Normal(v, Canonical) == Undefined <==> v == Undefined
    ensures NormalItem(v, Canonical) == Normal(v, Canonical)
  {
  }

  lemma SameLengthItems(xs: seq<Json>, ys: seq<Json>)
    requires |xs| == |ys|
    requires forall i :: 0 <= i < |xs| ==>
      (Same(xs[i], ys[i]) <==> Normal(xs[i], Canonical) == Normal(ys[i], Canonical))
    ensures CanonicalItems(xs) == CanonicalItems(ys) <==> forall i :: 0 <= i < |xs| ==> Same(xs[i], ys[i])
    ensures Blank(xs) && Blank(ys) ==> forall i :: 0 <= i < |xs| ==> Same(xs[i], ys[i])
  {
    hide Same, Normal, NormalItem;
    var p, q := NormalItems(xs, Canonical), NormalItems(ys, Canonical);
    forall i | 0 <= i < |xs| ensures p[i] == q[i] <==> Same(xs[i], ys[i]) {
      NormalOfUndefined(xs[i]);
      NormalOfUndefined(ys[i]);
    }
    if |xs| == 1 {
      NormalOfUndefined(xs[0]);
      NormalOfUndefined(ys[0]);
    }
    assert p == q <==> forall i :: 0 <= i < |xs| ==> p[i] == q[i];
  }

  lemma OtherLengthItems(xs: seq<Json>, ys: seq<Json>)
    requires |xs| != |ys|
    ensures CanonicalItems(xs) == CanonicalItems(ys) <==> Blank(xs) && Blank(ys)
  {
    hide Normal, NormalItem;
    assert |NormalItems(xs, Canonical)| == |xs| && |NormalItems(ys, Canonical)| == |ys|;
  }

  lemma SameMembers(fs: seq<Field>, gs: seq<Field>)
    requires DistinctKeys(fs) && DistinctKeys(gs)
    requires forall k :: Has(fs, k) && Has(gs, k) ==>
      (MembersAgree(fs, gs, k) <==> NormalMember(fs, k, Canonical) == NormalMember(gs, k, Canonical))
    ensures Same(Object(fs), Object(gs)) <==> Normal(Object(fs), Canonical) == Normal(Object(gs), Canonical)
  {
    SameMembersForward(fs, gs);
    SameMembersBackward(fs, gs);
  }

  lemma SameMembersForward(fs: seq<Field>, gs: seq<Field>)
    requires DistinctKeys(fs) && DistinctKeys(gs)
    requires forall k :: Has(fs, k) && Has(gs, k) ==>
      (MembersAgree(fs, gs, k) <==> NormalMember(fs, k, Canonical) == NormalMember(gs, k, Canonical))
    ensures Same(Object(fs), Object(gs)) ==> Normal(Object(fs), Canonical) == Normal(Object(gs), Canonical)
  {
    hide NormalMember, Has, PrintedKeys, DistinctKeys;
    if Same(Object(fs), Object(gs)) {
      SameKeysSameOrder(fs, gs);
      var ks := PrintedKeys(fs, Canonical);
      var p, q := NormalMembers(fs, ks, Canonical), NormalMembers(gs, ks, Canonical);
      forall i | 0 <= i < |ks| ensures p[i] == q[i] {
        assert ks[i] in ks;
        assert MembersAgree(fs, gs, ks[i]);
      }
      assert p == q;
    }
  }

  lemma SameMembersBackward(fs: seq<Field>, gs: seq<Field>)
    requires DistinctKeys(fs) && DistinctKeys(gs)
    requires forall k :: Has(fs, k) && Has(gs, k) ==>
      (MembersAgree(fs, gs, k) <==> NormalMember(fs, k, Canonical) == NormalMember(gs, k, Canonical))
    ensures Normal(Object(fs), Canonical) == Normal(Object(gs), Canonical) ==> Same(Object(fs), Object(gs))
  {
    hide NormalMember, Has, PrintedKeys, DistinctKeys;
    var ks, ls := PrintedKeys(fs, Canonical), PrintedKeys(gs, Canonical);
    var p, q := NormalMembers(fs, ks, Canonical), NormalMembers(gs, ls, Canonical);
    if p == q {
      NormalMemberKeys(fs, ks, gs, ls);
      forall k | Has(fs, k) ensures Has(gs, k) && MembersAgree(fs, gs, k) {
        var i :| 0 <= i < |ks| && ks[i] == k;
        assert p[i] == q[i];
      }
    }
  }

  lemma NormalMemberKeys(fs: seq<Field>, ks: seq<Text>, gs: seq<Field>, ls: seq<Text>)
    requires forall k :: k in ks ==> Has(fs, k)
    requires forall k :: k in ls ==> Has(gs, k)
    requires NormalMembers(fs, ks, Canonical) == NormalMembers(gs, ls, Canonical)
    ensures ks == ls
  {
    var p, q := NormalMembers(fs, ks, Canonical), NormalMembers(gs, ls, Canonical);
    assert |ks| == |p| == |q| == |ls|;
    forall i | 0 <= i < |ks| ensures ks[i] == ls[i] {
      assert p[i].key == ks[i] && q[i].key == ls[i];
    }
  }

  // ---------- Main results ----------

  /** Two values have the same canonical text exactly when they are equal up to property order,
      `undefined` properties and the values JSON has no text for. */
  lemma CanonicalUnambiguous(a: Json, b: Json)
    requires WellFormed(a) && WellFormed(b)
    ensures CanonicalText(a) == CanonicalText(b) <==> Same(a, b)
  {
    hide Print, Normal, Same;
    SameIsNormal(a, b);
    PrintOfNormal(a, b, Canonical);
    if Same(a, b) { PrintOfSame(a, b); }
  }

  /** Equal text reads back as equal values, in either mode. */
  lemma PrintOfNormal(a: Json, b: Json, mode: Mode)
    requires WellFormed(a) && WellFormed(b)
    ensures Print(a, mode) == Print(b, mode) ==> Normal(a, mode) == Normal(b, mode)
  {
    hide Print, Normal, ReadValue;
    if Print(a, mode) == Print(b, mode) {
      UndefinedPrints(a, mode);
      UndefinedPrints(b, mode);
      if !a.Undefined? && !b.Undefined? {
        PrintReads(a, mode, []);
        PrintReads(b, mode, []);
      }
    }
  }

  lemma UndefinedPrints(v: Json, mode: Mode)
    requires WellFormed(v)
    ensures v.Undefined? <==> Print(v, mode) == []
    ensures v.Undefined? ==> Normal(v, mode) == Undefined
  {
    if !v.Undefined? { PrintStart(v, mode); }
  }

  lemma BlankPrints(items: seq<Json>)
    ensures Blank(items) ==> PrintItems(items, Canonical) == []
  {
  }

  lemma {:induction false} PrintOfSame(a: Json, b: Json)
    requires WellFormed(a) && WellFormed(b)
    requires Same(a, b)
    ensures Print(a, Canonical) == Print(b, Canonical)
    decreases a
  {
    if a.Array? && b.Array? {
      BlankPrints(a.items);
      BlankPrints(b.items);
      if !Blank(a.items) || !Blank(b.items) {
        forall i | 0 <= i < |a.items| ensures PrintItem(a.items[i], Canonical) == PrintItem(b.items[i], Canonical) {
          PrintOfSame(a.items[i], b.items[i]);
        }
        PrintItemsAlike(a.items, b.items);
      }
    } else if a.Object? && b.Object? {
      SameKeysSameOrder(a.fields, b.fields);
      forall k | Has(a.fields, k) ensures PrintMember(a.fields, k, Canonical) == PrintMember(b.fields, k, Canonical) {
        PrintOfSame(a.fields[IndexOf(a.fields, k)].value, b.fields[IndexOf(b.fields, k)].value);
      }
      PrintMembersAlike(a.fields, b.fields, PrintedKeys(a.fields, Canonical));
    }
  }

  lemma {:induction false} PrintItemsAlike(xs: seq<Json>, ys: seq<Json>)
    requires |xs| == |ys|
    requires forall i :: 0 <= i < |xs| ==> PrintItem(xs[i], Canonical) == PrintItem(ys[i], Canonical)
    ensures PrintItems(xs, Canonical) == PrintItems(ys, Canonical)
  {
    if |xs| > 1 { PrintItemsAlike(xs[1..], ys[1..]); }
  }

  lemma {:induction false} PrintMembersAlike(fs: seq<Field>, gs: seq<Field>, keys: seq<Text>)
    requires forall k :: k in keys ==> Has(fs, k) && Has(gs, k)
    requires forall k :: k in keys ==> PrintMember(fs, k, Canonical) == PrintMember(gs, k, Canonical)
    ensures PrintMembers(fs, keys, Canonical) == PrintMembers(gs, keys, Canonical)
  {
    hide PrintMember;
    if |keys| > 1 { PrintMembersAlike(fs, gs, keys[1..]); }
  }

  /** The one ambiguity arrays have, at its smallest. */
  lemma LoneUndefinedItemIsLost()
    ensures CanonicalText(Array([Undefined])) == CanonicalText(Array([]))
    ensures Array([Undefined]) != Array([])
  {
    assert PrintItems([Undefined], Canonical) == PrintItem(Undefined, Canonical) == [];
  }
}
