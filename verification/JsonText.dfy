/** What the printed text is, unit by unit: which units are escaped and how, in what order keys come, and where
    the brackets, colons and commas stand. Nothing here is stated with the printer's own helpers. */
module JsonText {
  import opened CanonicalJson
  import opened JsonEquality

  // ---------- Strings ----------

  predicate IsHex(u: CodeUnit) { 0x30 <= u <= 0x39 || 0x61 <= u <= 0x66 }

  /** The value of a digit 0 to 9 or a to f. */
  function Digit(u: CodeUnit): int { if u <= 0x39 then u - 0x30 else u - 0x61 + 10 }

  /** Backslash, u and four lower-case hexadecimal digits that read `c`. */
  predicate FourDigits(c: CodeUnit, t: Text) {
    && |t| == 6 && t[0] == 0x5C && t[1] == 0x75
    && IsHex(t[2]) && IsHex(t[3]) && IsHex(t[4]) && IsHex(t[5])
    && c == ((Digit(t[2]) * 16 + Digit(t[3])) * 16 + Digit(t[4])) * 16 + Digit(t[5])
  }

  /** The text of a unit that is not half of a surrogate pair. */
  predicate UnitText(c: CodeUnit, t: Text) {
    if c == 0x22 || c == 0x5C then t == [0x5C, c]
    else if c == 0x08 then t == [0x5C, 0x62]
    else if c == 0x09 then t == [0x5C, 0x74]
    else if c == 0x0A then t == [0x5C, 0x6E]
    else if c == 0x0C then t == [0x5C, 0x66]
    else if c == 0x0D then t == [0x5C, 0x72]
    else if c < 0x20 || 0xD800 <= c <= 0xDFFF then FourDigits(c, t)
    else t == [c]
  }

  /** One half of a high surrogate followed by a low one. */
  predicate InPair(s: Text, i: nat)
    requires i < |s|
  {
    || (0xD800 <= s[i] <= 0xDBFF && i + 1 < |s| && 0xDC00 <= s[i + 1] <= 0xDFFF)
    || (0xDC00 <= s[i] <= 0xDFFF && i > 0 && 0xD800 <= s[i - 1] <= 0xDBFF)
  }

  predicate PieceOf(s: Text, i: nat, t: Text)
    requires i < |s|
  {
    if InPair(s, i) then t == [s[i]] else UnitText(s[i], t)
  }

  function Joined(pieces: seq<Text>): Text {
    if pieces == [] then [] else pieces[0] + Joined(pieces[1..])
  }

  lemma EscapeFourDigits(c: CodeUnit)
    ensures FourDigits(c, UnicodeEscape(c))
  {
    var w, x, y, z := c / 0x1000, c / 0x100 % 16, c / 0x10 % 16, c % 16;
    var t := UnicodeEscape(c);
    assert c / 0x10 == c / 0x100 * 16 + y && c / 0x100 == w * 16 + x by {
      assert c / 0x100 == c / 0x10 / 16 && c / 0x1000 == c / 0x100 / 16;
    }
    assert Digit(t[2]) == w && Digit(t[3]) == x && Digit(t[4]) == y && Digit(t[5]) == z;
  }

  lemma UnitEscaped(c: CodeUnit)
    ensures UnitText(c, EscapeUnit(c))
  {
    hide FourDigits, UnicodeEscape;
    EscapeFourDigits(c);
  }

  lemma LaterPiece(s: Text, k: nat, i: nat, t: Text)
    requires 0 < k <= i < |s| && PieceOf(s[k..], i - k, t)
    requires !(0xD800 <= s[k - 1] <= 0xDBFF && 0xDC00 <= s[k] <= 0xDFFF)
    ensures PieceOf(s, i, t)
  {
    hide UnitText;
  }

  /** A string's text is one piece for each of its units, in order. */
  lemma {:induction false} EscapeText(s: Text) returns (pieces: seq<Text>)
    ensures |pieces| == |s| && Escape(s) == Joined(pieces)
    ensures forall i :: 0 <= i < |s| ==> PieceOf(s, i, pieces[i])
    decreases |s|
  {
    hide UnitText, EscapeUnit;
    if s == [] {
      pieces := [];
    } else if |s| >= 2 && IsHighSurrogate(s[0]) && IsLowSurrogate(s[1]) {
      var rest := EscapeText(s[2..]);
      pieces := [[s[0]], [s[1]]] + rest;
      assert pieces[1..] == [[s[1]]] + rest && pieces[1..][1..] == rest;
      assert [s[0]] + ([s[1]] + Joined(rest)) == [s[0], s[1]] + Joined(rest);
      forall i | 2 <= i < |s| ensures PieceOf(s, i, pieces[i]) { LaterPiece(s, 2, i, pieces[i]); }
    } else {
      var rest := EscapeText(s[1..]);
      pieces := [EscapeUnit(s[0])] + rest;
      assert pieces[1..] == rest;
      UnitEscaped(s[0]);
      forall i | 1 <= i < |s| ensures PieceOf(s, i, pieces[i]) { LaterPiece(s, 1, i, pieces[i]); }
    }
  }

  /** Text without control characters, quotes, backslashes and surrogates is printed as it is. */
  lemma {:induction false} PlainEscape(s: Text)
    requires forall i :: 0 <= i < |s| ==> s[i] >= 0x20 && s[i] != 0x22 && s[i] != 0x5C && !(0xD800 <= s[i] <= 0xDFFF)
    ensures Escape(s) == s
  {
    if s == [] {
    } else {
      PlainEscape(s[1..]);
      assert s == [s[0]] + s[1..];
    }
  }

  // ---------- Key order ----------

  /** The keys agree up to some place, where the first one ends or has the smaller unit. */
  ghost predicate KeyBefore(a: Text, b: Text) { exists n: nat :: PartsAt(a, b, n) }

  predicate PartsAt(a: Text, b: Text, n: nat) {
    n <= |a| && n < |b| && a[..n] == b[..n] && (n == |a| || a[n] < b[n])
  }

  lemma FirstAgrees(a: Text, b: Text, n: nat)
    requires PartsAt(a, b, n)
    ensures n > 0 ==> a[0] == b[0]
  {
    assert n > 0 ==> a[0] == a[..n][0] && b[0] == b[..n][0];
  }

  lemma {:induction false} LessMeans(a: Text, b: Text)
    ensures Less(a, b) <==> KeyBefore(a, b)
  {
    if a == [] || b == [] || a[0] != b[0] {
      if b != [] && (a == [] || a[0] < b[0]) {
        assert PartsAt(a, b, 0);
      }
      if KeyBefore(a, b) {
        var n: nat :| PartsAt(a, b, n);
        FirstAgrees(a, b, n);
      }
    } else {
      LessMeans(a[1..], b[1..]);
      if n: nat :| PartsAt(a[1..], b[1..], n) {
        assert a[..n + 1] == [a[0]] + a[1..][..n] && b[..n + 1] == [b[0]] + b[1..][..n];
        assert PartsAt(a, b, n + 1);
      }
      if n: nat :| PartsAt(a, b, n) {
        assert n > 0;
        assert a[1..][..n - 1] == a[..n][1..] && b[1..][..n - 1] == b[..n][1..];
        assert PartsAt(a[1..], b[1..], n - 1);
      }
    }
  }

  // ---------- Values ----------

  /** Texts with a comma between each and the next. */
  function Separated(texts: seq<Text>): Text {
    if texts == [] then [] else if |texts| == 1 then texts[0] else texts[0] + [0x2C] + Separated(texts[1..])
  }

  lemma ScalarText(v: Json, mode: Mode)
    ensures v.Null? || v.NonFinite? ==> Print(v, mode) == [0x6E, 0x75, 0x6C, 0x6C]
    ensures v == Bool(true) ==> Print(v, mode) == [0x74, 0x72, 0x75, 0x65]
    ensures v == Bool(false) ==> Print(v, mode) == [0x66, 0x61, 0x6C, 0x73, 0x65]
    ensures v.NegativeZero? ==> Print(v, mode) == [0x30]
    ensures v.Number? ==> Print(v, mode) == v.token
    ensures v.Undefined? ==> Print(v, mode) == []
    ensures v.String? ==> Print(v, mode) == [0x22] + Escape(v.s) + [0x22]
  {
  }

  /** An undefined item leaves an empty text in the canonical form and `null` in the plain one. */
  predicate ItemText(v: Json, mode: Mode, t: Text) {
    t == if v.Undefined? then (if mode == Canonical then [] else [0x6E, 0x75, 0x6C, 0x6C]) else Print(v, mode)
  }

  /** An array's items stand in order between brackets. */
  lemma ArrayText(items: seq<Json>, mode: Mode) returns (texts: seq<Text>)
    ensures |texts| == |items| && Print(Array(items), mode) == [0x5B] + Separated(texts) + [0x5D]
    ensures forall i :: 0 <= i < |items| ==> ItemText(items[i], mode, texts[i])
  {
    texts := ItemTexts(items, mode);
    assert Print(Array(items), mode) == [0x5B] + PrintItems(items, mode) + [0x5D];
  }

  lemma ItemAlone(v: Json, mode: Mode)
    ensures ItemText(v, mode, PrintItem(v, mode))
  {
    ScalarText(v, mode);
  }

  lemma {:induction false} ItemTexts(items: seq<Json>, mode: Mode) returns (texts: seq<Text>)
    ensures |texts| == |items| && PrintItems(items, mode) == Separated(texts)
    ensures forall i :: 0 <= i < |items| ==> ItemText(items[i], mode, texts[i])
  {
    hide Print, ItemText;
    if items == [] {
      texts := [];
    } else {
      var rest := ItemTexts(items[1..], mode);
      texts := [PrintItem(items[0], mode)] + rest;
      assert texts[1..] == rest;
      ItemAlone(items[0], mode);
      forall i | 0 <= i < |items| ensures ItemText(items[i], mode, texts[i]) {
        if i > 0 { assert ItemText(items[1..][i - 1], mode, rest[i - 1]); }
      }
    }
  }

  /** The member of a field: its quoted key, a colon and its value. */
  predicate MemberText(f: Field, mode: Mode, t: Text) {
    t == [0x22] + Escape(f.key) + [0x22, 0x3A] + Print(f.value, mode)
  }

  /** The members of an object stand between braces, one for each field with a value: in the canonical form in
      the order of their keys, in the plain one in the order of the fields. */
  lemma ObjectText(fields: seq<Field>, mode: Mode) returns (at: seq<nat>, texts: seq<Text>)
    requires DistinctKeys(fields)
    ensures forall m :: 0 <= m < |at| ==> at[m] < |fields|
    ensures forall i: nat :: i in at <==> i < |fields| && !fields[i].value.Undefined?
    ensures forall m, n :: 0 <= m < n < |at| ==>
      if mode == Canonical then KeyBefore(fields[at[m]].key, fields[at[n]].key) else at[m] < at[n]
    ensures |texts| == |at| && Print(Object(fields), mode) == [0x7B] + Separated(texts) + [0x7D]
    ensures forall m :: 0 <= m < |at| ==> MemberText(fields[at[m]], mode, texts[m])
  {
    hide PrintedKeys, MemberText, KeyBefore, Sort;
    var keys := PrintedKeys(fields, mode);
    texts := MemberTexts(fields, keys, mode);
    at := Places(fields, keys);
    assert Print(Object(fields), mode) == [0x7B] + PrintMembers(fields, keys, mode) + [0x7D];
    forall i: nat | i < |fields| && !fields[i].value.Undefined? ensures i in at {
      assert Has(fields, fields[i].key);
      var m :| 0 <= m < |keys| && keys[m] == fields[i].key;
      assert at[m] == i;
    }
    forall m, n | 0 <= m < n < |at|
      ensures if mode == Canonical then KeyBefore(fields[at[m]].key, fields[at[n]].key) else at[m] < at[n]
    {
      KeysInOrder(fields, keys, mode, at, m, n);
    }
  }

  lemma Places(fields: seq<Field>, keys: seq<Text>) returns (at: seq<nat>)
    requires forall k :: k in keys ==> Has(fields, k)
    ensures |at| == |keys|
    ensures forall m :: 0 <= m < |at| ==> at[m] == IndexOf(fields, keys[m])
  {
    hide IndexOf;
    at := seq(|keys|, m requires 0 <= m < |keys| => IndexOf(fields, keys[m]));
  }

  lemma {:induction false} MemberTexts(fields: seq<Field>, keys: seq<Text>, mode: Mode) returns (texts: seq<Text>)
    requires forall k :: k in keys ==> Has(fields, k)
    ensures |texts| == |keys| && PrintMembers(fields, keys, mode) == Separated(texts)
    ensures forall m :: 0 <= m < |keys| ==> MemberText(fields[IndexOf(fields, keys[m])], mode, texts[m])
    decreases |keys|
  {
    hide Print, IndexOf;
    if keys == [] {
      texts := [];
    } else {
      var rest := MemberTexts(fields, keys[1..], mode);
      texts := [PrintMember(fields, keys[0], mode)] + rest;
      assert texts[1..] == rest;
    }
  }

  lemma KeysInOrder(fields: seq<Field>, keys: seq<Text>, mode: Mode, at: seq<nat>, m: nat, n: nat)
    requires DistinctKeys(fields) && keys == PrintedKeys(fields, mode) && |at| == |keys| && m < n < |at|
    requires forall i :: 0 <= i < |at| ==> at[i] == IndexOf(fields, keys[i]) < |fields|
    ensures if mode == Canonical then KeyBefore(fields[at[m]].key, fields[at[n]].key) else at[m] < at[n]
  {
    hide IndexOf, Less, KeyBefore;
    DefinedKeysDistinct(fields);
    SortSorts(DefinedKeys(fields));
    if mode == Canonical {
      LessMeans(keys[m], keys[n]);
    } else {
      DefinedKeysInOrder(fields, m, n, at[m], at[n]);
    }
  }

  lemma {:induction false} DefinedKeysInOrder(fields: seq<Field>, m: nat, n: nat, i: nat, j: nat)
    requires DistinctKeys(fields) && m < n < |DefinedKeys(fields)| && i < |fields| && j < |fields|
    requires fields[i].key == DefinedKeys(fields)[m] && fields[j].key == DefinedKeys(fields)[n]
    requires !fields[i].value.Undefined? && !fields[j].value.Undefined?
    ensures i < j
  {
    var rest := fields[1..];
    if fields[0].value.Undefined? {
      DefinedKeysInOrder(rest, m, n, i - 1, j - 1);
    } else if m == 0 {
      assert DefinedKeys(fields)[n] in DefinedKeys(rest);
      assert Has(rest, fields[j].key);
    } else {
      DefinedKeysDistinct(fields);
      assert DefinedKeys(fields)[m] in DefinedKeys(rest) && DefinedKeys(fields)[n] in DefinedKeys(rest);
      assert Has(rest, fields[i].key) && Has(rest, fields[j].key);
      DefinedKeysInOrder(rest, m - 1, n - 1, i - 1, j - 1);
    }
  }
}
