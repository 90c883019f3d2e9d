/** Reading what was printed, followed by any continuation a printer can produce. */
module JsonRoundTrip {
  import opened CanonicalJson

  // ---------- Strings ----------

  lemma ShortEscapeReads(e: CodeUnit, tail: Text)
    requires e != 0x75
    ensures ReadUnits([BACKSLASH, e] + tail) == Prepend(ShortUnescape(e), ReadUnits(tail))
  {
    var s := [BACKSLASH, e] + tail;
    assert s[0] == BACKSLASH && s[1] == e && s[2..] == tail;
  }

  lemma HexDigitReads(d: int)
    requires 0 <= d < 16
    ensures HexValue(HexDigit(d)) == d
  {
  }

  lemma FourHexDigits(c: CodeUnit)
    ensures c / 0x1000 < 16
    ensures c / 0x1000 * 0x1000 + c / 0x100 % 16 * 0x100 + c / 0x10 % 16 * 0x10 + c % 16 == c
  {
    HighDigits(c);
    MiddleDigits(c);
  }

  lemma HighDigits(c: nat)
    ensures c / 0x100 == c / 0x1000 * 16 + c / 0x100 % 16
  {
    assert c / 0x100 / 16 == c / 0x1000;
  }

  lemma MiddleDigits(c: nat)
    ensures c / 0x10 == c / 0x100 * 16 + c / 0x10 % 16
  {
    assert c / 0x10 / 16 == c / 0x100;
  }

  lemma HexEscapeReads(a: CodeUnit, b: CodeUnit, c: CodeUnit, d: CodeUnit, tail: Text)
    requires HexValue(a) < 16 && HexValue(b) < 16 && HexValue(c) < 16 && HexValue(d) < 16
    ensures ReadUnits([BACKSLASH, 0x75, a, b, c, d] + tail) ==
            Prepend(HexValue(a) * 0x1000 + HexValue(b) * 0x100 + HexValue(c) * 0x10 + HexValue(d), ReadUnits(tail))
  {
    var s := [BACKSLASH, 0x75, a, b, c, d] + tail;
    assert s[0] == BACKSLASH && s[1] == 0x75 && s[6..] == tail;
    assert s[2] == a && s[3] == b && s[4] == c && s[5] == d;
  }

  lemma UnicodeEscapeReads(c: CodeUnit, tail: Text)
    ensures ReadUnits(UnicodeEscape(c) + tail) == Prepend(c, ReadUnits(tail))
  {
    FourHexDigits(c);
    HexDigitReads(c / 0x1000);
    HexDigitReads(c / 0x100 % 16);
    HexDigitReads(c / 0x10 % 16);
    HexDigitReads(c % 16);
    HexEscapeReads(HexDigit(c / 0x1000), HexDigit(c / 0x100 % 16), HexDigit(c / 0x10 % 16), HexDigit(c % 16), tail);
  }

  lemma RawUnitReads(c: CodeUnit, tail: Text)
    requires c != QUOTE && c != BACKSLASH
    ensures ReadUnits([c] + tail) == Prepend(c, ReadUnits(tail))
  {
    assert ([c] + tail)[1..] == tail;
  }

  lemma EscapedUnitReads(c: CodeUnit, tail: Text)
    ensures ReadUnits(EscapeUnit(c) + tail) == Prepend(c, ReadUnits(tail))
  {
    if c == QUOTE || c == BACKSLASH || ShortEscape(c) != c {
      ShortEscapeReads(ShortEscape(c), tail);
    } else if c < 0x20 || IsHighSurrogate(c) || IsLowSurrogate(c) {
      UnicodeEscapeReads(c, tail);
    } else {
      RawUnitReads(c, tail);
    }
  }

  lemma PairReads(high: CodeUnit, low: CodeUnit, tail: Text)
    requires IsHighSurrogate(high) && IsLowSurrogate(low)
    ensures ReadUnits([high, low] + tail) == Prepend(high, Prepend(low, ReadUnits(tail)))
  {
    assert [high, low] + tail == [high] + ([low] + tail);
    RawUnitReads(low, tail);
    RawUnitReads(high, [low] + tail);
  }

  lemma ClosingQuoteReads(rest: Text)
    ensures ReadUnits([QUOTE] + rest) == Got([], rest)
  {
    assert ([QUOTE] + rest)[1..] == rest;
  }

  /** The inside of a string followed by its closing quote reads back unit by unit. */
  lemma {:induction false} EscapeReads(s: Text, rest: Text)
    ensures ReadUnits(Escape(s) + ([QUOTE] + rest)) == Got(s, rest)
  {
    hide ReadUnits, EscapeUnit;
    var end := [QUOTE] + rest;
    if s == [] {
      ClosingQuoteReads(rest);
      assert Escape(s) + end == end;
    } else if |s| >= 2 && IsHighSurrogate(s[0]) && IsLowSurrogate(s[1]) {
      EscapeReads(s[2..], rest);
      var tail := Escape(s[2..]) + end;
      PairReads(s[0], s[1], tail);
      assert Escape(s) + end == [s[0], s[1]] + tail;
      assert s == [s[0]] + ([s[1]] + s[2..]);
    } else {
      EscapeReads(s[1..], rest);
      var tail := Escape(s[1..]) + end;
      EscapedUnitReads(s[0], tail);
      assert Escape(s) + end == EscapeUnit(s[0]) + tail;
      assert s == [s[0]] + s[1..];
    }
  }

  lemma QuoteReads(s: Text, rest: Text)
    ensures (Quote(s) + rest)[0] == QUOTE
    ensures ReadUnits((Quote(s) + rest)[1..]) == Got(s, rest)
  {
    hide ReadUnits, Escape;
    EscapeReads(s, rest);
    assert (Quote(s) + rest)[1..] == Escape(s) + ([QUOTE] + rest);
  }

  // ---------- Values ----------

  /** What may follow a value inside a document: nothing, or a unit no number contains. */
  predicate Delimited(rest: Text) { rest == [] || !IsNumberUnit(rest[0]) }

  lemma {:induction false} TokenLength(t: Text, rest: Text)
    requires forall i :: 0 <= i < |t| ==> IsNumberUnit(t[i])
    requires Delimited(rest)
    ensures NumberLength(t + rest) == |t|
  {
    if t == [] {
      assert t + rest == rest;
    } else {
      TokenLength(t[1..], rest);
      assert (t + rest)[1..] == t[1..] + rest;
    }
  }

  lemma ScalarReads(v: Json, mode: Mode, rest: Text)
    requires WellFormed(v) && !v.Undefined? && !v.Array? && !v.Object?
    requires Delimited(rest)
    ensures ReadValue(Print(v, mode) + rest) == Got(Normal(v, mode), rest)
  {
    var p := Print(v, mode);
    var s := p + rest;
    assert s[..|p|] == p && s[|p|..] == rest;
    if v.String? {
      QuoteReads(v.s, rest);
    } else if v.Number? || v.NegativeZero? {
      TokenLength(p, rest);
    }
  }

  /** A printed value starts with none of the three closing or separating units. */
  lemma PrintStart(v: Json, mode: Mode)
    requires WellFormed(v) && !v.Undefined?
    ensures |Print(v, mode)| > 0
    ensures Print(v, mode)[0] != COMMA && Print(v, mode)[0] != CLOSE_BRACKET && Print(v, mode)[0] != CLOSE_BRACE
  {
  }

  /** One step of the item loop: an item's text, then the bracket or a comma and more items. */
  lemma LastItemReads(text: Text, v: Json, rest: Text)
    requires text == [] ==> v == Undefined
    requires text != [] ==> text[0] != COMMA && text[0] != CLOSE_BRACKET
    requires text != [] ==> ReadValue(text + ([CLOSE_BRACKET] + rest)) == Got(v, [CLOSE_BRACKET] + rest)
    ensures ReadItems(text + ([CLOSE_BRACKET] + rest)) == Got([v], rest)
  {
    var tail := [CLOSE_BRACKET] + rest;
    assert tail[1..] == rest;
    if text == [] { assert text + tail == tail; }
  }

  lemma NextItemReads(text: Text, v: Json, more: Text)
    requires text == [] ==> v == Undefined
    requires text != [] ==> text[0] != COMMA && text[0] != CLOSE_BRACKET
    requires text != [] ==> ReadValue(text + ([COMMA] + more)) == Got(v, [COMMA] + more)
    ensures ReadItems(text + ([COMMA] + more)) ==
            if ReadItems(more).Fail? then Fail else Got([v] + ReadItems(more).value, ReadItems(more).rest)
  {
    hide ReadValue;
    var tail := [COMMA] + more;
    assert tail[1..] == more;
    if text == [] { assert text + tail == tail; }
  }

  lemma LastMemberReads(text: Text, f: Field, rest: Text)
    requires ReadMember(text + ([CLOSE_BRACE] + rest)) == Got(f, [CLOSE_BRACE] + rest)
    ensures ReadMembers(text + ([CLOSE_BRACE] + rest)) == Got([f], rest)
  {
    assert ([CLOSE_BRACE] + rest)[1..] == rest;
  }

  lemma NextMemberReads(text: Text, f: Field, more: Text)
    requires ReadMember(text + ([COMMA] + more)) == Got(f, [COMMA] + more)
    ensures ReadMembers(text + ([COMMA] + more)) ==
            if ReadMembers(more).Fail? then Fail else Got([f] + ReadMembers(more).value, ReadMembers(more).rest)
  {
    assert ([COMMA] + more)[1..] == more;
  }

  lemma ArrayReads(inner: Text, rest: Text)
    ensures ReadValue([OPEN_BRACKET] + ([CLOSE_BRACKET] + rest)) == Got(Array([]), rest)
    ensures inner != [] && inner[0] != CLOSE_BRACKET && ReadItems(inner).Got? ==>
              ReadValue([OPEN_BRACKET] + inner) == Got(Array(ReadItems(inner).value), ReadItems(inner).rest)
  {
    var s := [OPEN_BRACKET] + ([CLOSE_BRACKET] + rest);
    assert s[0] == OPEN_BRACKET && s[1] == CLOSE_BRACKET && s[2..] == rest;
    assert ([OPEN_BRACKET] + inner)[1..] == inner;
  }

  lemma ObjectReads(inner: Text, rest: Text)
    ensures ReadValue([OPEN_BRACE] + ([CLOSE_BRACE] + rest)) == Got(Object([]), rest)
    ensures inner != [] && inner[0] != CLOSE_BRACE && ReadMembers(inner).Got? ==>
              ReadValue([OPEN_BRACE] + inner) == Got(Object(ReadMembers(inner).value), ReadMembers(inner).rest)
  {
    var s := [OPEN_BRACE] + ([CLOSE_BRACE] + rest);
    assert s[0] == OPEN_BRACE && s[1] == CLOSE_BRACE && s[2..] == rest;
    assert ([OPEN_BRACE] + inner)[1..] == inner;
  }

  /** The round trip: printed and read back, any value is its normal form. */
  lemma {:induction false} PrintReads(v: Json, mode: Mode, rest: Text)
    requires WellFormed(v) && !v.Undefined?
    requires Delimited(rest)
    ensures ReadValue(Print(v, mode) + rest) == Got(Normal(v, mode), rest)
    decreases v, 1
  {
    if v.Array? {
      ArrayPrintReads(v, mode, rest);
    } else if v.Object? {
      ObjectPrintReads(v, mode, rest);
    } else {
      ScalarReads(v, mode, rest);
    }
  }

  lemma MembersStart(fields: seq<Field>, keys: seq<Text>, mode: Mode)
    requires forall k :: k in keys ==> Has(fields, k)
    ensures keys == [] ==> PrintMembers(fields, keys, mode) == [] && NormalMembers(fields, keys, mode) == []
    ensures keys != [] ==> PrintMembers(fields, keys, mode) != [] && PrintMembers(fields, keys, mode)[0] == QUOTE
  {
  }

  lemma {:induction false} ArrayPrintReads(v: Json, mode: Mode, rest: Text)
    requires WellFormed(v) && v.Array?
    ensures ReadValue(Print(v, mode) + rest) == Got(Normal(v, mode), rest)
    decreases v, 0
  {
    hide ReadValue, ReadItems;
    var end := [CLOSE_BRACKET] + rest;
    var inner := PrintItems(v.items, mode) + end;
    assert Print(v, mode) + rest == [OPEN_BRACKET] + inner;
    ArrayReads(inner, rest);
    if v.items == [] || (mode.Canonical? && v.items == [Undefined]) {
      assert PrintItems(v.items, mode) == [];
      assert inner == end;
    } else {
      ItemsRead(v.items, mode, rest);
      ItemsStart(v.items, mode, rest);
    }
  }

  lemma {:induction false} ObjectPrintReads(v: Json, mode: Mode, rest: Text)
    requires WellFormed(v) && v.Object?
    ensures ReadValue(Print(v, mode) + rest) == Got(Normal(v, mode), rest)
    decreases v, 0
  {
    hide ReadValue, ReadMembers;
    hide PrintMembers, NormalMembers;
    var end := [CLOSE_BRACE] + rest;
    var keys := PrintedKeys(v.fields, mode);
    var members := PrintMembers(v.fields, keys, mode);
    assert Print(v, mode) + rest == [OPEN_BRACE] + (members + end);
    MembersStart(v.fields, keys, mode);
    ObjectReads(members + end, rest);
    if keys == [] {
      assert members + end == end;
    } else {
      MembersRead(v.fields, keys, mode, rest);
    }
  }

  lemma ItemsStart(items: seq<Json>, mode: Mode, rest: Text)
    requires forall i :: 0 <= i < |items| ==> WellFormed(items[i])
    requires |items| > 0 && !(mode.Canonical? && items == [Undefined])
    ensures (PrintItems(items, mode) + ([CLOSE_BRACKET] + rest))[0] != CLOSE_BRACKET
  {
    if items[0].Undefined? {
      if mode.Canonical? { assert |items| > 1; }
    } else {
      PrintStart(items[0], mode);
    }
  }

  lemma {:induction false} ItemReads(v: Json, mode: Mode, rest: Text)
    requires WellFormed(v) && Delimited(rest)
    ensures PrintItem(v, mode) == [] ==> NormalItem(v, mode) == Undefined
    ensures PrintItem(v, mode) != [] ==> PrintItem(v, mode)[0] != COMMA && PrintItem(v, mode)[0] != CLOSE_BRACKET
    ensures PrintItem(v, mode) != [] ==> ReadValue(PrintItem(v, mode) + rest) == Got(NormalItem(v, mode), rest)
    decreases v, 2
  {
    if v.Undefined? {
      ScalarReads(Null, mode, rest);
    } else {
      PrintStart(v, mode);
      PrintReads(v, mode, rest);
    }
  }

  lemma {:induction false} ItemsRead(items: seq<Json>, mode: Mode, rest: Text)
    requires forall i :: 0 <= i < |items| ==> WellFormed(items[i])
    requires |items| > 0
    ensures ReadItems(PrintItems(items, mode) + ([CLOSE_BRACKET] + rest)) == Got(NormalItems(items, mode), rest)
    decreases items, 0
  {
    hide ReadItems, ReadValue, PrintItem, NormalItem;
    var text := PrintItem(items[0], mode);
    if |items| == 1 {
      ItemReads(items[0], mode, [CLOSE_BRACKET] + rest);
      LastItemReads(text, NormalItem(items[0], mode), rest);
      assert NormalItems(items, mode) == [NormalItem(items[0], mode)];
    } else {
      var more := PrintItems(items[1..], mode) + ([CLOSE_BRACKET] + rest);
      ItemReads(items[0], mode, [COMMA] + more);
      NextItemReads(text, NormalItem(items[0], mode), more);
      ItemsRead(items[1..], mode, rest);
      assert PrintItems(items, mode) + ([CLOSE_BRACKET] + rest) == text + ([COMMA] + more);
    }
  }

  lemma {:induction false} MemberReads(fields: seq<Field>, key: Text, mode: Mode, rest: Text)
    requires forall i :: 0 <= i < |fields| ==> WellFormed(fields[i].value)
    requires Has(fields, key) && Delimited(rest)
    ensures ReadMember(PrintMember(fields, key, mode) + rest) == Got(NormalMember(fields, key, mode), rest)
    decreases fields, 0, 0
  {
    hide ReadUnits, ReadValue, Print, Normal, Escape;
    var v := fields[IndexOf(fields, key)].value;
    var tail := [COLON] + (Print(v, mode) + rest);
    assert PrintMember(fields, key, mode) + rest == Quote(key) + tail;
    QuoteReads(key, tail);
    assert tail[1..] == Print(v, mode) + rest;
    PrintReads(v, mode, rest);
  }

  lemma PrintMembersStep(fields: seq<Field>, keys: seq<Text>, mode: Mode, end: Text)
    requires forall k :: k in keys ==> Has(fields, k)
    requires |keys| > 1
    ensures PrintMembers(fields, keys, mode) + end ==
            PrintMember(fields, keys[0], mode) + ([COMMA] + (PrintMembers(fields, keys[1..], mode) + end))
  {
  }

  lemma {:induction false} MembersRead(fields: seq<Field>, keys: seq<Text>, mode: Mode, rest: Text)
    requires forall i :: 0 <= i < |fields| ==> WellFormed(fields[i].value)
    requires forall k :: k in keys ==> Has(fields, k)
    requires |keys| > 0
    ensures ReadMembers(PrintMembers(fields, keys, mode) + ([CLOSE_BRACE] + rest)) ==
      Got(NormalMembers(fields, keys, mode), rest)
    decreases fields, 1, |keys|
  {
    hide ReadMembers, ReadMember, PrintMember, NormalMember;
    var text, first, end := PrintMember(fields, keys[0], mode), NormalMember(fields, keys[0], mode),
      [CLOSE_BRACE] + rest;
    if |keys| == 1 {
      MemberReads(fields, keys[0], mode, end);
      LastMemberReads(text, first, rest);
      assert NormalMembers(fields, keys, mode) == [first];
    } else {
      var more := PrintMembers(fields, keys[1..], mode) + end;
      MemberReads(fields, keys[0], mode, [COMMA] + more);
      NextMemberReads(text, first, more);
      MembersRead(fields, keys[1..], mode, rest);
      PrintMembersStep(fields, keys, mode, end);
    }
  }
}
