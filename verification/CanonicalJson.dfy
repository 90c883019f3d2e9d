/** The canonical JSON printer of the signing service, the plain `JSON.stringify` form
    beside it, and a reader that shows both are unambiguous. */
module CanonicalJson {
  import opened Prelude


  // ---------- Text ----------

  /** A JavaScript string is a sequence of UTF-16 code units; surrogates may be unpaired. */
  type CodeUnit = u: int | 0 <= u < 0x1_0000
  type Text = seq<CodeUnit>

  const QUOTE: CodeUnit := 0x22
  const BACKSLASH: CodeUnit := 0x5C
  const COMMA: CodeUnit := 0x2C
  const COLON: CodeUnit := 0x3A
  const OPEN_BRACKET: CodeUnit := 0x5B
  const CLOSE_BRACKET: CodeUnit := 0x5D
  const OPEN_BRACE: CodeUnit := 0x7B
  const CLOSE_BRACE: CodeUnit := 0x7D
  const NULL_TEXT: Text := [0x6E, 0x75, 0x6C, 0x6C]
  const TRUE_TEXT: Text := [0x74, 0x72, 0x75, 0x65]
  const FALSE_TEXT: Text := [0x66, 0x61, 0x6C, 0x73, 0x65]
  const ZERO_TEXT: Text := [0x30]

  function Unit(c: char): CodeUnit { if c as int < 0x1_0000 then c as int else 0xFFFD }

  /** The text of a name written in the source. */
  function Name(s: string): Text { seq(|s|, i requires 0 <= i < |s| => Unit(s[i])) }

  // ---------- Values ----------

  /** Plain data as the printer meets it. A finite number other than -0 is represented by the
      text ECMAScript prints for it, which is different for different numbers. */
  datatype Json =
    | Undefined
    | Null
    | Bool(b: bool)
    | NonFinite
    | NegativeZero
    | Number(token: Text)
    | String(s: Text)
    | Array(items: seq<Json>)
    | Object(fields: seq<Field>)

  /** One own property; `fields` lists them in property order. */
  datatype Field = Field(key: Text, value: Json)

  /** An optional text property, `undefined` when it is missing. */
  function Optional(t: Option<Text>): Json { if t.Some? then String(t.value) else Undefined }

  predicate IsNumberUnit(c: CodeUnit) {
    0x30 <= c <= 0x39 || c == 0x2D || c == 0x2B || c == 0x2E || c == 0x65
  }

  /** Digits, sign, point and exponent mark, starting with a digit or a minus sign. */
  predicate IsNumberToken(t: Text) {
    && |t| > 0
    && (0x30 <= t[0] <= 0x39 || t[0] == 0x2D)
    && forall i :: 0 <= i < |t| ==> IsNumberUnit(t[i])
  }

  predicate DistinctKeys(fields: seq<Field>) {
    forall i, j :: 0 <= i < j < |fields| ==> fields[i].key != fields[j].key
  }

  /** Numbers carry number text and no object has a key twice. */
  predicate WellFormed(v: Json) {
    match v
    case Number(t) => IsNumberToken(t)
    case Array(items) => forall i :: 0 <= i < |items| ==> WellFormed(items[i])
    case Object(fields) => DistinctKeys(fields) && forall i :: 0 <= i < |fields| ==> WellFormed(fields[i].value)
    case _ => true
  }

  /** The key is present with a value other than `undefined`. */
  predicate Has(fields: seq<Field>, key: Text) {
    exists i :: 0 <= i < |fields| && fields[i].key == key && !fields[i].value.Undefined?
  }

  function IndexOf(fields: seq<Field>, key: Text): (i: nat)
    requires Has(fields, key)
    ensures i < |fields| && fields[i].key == key && !fields[i].value.Undefined?
  {
    if fields[0].key == key && !fields[0].value.Undefined? then 0
    else
      assert Has(fields[1..], key) by {
        var j :| 0 <= j < |fields| && fields[j].key == key && !fields[j].value.Undefined?;
        assert fields[1..][j - 1] == fields[j];
      }
      1 + IndexOf(fields[1..], key)
  }

  // ---------- Strings ----------

  predicate IsHighSurrogate(c: CodeUnit) { 0xD800 <= c < 0xDC00 }
  predicate IsLowSurrogate(c: CodeUnit) { 0xDC00 <= c < 0xE000 }

  function HexDigit(d: int): CodeUnit
    requires 0 <= d < 16
  {
    if d < 10 then 0x30 + d else 0x61 + (d - 10)
  }

  /** The value of a hexadecimal digit, or 16 when it is not one. */
  function HexValue(c: CodeUnit): (d: int)
    ensures 0 <= d <= 16
  {
    if 0x30 <= c <= 0x39 then c - 0x30
    else if 0x61 <= c <= 0x66 then c - 0x61 + 10
    else 16
  }

  function UnicodeEscape(c: CodeUnit): Text {
    [BACKSLASH, 0x75, HexDigit(c / 0x1000), HexDigit(c / 0x100 % 16), HexDigit(c / 0x10 % 16), HexDigit(c % 16)]
  }

  /** The letter after a backslash that stands for a unit on its own, section 7 of RFC 8259. */
  function ShortEscape(c: CodeUnit): (e: CodeUnit) {
    if c == 0x08 then 0x62
    else if c == 0x09 then 0x74
    else if c == 0x0A then 0x6E
    else if c == 0x0C then 0x66
    else if c == 0x0D then 0x72
    else c
  }

  function ShortUnescape(e: CodeUnit): CodeUnit {
    if e == 0x62 then 0x08
    else if e == 0x74 then 0x09
    else if e == 0x6E then 0x0A
    else if e == 0x66 then 0x0C
    else if e == 0x72 then 0x0D
    else e
  }

  function EscapeUnit(c: CodeUnit): Text {
    if c == QUOTE || c == BACKSLASH || ShortEscape(c) != c then [BACKSLASH, ShortEscape(c)]
    else if c < 0x20 || IsHighSurrogate(c) || IsLowSurrogate(c) then UnicodeEscape(c)
    else [c]
  }

  /** `JSON.stringify` on the inside of a string: paired surrogates stay, lone ones are escaped. */
  function Escape(s: Text): Text {
    if s == [] then []
    else if |s| >= 2 && IsHighSurrogate(s[0]) && IsLowSurrogate(s[1]) then [s[0], s[1]] + Escape(s[2..])
    else EscapeUnit(s[0]) + Escape(s[1..])
  }

  function Quote(s: Text): Text { [QUOTE] + Escape(s) + [QUOTE] }

  // ---------- Key order ----------

  /** Order by code unit, section 3.2.3 of RFC 8785. */
  predicate Less(a: Text, b: Text) {
    if b == [] then false
    else if a == [] then true
    else if a[0] != b[0] then a[0] < b[0]
    else Less(a[1..], b[1..])
  }

  predicate StrictlySorted(keys: seq<Text>) {
    forall i, j :: 0 <= i < j < |keys| ==> Less(keys[i], keys[j])
  }

  function Insert(key: Text, keys: seq<Text>): (r: seq<Text>)
    ensures multiset(r) == multiset(keys) + multiset{key}
  {
    if keys == [] || !Less(keys[0], key) then
      [key] + keys
    else
      assert keys == [keys[0]] + keys[1..];
      [keys[0]] + Insert(key, keys[1..])
  }

  function Sort(keys: seq<Text>): (r: seq<Text>)
    ensures multiset(r) == multiset(keys)
    ensures forall k :: k in r <==> k in keys
  {
    if keys == [] then []
    else
      assert keys == [keys[0]] + keys[1..];
      var r := Insert(keys[0], Sort(keys[1..]));
      assert forall k :: k in r <==> k in multiset(r);
      assert forall k :: k in keys <==> k in multiset(keys);
      r
  }

  // ---------- Printing ----------

  /** `Canonical` is `canonicalJson`; `Stringify` is plain `JSON.stringify`. */
  datatype Mode = Canonical | Stringify

  function DefinedKeys(fields: seq<Field>): (keys: seq<Text>)
    ensures forall k :: k in keys <==> Has(fields, k)
  {
    if fields == [] then []
    else
      assert fields == [fields[0]] + fields[1..];
      assert forall k :: Has(fields, k) <==>
        (fields[0].key == k && !fields[0].value.Undefined?) || Has(fields[1..], k) by {
        forall k
          ensures Has(fields, k) <==> (fields[0].key == k && !fields[0].value.Undefined?) || Has(fields[1..], k)
        {
          HasSplit(fields, k);
        }
      }
      (if fields[0].value.Undefined? then [] else [fields[0].key]) + DefinedKeys(fields[1..])
  }

  lemma HasSplit(fields: seq<Field>, k: Text)
    requires fields != []
    ensures Has(fields, k) <==> (fields[0].key == k && !fields[0].value.Undefined?) || Has(fields[1..], k)
  {
    if Has(fields[1..], k) {
      var j :| 0 <= j < |fields[1..]| && fields[1..][j].key == k && !fields[1..][j].value.Undefined?;
      assert fields[j + 1] == fields[1..][j];
    }
    if Has(fields, k) && !(fields[0].key == k && !fields[0].value.Undefined?) {
      var j :| 0 <= j < |fields| && fields[j].key == k && !fields[j].value.Undefined?;
      assert fields[1..][j - 1] == fields[j];
    }
  }

  /** The keys in the order in which the mode prints them. */
  function PrintedKeys(fields: seq<Field>, mode: Mode): (keys: seq<Text>)
    ensures forall k :: k in keys <==> Has(fields, k)
  {
    var keys := DefinedKeys(fields);
    if mode.Canonical? then Sort(keys) else keys
  }

  /** An `undefined` value has no text of its own; `join` shows it as the empty text. */
  function Print(v: Json, mode: Mode): Text
    decreases v, 1
  {
    match v
    case Undefined => []
    case Null => NULL_TEXT
    case Bool(b) => if b then TRUE_TEXT else FALSE_TEXT
    case NonFinite => NULL_TEXT
    case NegativeZero => ZERO_TEXT
    case Number(t) => t
    case String(s) => Quote(s)
    case Array(items) => [OPEN_BRACKET] + PrintItems(items, mode) + [CLOSE_BRACKET]
    case Object(fields) => [OPEN_BRACE] + PrintMembers(fields, PrintedKeys(fields, mode), mode) + [CLOSE_BRACE]
  }

  function PrintItem(v: Json, mode: Mode): Text
    decreases v, 2
  {
    if v.Undefined? && mode.Stringify? then NULL_TEXT else Print(v, mode)
  }

  function PrintItems(items: seq<Json>, mode: Mode): Text
    decreases items, 0
  {
    if items == [] then []
    else if |items| == 1 then PrintItem(items[0], mode)
    else PrintItem(items[0], mode) + [COMMA] + PrintItems(items[1..], mode)
  }

  function PrintMember(fields: seq<Field>, key: Text, mode: Mode): Text
    requires Has(fields, key)
    decreases fields, 0, 0
  {
    Quote(key) + [COLON] + Print(fields[IndexOf(fields, key)].value, mode)
  }

  function PrintMembers(fields: seq<Field>, keys: seq<Text>, mode: Mode): Text
    requires forall k :: k in keys ==> Has(fields, k)
    decreases fields, 1, |keys|
  {
    if keys == [] then []
    else if |keys| == 1 then PrintMember(fields, keys[0], mode)
    else PrintMember(fields, keys[0], mode) + [COMMA] + PrintMembers(fields, keys[1..], mode)
  }

  /** `canonicalJson`. */
  function CanonicalText(v: Json): Text { Print(v, Canonical) }

  // ---------- What a reader gets back ----------

  function Normal(v: Json, mode: Mode): Json
    decreases v, 1
  {
    match v
    case NonFinite => Null
    case NegativeZero => Number(ZERO_TEXT)
    case Array(items) => Array(if mode.Canonical? && items == [Undefined] then [] else NormalItems(items, mode))
    case Object(fields) => Object(NormalMembers(fields, PrintedKeys(fields, mode), mode))
    case _ => v
  }

  function NormalItem(v: Json, mode: Mode): Json
    decreases v, 2
  {
    if v.Undefined? && mode.Stringify? then Null else Normal(v, mode)
  }

  function NormalItems(items: seq<Json>, mode: Mode): (r: seq<Json>)
    ensures |r| == |items|
    ensures forall i :: 0 <= i < |items| ==> r[i] == NormalItem(items[i], mode)
    decreases items, 0
  {
    if items == [] then [] else [NormalItem(items[0], mode)] + NormalItems(items[1..], mode)
  }

  function NormalMember(fields: seq<Field>, key: Text, mode: Mode): Field
    requires Has(fields, key)
    decreases fields, 0, 0
  {
    Field(key, Normal(fields[IndexOf(fields, key)].value, mode))
  }

  function NormalMembers(fields: seq<Field>, keys: seq<Text>, mode: Mode): (r: seq<Field>)
    requires forall k :: k in keys ==> Has(fields, k)
    ensures |r| == |keys|
    ensures forall i :: 0 <= i < |keys| ==> r[i] == NormalMember(fields, keys[i], mode)
    decreases fields, 1, |keys|
  {
    if keys == [] then [] else [NormalMember(fields, keys[0], mode)] + NormalMembers(fields, keys[1..], mode)
  }

  // ---------- The reader ----------

  datatype Read<T> = Fail | Got(value: T, rest: Text)

  predicate StartsWith(s: Text, prefix: Text) { |prefix| <= |s| && s[..|prefix|] == prefix }

  /** Reads the units of a string up to and including its closing quote. */
  function ReadUnits(s: Text): (r: Read<Text>)
    ensures r.Got? ==> |r.rest| < |s|
    decreases |s|
  {
    if s == [] then Fail
    else if s[0] == QUOTE then Got([], s[1..])
    else if s[0] != BACKSLASH then Prepend(s[0], ReadUnits(s[1..]))
    else if |s| < 2 then Fail
    else if s[1] != 0x75 then Prepend(ShortUnescape(s[1]), ReadUnits(s[2..]))
    else if |s| < 6 then Fail
    else
      var a, b, c, d := HexValue(s[2]), HexValue(s[3]), HexValue(s[4]), HexValue(s[5]);
      if a == 16 || b == 16 || c == 16 || d == 16 then Fail
      else Prepend(a * 0x1000 + b * 0x100 + c * 0x10 + d, ReadUnits(s[6..]))
  }

  function Prepend(c: CodeUnit, r: Read<Text>): Read<Text> {
    if r.Fail? then Fail else Got([c] + r.value, r.rest)
  }

  function NumberLength(s: Text): (n: nat)
    ensures n <= |s|
  {
    if s == [] || !IsNumberUnit(s[0]) then 0 else 1 + NumberLength(s[1..])
  }

  function ReadValue(s: Text): (r: Read<Json>)
    ensures r.Got? ==> |r.rest| < |s|
    decreases |s|, 0
  {
    if s == [] then Fail
    else if s[0] == OPEN_BRACKET then
      if |s| > 1 && s[1] == CLOSE_BRACKET then Got(Array([]), s[2..])
      else
        var r := ReadItems(s[1..]);
        if r.Fail? then Fail else Got(Array(r.value), r.rest)
    else if s[0] == OPEN_BRACE then
      if |s| > 1 && s[1] == CLOSE_BRACE then Got(Object([]), s[2..])
      else
        var r := ReadMembers(s[1..]);
        if r.Fail? then Fail else Got(Object(r.value), r.rest)
    else if s[0] == QUOTE then
      var r := ReadUnits(s[1..]);
      if r.Fail? then Fail else Got(String(r.value), r.rest)
    else if StartsWith(s, NULL_TEXT) then Got(Null, s[4..])
    else if StartsWith(s, TRUE_TEXT) then Got(Bool(true), s[4..])
    else if StartsWith(s, FALSE_TEXT) then Got(Bool(false), s[5..])
    else
      var n := NumberLength(s);
      if n == 0 then Fail else Got(Number(s[..n]), s[n..])
  }

  /** Items separated by commas, an empty one standing for `undefined`, up to the closing bracket. */
  function ReadItems(s: Text): (r: Read<seq<Json>>)
    ensures r.Got? ==> |r.rest| < |s|
    decreases |s|, 1
  {
    var first := if s != [] && (s[0] == COMMA || s[0] == CLOSE_BRACKET) then Got(Undefined, s) else ReadValue(s);
    if first.Fail? || first.rest == [] then Fail
    else if first.rest[0] == CLOSE_BRACKET then Got([first.value], first.rest[1..])
    else if first.rest[0] != COMMA then Fail
    else
      var others := ReadItems(first.rest[1..]);
      if others.Fail? then Fail else Got([first.value] + others.value, others.rest)
  }

  function ReadMember(s: Text): (r: Read<Field>)
    ensures r.Got? ==> |r.rest| < |s|
    decreases |s|, 1
  {
    if s == [] || s[0] != QUOTE then Fail
    else
      var key := ReadUnits(s[1..]);
      if key.Fail? || key.rest == [] || key.rest[0] != COLON then Fail
      else
        var v := ReadValue(key.rest[1..]);
        if v.Fail? then Fail else Got(Field(key.value, v.value), v.rest)
  }

  function ReadMembers(s: Text): (r: Read<seq<Field>>)
    ensures r.Got? ==> |r.rest| < |s|
    decreases |s|, 2
  {
    var first := ReadMember(s);
    if first.Fail? || first.rest == [] then Fail
    else if first.rest[0] == CLOSE_BRACE then Got([first.value], first.rest[1..])
    else if first.rest[0] != COMMA then Fail
    else
      var others := ReadMembers(first.rest[1..]);
      if others.Fail? then Fail else Got([first.value] + others.value, others.rest)
  }
}
