/** CSV export, and the reader that shows what it keeps. */
module Csv {
  import opened Prelude
  import opened CanonicalJson
  import JsonText

  const LF: CodeUnit := 0x0A

  /** A row's members as text; a member that is null, undefined or missing is absent. */
  type Row = map<Text, Text>

  function Cell(r: Row, k: Text): Text { if k in r then r[k] else [] }

  predicate IsSpecial(c: CodeUnit) { c == COMMA || c == QUOTE || c == LF }

  /** Free of commas, quotes and line ends. */
  predicate Plain(s: Text) { forall i :: 0 <= i < |s| ==> !IsSpecial(s[i]) }

  // ---------- The printer ----------

  /** Every quote doubled. */
  function Doubled(s: Text): Text {
    if s == [] then [] else (if s[0] == QUOTE then [QUOTE, QUOTE] else [s[0]]) + Doubled(s[1..])
  }

  function Esc(s: Text): Text { if Plain(s) then s else [QUOTE] + Doubled(s) + [QUOTE] }

  function Join(parts: seq<Text>, separator: CodeUnit): Text {
    if parts == [] then []
    else if |parts| == 1 then parts[0]
    else parts[0] + [separator] + Join(parts[1..], separator)
  }

  function Line(r: Row, keys: seq<Text>): Text {
    Join(seq(|keys|, i requires 0 <= i < |keys| => Esc(Cell(r, keys[i]))), COMMA)
  }

  function Lines(rows: seq<Row>, keys: seq<Text>): seq<Text> {
    seq(|rows|, i requires 0 <= i < |rows| => Line(rows[i], keys))
  }

  /** `toCSV`: the header is joined as it is, the cells are escaped. */
  function ToCsv(rows: seq<Row>, keys: seq<Text>): Text { Join([Join(keys, COMMA)] + Lines(rows, keys), LF) }

  // ---------- The reader ----------

  /** What was read, and the text after it. */
  datatype Taken<T> = Bad | Next(value: T, rest: Text)

  /** A field without quotes runs to the next comma or line end; a quote in it is malformed. */
  function ReadBare(t: Text): (r: Taken<Text>)
    ensures r.Next? ==> |r.rest| <= |t|
  {
    if t == [] || t[0] == COMMA || t[0] == LF then Next([], t)
    else if t[0] == QUOTE then Bad
    else
      var r := ReadBare(t[1..]);
      if r.Bad? then Bad else Next([t[0]] + r.value, r.rest)
  }

  /** A quoted field runs to a quote that is not doubled. */
  function ReadQuoted(t: Text): (r: Taken<Text>)
    ensures r.Next? ==> |r.rest| < |t|
  {
    if t == [] then Bad
    else if t[0] == QUOTE then
      if |t| > 1 && t[1] == QUOTE then
        var r := ReadQuoted(t[2..]);
        if r.Bad? then Bad else Next([QUOTE] + r.value, r.rest)
      else Next([], t[1..])
    else
      var r := ReadQuoted(t[1..]);
      if r.Bad? then Bad else Next([t[0]] + r.value, r.rest)
  }

  function ReadField(t: Text): (r: Taken<Text>)
    ensures r.Next? ==> |r.rest| <= |t|
  {
    if t != [] && t[0] == QUOTE then ReadQuoted(t[1..]) else ReadBare(t)
  }

  /** Fields separated by commas, up to a line end or the end of the text. */
  function ReadRecord(t: Text): (r: Taken<seq<Text>>)
    ensures r.Next? ==> |r.rest| <= |t| && (r.rest == [] || r.rest[0] == LF)
    decreases |t|
  {
    var f := ReadField(t);
    if f.Bad? then Bad
    else if f.rest == [] || f.rest[0] == LF then Next([f.value], f.rest)
    else if f.rest[0] != COMMA then Bad
    else
      var r := ReadRecord(f.rest[1..]);
      if r.Bad? then Bad else Next([f.value] + r.value, r.rest)
  }

  /** Records separated by line ends; none when the text is malformed. */
  function ReadCsv(t: Text): Option<seq<seq<Text>>>
    decreases |t|
  {
    var r := ReadRecord(t);
    if r.Bad? then None
    else if r.rest == [] then Some([r.value])
    else
      var more := ReadCsv(r.rest[1..]);
      if more.None? then None else Some([r.value] + more.value)
  }

  /** The header and every cell, as they were before printing. */
  function Table(rows: seq<Row>, keys: seq<Text>): seq<seq<Text>> {
    [keys] + seq(|rows|, i requires 0 <= i < |rows| => Cells(rows[i], keys))
  }

  function Cells(r: Row, keys: seq<Text>): seq<Text> { seq(|keys|, i requires 0 <= i < |keys| => Cell(r, keys[i])) }

  // ---------- Fields ----------

  predicate EndsField(t: Text) { t == [] || t[0] == COMMA || t[0] == LF }

  lemma {:induction false} BareReads(s: Text, tail: Text)
    requires Plain(s) && EndsField(tail)
    ensures ReadBare(s + tail) == Next(s, tail)
  {
    if s == [] { assert s + tail == tail; }
    else {
      BareReads(s[1..], tail);
      assert (s + tail)[1..] == s[1..] + tail && [s[0]] + s[1..] == s;
    }
  }

  lemma {:induction false} QuotedReads(s: Text, tail: Text)
    requires EndsField(tail)
    ensures ReadQuoted(Doubled(s) + [QUOTE] + tail) == Next(s, tail)
  {
    var t := Doubled(s) + [QUOTE] + tail;
    if s == [] { assert t[1..] == tail; }
    else {
      QuotedReads(s[1..], tail);
      var n := if s[0] == QUOTE then 2 else 1;
      assert t[n..] == Doubled(s[1..]) + [QUOTE] + tail && [s[0]] + s[1..] == s;
      assert t[0] == s[0] && (n == 2 ==> t[1] == QUOTE);
    }
  }

  lemma EscReads(s: Text, tail: Text)
    requires EndsField(tail)
    ensures ReadField(Esc(s) + tail) == Next(s, tail)
  {
    hide ReadBare, ReadQuoted, Doubled;
    if Plain(s) {
      BareReads(s, tail);
    } else {
      QuotedReads(s, tail);
      assert (Esc(s) + tail)[1..] == Doubled(s) + [QUOTE] + tail;
    }
  }

  // ---------- Records ----------

  predicate EndsRecord(t: Text) { t == [] || t[0] == LF }

  ghost predicate ReadsField(printed: Text, value: Text) {
    forall tail: Text {:trigger ReadField(printed + tail)} :: EndsField(tail) ==>
      ReadField(printed + tail) == Next(value, tail)
  }

  /** Printed forms that read back as the values, each on its own. */
  ghost predicate Readable(printed: seq<Text>, values: seq<Text>) {
    |printed| == |values| && forall i :: 0 <= i < |printed| ==> ReadsField(printed[i], values[i])
  }

  lemma {:induction false} RecordReads(printed: seq<Text>, values: seq<Text>, tail: Text)
    requires printed != [] && Readable(printed, values) && EndsRecord(tail)
    ensures ReadRecord(Join(printed, COMMA) + tail) == Next(values, tail)
  {
    hide ReadField;
    assert ReadsField(printed[0], values[0]);
    if |printed| == 1 {
      assert ReadField(printed[0] + tail) == Next(values[0], tail) && [values[0]] == values;
    } else {
      var more := Join(printed[1..], COMMA) + tail;
      RecordReads(printed[1..], values[1..], tail);
      assert Join(printed, COMMA) + tail == printed[0] + ([COMMA] + more);
      assert ReadField(printed[0] + ([COMMA] + more)) == Next(values[0], [COMMA] + more);
      assert ([COMMA] + more)[1..] == more && [values[0]] + values[1..] == values;
    }
  }

  lemma CellsReadable(r: Row, keys: seq<Text>)
    ensures Readable(seq(|keys|, i requires 0 <= i < |keys| => Esc(Cell(r, keys[i]))), Cells(r, keys))
  {
    hide ReadField, Esc;
    forall i, tail | 0 <= i < |keys| && EndsField(tail)
      ensures ReadField(Esc(Cell(r, keys[i])) + tail) == Next(Cell(r, keys[i]), tail)
    {
      EscReads(Cell(r, keys[i]), tail);
    }
    forall i | 0 <= i < |keys| ensures ReadsField(Esc(Cell(r, keys[i])), Cell(r, keys[i])) {}
  }

  lemma HeaderReadable(keys: seq<Text>)
    requires forall i :: 0 <= i < |keys| ==> Plain(keys[i])
    ensures Readable(keys, keys)
  {
    hide ReadField;
    forall i, tail | 0 <= i < |keys| && EndsField(tail) ensures ReadField(keys[i] + tail) == Next(keys[i], tail) {
      EscReads(keys[i], tail);
    }
  }

  // ---------- The whole text ----------

  ghost predicate ReadsRecord(line: Text, record: seq<Text>) {
    forall tail: Text {:trigger ReadRecord(line + tail)} :: EndsRecord(tail) ==>
      ReadRecord(line + tail) == Next(record, tail)
  }

  ghost predicate RecordsReadable(lines: seq<Text>, records: seq<seq<Text>>) {
    |lines| == |records| && forall i :: 0 <= i < |lines| ==> ReadsRecord(lines[i], records[i])
  }

  lemma {:induction false} LinesRead(lines: seq<Text>, records: seq<seq<Text>>)
    requires lines != [] && RecordsReadable(lines, records)
    ensures ReadCsv(Join(lines, LF)) == Some(records)
  {
    hide ReadRecord;
    assert ReadsRecord(lines[0], records[0]);
    if |lines| == 1 {
      assert lines[0] + [] == lines[0];
      assert ReadRecord(lines[0] + []) == Next(records[0], []) && [records[0]] == records;
    } else {
      var more := Join(lines[1..], LF);
      LinesRead(lines[1..], records[1..]);
      assert Join(lines, LF) == lines[0] + ([LF] + more);
      assert ReadRecord(lines[0] + ([LF] + more)) == Next(records[0], [LF] + more);
      assert ([LF] + more)[1..] == more && [records[0]] + records[1..] == records;
    }
  }

  lemma PlainHeaderReads(rows: seq<Row>, keys: seq<Text>)
    requires keys != [] && forall i :: 0 <= i < |keys| ==> Plain(keys[i])
    ensures ReadCsv(ToCsv(rows, keys)) == Some(Table(rows, keys))
  {
    hide ReadRecord, ReadCsv, Join, Readable, Cells;
    var lines, table := [Join(keys, COMMA)] + Lines(rows, keys), Table(rows, keys);
    forall i, tail | 0 <= i < |lines| && EndsRecord(tail) ensures ReadRecord(lines[i] + tail) == Next(table[i], tail) {
      if i == 0 {
        HeaderReadable(keys);
        RecordReads(keys, keys, tail);
      } else {
        CellsReadable(rows[i - 1], keys);
        RecordReads(seq(|keys|, j requires 0 <= j < |keys| => Esc(Cell(rows[i - 1], keys[j]))),
                    Cells(rows[i - 1], keys), tail);
      }
    }
    LinesRead(lines, table);
  }

  // ---------- Headers are not escaped ----------

  function LeadingQuotes(t: Text): nat { if t == [] || t[0] != QUOTE then 0 else 1 + LeadingQuotes(t[1..]) }

  lemma {:induction false} QuotedHalvesQuotes(t: Text)
    ensures ReadQuoted(t).Next? ==> 2 * LeadingQuotes(ReadQuoted(t).value) <= LeadingQuotes(t)
  {
    if |t| > 1 && t[0] == QUOTE && t[1] == QUOTE {
      QuotedHalvesQuotes(t[2..]);
      assert t[1..][1..] == t[2..];
      var r := ReadQuoted(t[2..]);
      if r.Next? { assert ([QUOTE] + r.value)[1..] == r.value; }
    }
  }

  lemma {:induction false} LeadingQuotesStop(s: Text, tail: Text)
    requires EndsField(tail)
    ensures LeadingQuotes(s + tail) == LeadingQuotes(s)
  {
    if s == [] { assert s + tail == tail; }
    else {
      LeadingQuotesStop(s[1..], tail);
      assert (s + tail)[1..] == s[1..] + tail;
    }
  }

  lemma {:induction false} BareMisreads(s: Text, tail: Text)
    requires !Plain(s) && EndsField(tail)
    ensures ReadBare(s + tail).Next? ==> ReadBare(s + tail).value != s
  {
    if !IsSpecial(s[0]) {
      BareMisreads(s[1..], tail);
      assert (s + tail)[1..] == s[1..] + tail;
    }
  }

  /** A name with a special character in it does not read back. */
  lemma FieldMisreads(s: Text, tail: Text)
    requires !Plain(s) && EndsField(tail)
    ensures ReadField(s + tail).Next? ==> ReadField(s + tail).value != s
  {
    hide ReadBare, ReadQuoted, Plain;
    SpecialIsThere(s);
    if s[0] == QUOTE {
      assert (s + tail)[1..] == s[1..] + tail;
      QuotedHalvesQuotes(s[1..] + tail);
      LeadingQuotesStop(s[1..], tail);
      assert LeadingQuotes(s) == 1 + LeadingQuotes(s[1..]);
    } else {
      BareMisreads(s, tail);
    }
  }

  lemma SpecialIsThere(s: Text)
    requires !Plain(s)
    ensures s != []
  {
  }

  lemma {:induction false} HeaderMisreads(keys: seq<Text>, tail: Text)
    requires keys != [] && EndsRecord(tail) && exists i :: 0 <= i < |keys| && !Plain(keys[i])
    ensures ReadRecord(Join(keys, COMMA) + tail).Next? ==> ReadRecord(Join(keys, COMMA) + tail).value != keys
  {
    hide ReadField, Plain;
    var rest := if |keys| == 1 then tail else [COMMA] + (Join(keys[1..], COMMA) + tail);
    assert Join(keys, COMMA) + tail == keys[0] + rest;
    if !Plain(keys[0]) {
      FieldMisreads(keys[0], rest);
    } else {
      EscReads(keys[0], rest);
      var i :| 0 <= i < |keys| && !Plain(keys[i]);
      assert keys[1..][i - 1] == keys[i];
      HeaderMisreads(keys[1..], tail);
      assert rest[1..] == Join(keys[1..], COMMA) + tail;
      assert ReadRecord(Join(keys, COMMA) + tail).Next? ==>
        ReadRecord(Join(keys, COMMA) + tail).value[1..] == ReadRecord(rest[1..]).value;
    }
  }

  /** The export reads back, header and cells, for all rows exactly when there is a column and no column name
      contains a comma, a quote or a line end. Cells may contain anything. */
  lemma CsvRoundTrip(rows: seq<Row>, keys: seq<Text>)
    ensures ReadCsv(ToCsv(rows, keys)) == Some(Table(rows, keys)) <==>
      keys != [] && forall i :: 0 <= i < |keys| ==> Plain(keys[i])
  {
    hide ReadRecord, Join, Plain, Lines;
    if keys != [] && forall i :: 0 <= i < |keys| ==> Plain(keys[i]) {
      PlainHeaderReads(rows, keys);
    } else {
      var tail := if rows == [] then [] else [LF] + Join(Lines(rows, keys), LF);
      TextSplit(rows, keys, tail);
      assert Table(rows, keys)[0] == keys;
      if keys == [] { NoColumns(tail); } else { HeaderMisreads(keys, tail); }
    }
  }

  lemma TextSplit(rows: seq<Row>, keys: seq<Text>, tail: Text)
    requires tail == if rows == [] then [] else [LF] + Join(Lines(rows, keys), LF)
    ensures ToCsv(rows, keys) == Join(keys, COMMA) + tail
  {
    assert ([Join(keys, COMMA)] + Lines(rows, keys))[1..] == Lines(rows, keys);
  }

  lemma NoColumns(tail: Text)
    requires EndsRecord(tail)
    ensures ReadRecord(Join([], COMMA) + tail) == Next([[]], tail)
  {
    assert Join([], COMMA) + tail == tail;
  }

  // ---------- The text itself ----------

  /** A unit of a quoted cell: a quote twice, anything else once. */
  predicate QuotedUnit(c: CodeUnit, t: Text) { t == if c == 0x22 then [0x22, 0x22] else [c] }

  lemma {:induction false} DoubledText(s: Text) returns (pieces: seq<Text>)
    ensures |pieces| == |s| && Doubled(s) == JsonText.Joined(pieces)
    ensures forall i :: 0 <= i < |s| ==> QuotedUnit(s[i], pieces[i])
  {
    if s == [] {
      pieces := [];
    } else {
      var rest := DoubledText(s[1..]);
      pieces := [if s[0] == QUOTE then [QUOTE, QUOTE] else [s[0]]] + rest;
      assert pieces[1..] == rest;
    }
  }

  /** A cell without commas, quotes and line feeds is printed as it is, any other between quotes and with its own
      quotes doubled. */
  lemma CellText(s: Text) returns (pieces: seq<Text>)
    ensures |pieces| == |s| && forall i :: 0 <= i < |s| ==> QuotedUnit(s[i], pieces[i])
    ensures Esc(s) ==
      if 0x2C in s || 0x22 in s || 0x0A in s then [0x22] + JsonText.Joined(pieces) + [0x22] else s
  {
    hide Doubled;
    pieces := DoubledText(s);
    assert Plain(s) <==> 0x2C !in s && 0x22 !in s && 0x0A !in s by {
      if i :| 0 <= i < |s| && IsSpecial(s[i]) { assert s[i] in s; }
    }
  }

  /** Each part is followed by the separator, the last by nothing. */
  predicate Parted(parts: seq<Text>, separator: CodeUnit, pieces: seq<Text>) {
    |pieces| == |parts| &&
    forall i :: 0 <= i < |parts| ==> pieces[i] == if i + 1 < |parts| then parts[i] + [separator] else parts[i]
  }

  lemma {:induction false} JoinText(parts: seq<Text>, separator: CodeUnit) returns (pieces: seq<Text>)
    ensures Parted(parts, separator, pieces) && Join(parts, separator) == JsonText.Joined(pieces)
  {
    if parts == [] {
      pieces := [];
    } else if |parts| == 1 {
      pieces := parts;
      assert pieces[1..] == [] && parts[0] + [] == parts[0];
    } else {
      var rest := JoinText(parts[1..], separator);
      pieces := [parts[0] + [separator]] + rest;
      assert pieces[1..] == rest;
    }
  }

  /** A line is the row's cells in the order of the columns, with commas between them; a missing member leaves an
      empty cell. */
  lemma LineText(r: Row, keys: seq<Text>) returns (cells: seq<Text>, pieces: seq<Text>)
    ensures |cells| == |keys| && Parted(cells, 0x2C, pieces) && Line(r, keys) == JsonText.Joined(pieces)
    ensures forall j :: 0 <= j < |keys| ==> cells[j] == Esc(if keys[j] in r then r[keys[j]] else [])
  {
    hide Join, Esc;
    cells := seq(|keys|, j requires 0 <= j < |keys| => Esc(Cell(r, keys[j])));
    pieces := JoinText(cells, COMMA);
  }

  /** The export is the header and a line for each row, in order, with line feeds between them. */
  lemma ExportText(rows: seq<Row>, keys: seq<Text>) returns (lines: seq<Text>, pieces: seq<Text>, header: seq<Text>)
    ensures Parted(lines, 0x0A, pieces) && ToCsv(rows, keys) == JsonText.Joined(pieces)
    ensures |lines| == |rows| + 1 && forall i :: 0 <= i < |rows| ==> lines[i + 1] == Line(rows[i], keys)
    ensures Parted(keys, 0x2C, header) && lines[0] == JsonText.Joined(header)
  {
    hide Join, Line, Parted;
    lines := [Join(keys, COMMA)] + Lines(rows, keys);
    pieces := JoinText(lines, LF);
    header := JoinText(keys, COMMA);
  }
}
